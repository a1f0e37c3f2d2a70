/** Concrete descriptors and what the two constructors make of them. */
module PromptExamples {
  import opened Wrappers
  import opened PyStrings
  import opened ReSplit
  import opened Prompts

  /** The example fields carry no whitespace at their ends. */
  lemma ExampleFieldsStripped()
    ensures Stripped("x") && Stripped("1") && Stripped("-0.5")
    ensures Stripped("cat") && Stripped("0.5") && Stripped("0.1") && Stripped("sunset")
    ensures Stripped(DefaultImagePrompt)
  {
  }

  /** `"x:1:-0.5"` splits at both colons. */
  lemma SplitSignMismatch()
    ensures Split(AnyColon, "x:1:-0.5") == ["x", "1", "-0.5"]
  {
    var s := "x:1:-0.5";
    calc {
      SplitScan(AnyColon, s, 0, 0, MaxSplit);
      SplitScan(AnyColon, s, 0, 1, 2);
      [s[0..1]] + SplitScan(AnyColon, s, 2, 2, 1);
      [s[0..1]] + SplitScan(AnyColon, s, 2, 3, 1);
      [s[0..1]] + ([s[2..3]] + SplitScan(AnyColon, s, 4, 4, 0));
      { assert s[0..1] == "x" && s[2..3] == "1" && s[4..] == "-0.5"; }
      ["x", "1", "-0.5"];
    }
  }

  /** A positive weight with a negative stop contradicts the documented rule
      `sign(stop) == sign(weight)` (lines 49-51), yet the text constructor
      accepts it: nothing in the parse compares the two signs. */
  lemma SignMismatchAccepted(toFloat: string -> Option<real>)
    requires toFloat("1") == Some(1.0) && toFloat("-0.5") == Some(-0.5)
    ensures TextPrompt("x:1:-0.5", toFloat) == Ok(Prompt("x:1:-0.5", "x", 1.0, -0.5))
  {
    ExampleFieldsStripped();
    SplitSignMismatch();
    TextPromptOfThreeParts("x:1:-0.5", toFloat, "x", "1", "-0.5", 1.0, -0.5);
  }

  /** `"cat:0.5:0.1"` splits at both colons. */
  lemma SplitCat()
    ensures Split(AnyColon, "cat:0.5:0.1") == ["cat", "0.5", "0.1"]
  {
    var s := "cat:0.5:0.1";
    calc {
      SplitScan(AnyColon, s, 0, 0, MaxSplit);
      SplitScan(AnyColon, s, 0, 3, 2);
      [s[0..3]] + SplitScan(AnyColon, s, 4, 4, 1);
      { ScanSkips(AnyColon, s, 4, 4, 7, 1); }
      [s[0..3]] + SplitScan(AnyColon, s, 4, 7, 1);
      [s[0..3]] + ([s[4..7]] + SplitScan(AnyColon, s, 8, 8, 0));
      { assert s[0..3] == "cat" && s[4..7] == "0.5" && s[8..] == "0.1"; }
      ["cat", "0.5", "0.1"];
    }
  }

  /** A descriptor with all three fields: `str()` is `"cat"` and `repr()` the
      descriptor unchanged. */
  lemma CatPrompt<N>(toFloat: string -> Option<N>, w: N, st: N)
    requires toFloat("0.5") == Some(w) && toFloat("0.1") == Some(st)
    ensures TextPrompt("cat:0.5:0.1", toFloat) == Ok(Prompt("cat:0.5:0.1", "cat", w, st))
    ensures Str(TextPrompt("cat:0.5:0.1", toFloat).value) == "cat"
    ensures Repr(TextPrompt("cat:0.5:0.1", toFloat).value) == "cat:0.5:0.1"
  {
    ExampleFieldsStripped();
    SplitCat();
    TextPromptOfThreeParts("cat:0.5:0.1", toFloat, "cat", "0.5", "0.1", w, st);
  }

  /** A bare text takes the default weight `"1"` and stop `"-inf"`. */
  lemma SunsetDefaults<N>(toFloat: string -> Option<N>, one: N, noFloor: N)
    requires toFloat("1") == Some(one) && toFloat("-inf") == Some(noFloor)
    ensures TextPrompt("sunset", toFloat) == Ok(Prompt("sunset", "sunset", one, noFloor))
  {
    ExampleFieldsStripped();
    StripOfStripped("sunset");
    TextPromptWithoutColon("sunset", toFloat, one, noFloor);
  }

  /** The colon of `http://` is kept inside the first field; the two colons
      after the address separate the weight and the stop. */
  lemma SplitUrl()
    ensures Split(SchemeSafeColon, "http://example.com/img.png:2:0.3") == ["http://example.com/img.png", "2", "0.3"]
  {
    assert "0.3"[..2] == "0.";
    SchemeUrlKept("http", "example.com/img.png", "2", "0.3");
    assert "http" + "://" + "example.com/img.png" == "http://example.com/img.png";
    assert "http://example.com/img.png" + ":" + "2" + ":" + "0.3" == "http://example.com/img.png:2:0.3";
  }

  /** `"ftp://host/a.png"`: only `http` and `s`-ending schemes are protected,
      so the colon of any other scheme separates the label from a weight. */
  lemma OtherSchemeSplits()
    ensures Split(SchemeSafeColon, "ftp://host/a.png") == ["ftp", "//host/a.png"]
  {
    var s := "ftp://host/a.png";
    assert IsDelim(SchemeSafeColon, s, 3) by {
      assert !HttpBefore(s, 3) && s[2] == 'p';
    }
    var rest := s[4..];
    assert rest == "//host/a.png";
    forall j | 4 <= j < |s| ensures !IsDelim(SchemeSafeColon, s, j) {
      assert s[j] == rest[j - 4] && rest[j - 4] in rest;
    }
    ScanSkips(SchemeSafeColon, s, 4, 4, |s|, 1);
    calc {
      SplitScan(SchemeSafeColon, s, 0, 0, MaxSplit);
      SplitScan(SchemeSafeColon, s, 0, 3, 2);
      [s[0..3]] + SplitScan(SchemeSafeColon, s, 4, 4, 1);
      [s[0..3]] + SplitScan(SchemeSafeColon, s, 4, |s|, 1);
      { assert s[0..3] == "ftp"; }
      ["ftp", "//host/a.png"];
    }
  }

  /** The default descriptor of an image prompt given as an image object:
      its display text is `"IMAGE PROMPT"` marked semantic. */
  lemma DefaultImagePromptParses<N>(toFloat: string -> Option<N>, loads: string -> bool, one: N, noFloor: N)
    requires toFloat("1") == Some(one) && toFloat("-inf") == Some(noFloor)
    ensures ImagePrompt(DefaultImagePrompt, toFloat, true, loads)
      == Ok(Prompt(DefaultImagePrompt, DefaultImagePrompt + SemanticSuffix, one, noFloor))
  {
    DefaultImagePromptPlain();
    ImagePromptWithoutColon(DefaultImagePrompt, toFloat, true, loads, one, noFloor);
  }

  /** The default descriptor has no colon and no whitespace at its ends. */
  lemma DefaultImagePromptPlain()
    ensures ':' !in DefaultImagePrompt && Strip(DefaultImagePrompt) == DefaultImagePrompt
  {
    ExampleFieldsStripped();
    StripOfStripped(DefaultImagePrompt);
  }
}
