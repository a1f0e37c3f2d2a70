/** The prompt descriptor parser of Perceptor/Prompt.py: `MultiClipPrompt`
    (text prompts) and `MultiClipImagePrompt` (image prompts) turn a string
    `text[:weight[:stop]]` into a `Prompt` record. The embeddings and the loss
    are not part of this model; `float()` is the parameter `toFloat`, a
    conversion that may fail, and loading the image is the parameter `loads`. */
module Prompts {
  import opened Wrappers
  import opened PyStrings
  import opened ReSplit

  /** The defaults list `['', '1', '-inf']` whose tail pads a short split. */
  const Defaults: seq<string> := ["", "1", "-inf"]

  /** `tokens + ['', '1', '-inf'][len(tokens):]`: exactly three fields, the
      given parts first, the defaults for the positions the parts leave open. */
  function Pad(parts: seq<string>): (fields: seq<string>)
    requires |parts| <= 3
    ensures |fields| == 3
    ensures forall k :: 0 <= k < |parts| ==> fields[k] == parts[k]
    ensures forall k :: |parts| <= k < 3 ==> fields[k] == Defaults[k]
  {
    parts + Defaults[|parts|..]
  }

  /** The three fields after `text, weight, stop = tokens` and `.strip()`. */
  datatype Fields = Fields(text: string, weight: string, stop: string)

  /** Split, pad, unpack and strip a descriptor: lines 54-57 and the `.strip()`
      calls of lines 58-59 for text prompts, lines 67-70 and 76-77 for image
      prompts. No field has whitespace at its ends; without a separator the
      weight is `"1"`, and without a second one the stop is `"-inf"`. */
  function Descriptor(p: Pattern, s: string): (f: Fields)
    ensures Stripped(f.text) && Stripped(f.weight) && Stripped(f.stop)
    ensures |Delims(p, s)| == 0 ==> f.weight == "1"
    ensures |Delims(p, s)| < 2 ==> f.stop == "-inf"
  {
    var parts := Split(p, s);
    SplitCount(p, s);
    var fields := Pad(parts);
    StripOfStripped("1");
    StripOfStripped("-inf");
    Fields(Strip(fields[0]), Strip(fields[1]), Strip(fields[2]))
  }

  /** What each field of a descriptor is, in terms of the match positions:
      the text always comes from the input (it is never defaulted), a missing
      weight is `"1"`, a missing stop is `"-inf"`, and the stop field runs to
      the end of the string. */
  lemma DescriptorFields(p: Pattern, s: string)
    ensures var d := Delims(p, s); var f := Descriptor(p, s);
      && CutsIn(s, 0, d)
      && f.text == Strip(if |d| == 0 then s else s[..d[0]])
      && f.weight == (if |d| == 0 then "1" else if |d| == 1 then Strip(s[d[0] + 1..]) else Strip(s[d[0] + 1..d[1]]))
      && f.stop == (if |d| <= 1 then "-inf" else Strip(s[d[1] + 1..]))
  {
    SplitShapes(p, s);
    SplitCount(p, s);
    StripOfStripped("1");
    StripOfStripped("-inf");
  }

  /** A descriptor that splits into three parts has those parts, stripped, as its fields. */
  lemma DescriptorOfThreeParts(p: Pattern, s: string, text: string, weight: string, stop: string)
    requires Split(p, s) == [text, weight, stop]
    ensures Descriptor(p, s) == Fields(Strip(text), Strip(weight), Strip(stop))
  {
    assert Pad(Split(p, s)) == [text, weight, stop];
  }

  /** A descriptor with no separator gives `(strip(s), "1", "-inf")`. */
  lemma NoSeparatorDefaults(p: Pattern, s: string)
    requires Delims(p, s) == []
    ensures Descriptor(p, s) == Fields(Strip(s), "1", "-inf")
  {
    DescriptorFields(p, s);
  }

  /** The stored text and the strings passed to `float()` are already
      stripped: stripping them again changes nothing. */
  lemma FieldsStripped(p: Pattern, s: string)
    ensures var f := Descriptor(p, s);
      Strip(f.text) == f.text && Strip(f.weight) == f.weight && Strip(f.stop) == f.stop
  {
    var f := Descriptor(p, s);
    StripOfStripped(f.text);
    StripOfStripped(f.weight);
    StripOfStripped(f.stop);
  }

  /** For text prompts, neither the text nor the weight field holds a `:`. */
  lemma TextFieldsColonFree(s: string)
    ensures var f := Descriptor(AnyColon, s);
      ':' !in f.text && ':' !in f.weight
  {
    var parts := Split(AnyColon, s);
    ColonSplitPartsColonFree(s);
    SplitCount(AnyColon, s);
    var fields := Pad(parts);
    assert ':' !in fields[0];
    assert ':' !in fields[1] by {
      if |parts| < 2 { assert fields[1] == "1"; }
    }
    StripKeepsOut(fields[0], ':');
    StripKeepsOut(fields[1], ':');
  }

  // ---------------------------------------------------------------------------
  // The Prompt record and the two constructors.

  /** The parts of a `Prompt` this model keeps: the descriptor as given, the
      display text, and the converted weight and stop (lines 16-23). */
  datatype Prompt<N> = Prompt(promptString: string, text: string, weight: N, stop: N)

  /** `__repr__`: the descriptor string the prompt was built from. */
  function Repr<N>(p: Prompt<N>): (r: string)
    ensures r == p.promptString
  {
    p.promptString
  }

  /** `__str__`: the display text. */
  function Str<N>(p: Prompt<N>): (r: string)
    ensures r == p.text
  {
    p.text
  }

  /** Why a constructor raises: `float()` rejected the weight or the stop
      field, or the image named by the text field could not be loaded. */
  datatype PromptError =
    | WeightNotANumber(field: string)
    | StopNotANumber(field: string)
    | ImageUnavailable(name: string)

  /** The suffix image prompts append to their display text (line 81). */
  const SemanticSuffix: string := " (semantic)"

  /** The default descriptor of `MultiClipImagePrompt` (line 66). */
  const DefaultImagePrompt: string := "IMAGE PROMPT"

  /** `float(weight.strip())` then `float(stop.strip())`: the weight is
      converted first, so its failure is the one raised when both fail. */
  function Numbers<N>(f: Fields, toFloat: string -> Option<N>): (r: Result<(N, N), PromptError>)
    ensures r.Ok? <==> toFloat(f.weight).Some? && toFloat(f.stop).Some?
    ensures r.Ok? ==> r.value == (toFloat(f.weight).value, toFloat(f.stop).value)
    ensures toFloat(f.weight).None? ==> r == Err(WeightNotANumber(f.weight))
    ensures toFloat(f.weight).Some? && toFloat(f.stop).None? ==> r == Err(StopNotANumber(f.stop))
  {
    match toFloat(f.weight)
    case None => Err(WeightNotANumber(f.weight))
    case Some(w) =>
      match toFloat(f.stop)
      case None => Err(StopNotANumber(f.stop))
      case Some(st) => Ok((w, st))
  }

  /** `MultiClipPrompt(prompt_string)` (lines 53-63), without the embedding.
      It succeeds exactly when both numeric fields convert: nothing checks
      that the signs of weight and stop agree. Its `repr` is the descriptor
      itself and its `str` the stripped text, which holds no `:`. */
  function TextPrompt<N>(s: string, toFloat: string -> Option<N>): (r: Result<Prompt<N>, PromptError>)
    ensures var f := Descriptor(AnyColon, s);
      && (r.Ok? <==> toFloat(f.weight).Some? && toFloat(f.stop).Some?)
      && (r.Ok? ==> Repr(r.value) == s && Str(r.value) == f.text
                    && r.value.weight == toFloat(f.weight).value && r.value.stop == toFloat(f.stop).value)
      && (r.Err? ==> r.error == if toFloat(f.weight).None? then WeightNotANumber(f.weight) else StopNotANumber(f.stop))
  {
    var f := Descriptor(AnyColon, s);
    var n := Numbers(f, toFloat);
    if n.Err? then Err(n.error) else Ok(Prompt(s, f.text, n.value.0, n.value.1))
  }

  /** `MultiClipImagePrompt(embedder, prompt_string, pil_image)` (lines 66-81),
      without the embedding. `imageSupplied` says whether `pil_image` was
      given; otherwise the stripped text field is the name handed to `fetch`,
      and `loads` says whether that image could be fetched and decoded. The
      image is loaded before the numbers are converted, so a missing image is
      the error raised first. The display text is the stripped text followed
      by `" (semantic)"`. */
  function ImagePrompt<N>(s: string, toFloat: string -> Option<N>, imageSupplied: bool, loads: string -> bool)
    : (r: Result<Prompt<N>, PromptError>)
    ensures var f := Descriptor(SchemeSafeColon, s);
      && (r.Ok? <==> (imageSupplied || loads(f.text)) && toFloat(f.weight).Some? && toFloat(f.stop).Some?)
      && (!imageSupplied && !loads(f.text) ==> r == Err(ImageUnavailable(f.text)))
      && (r.Ok? ==> Repr(r.value) == s && Str(r.value) == f.text + SemanticSuffix
                    && r.value.weight == toFloat(f.weight).value && r.value.stop == toFloat(f.stop).value)
      && ((imageSupplied || loads(f.text)) && r.Err? ==>
            r.error == if toFloat(f.weight).None? then WeightNotANumber(f.weight) else StopNotANumber(f.stop))
  {
    var f := Descriptor(SchemeSafeColon, s);
    if !imageSupplied && !loads(f.text) then Err(ImageUnavailable(f.text))
    else
      var n := Numbers(f, toFloat);
      var text := f.text + SemanticSuffix;
      if n.Err? then Err(n.error) else Ok(Prompt(s, text, n.value.0, n.value.1))
  }

  /** `str()` of a text prompt is its text field stripped: no whitespace at
      either end and no `:`; its `repr()` is the descriptor unchanged. */
  lemma TextPromptDisplay<N>(s: string, toFloat: string -> Option<N>)
    requires TextPrompt(s, toFloat).Ok?
    ensures var p := TextPrompt(s, toFloat).value;
      && Repr(p) == s
      && Stripped(Str(p)) && Strip(Str(p)) == Str(p) && ':' !in Str(p)
  {
    FieldsStripped(AnyColon, s);
    TextFieldsColonFree(s);
  }

  /** `str()` of an image prompt is the stripped text field followed by
      `" (semantic)"`; its `repr()` is the descriptor unchanged. */
  lemma ImagePromptDisplay<N>(s: string, toFloat: string -> Option<N>, imageSupplied: bool, loads: string -> bool)
    requires ImagePrompt(s, toFloat, imageSupplied, loads).Ok?
    ensures var p := ImagePrompt(s, toFloat, imageSupplied, loads).value;
      && Repr(p) == s
      && |Str(p)| >= |SemanticSuffix|
      && Str(p)[|Str(p)| - |SemanticSuffix|..] == SemanticSuffix
      && var text := Str(p)[..|Str(p)| - |SemanticSuffix|];
         Stripped(text) && text == Descriptor(SchemeSafeColon, s).text
  {
    var f := Descriptor(SchemeSafeColon, s);
    FieldsStripped(SchemeSafeColon, s);
    var t := f.text + SemanticSuffix;
    assert t[..|t| - |SemanticSuffix|] == f.text;
    assert t[|t| - |SemanticSuffix|..] == SemanticSuffix;
  }

  /** A text descriptor without `:` becomes a prompt whose text is the whole
      descriptor stripped, with weight `float("1")` and stop `float("-inf")`. */
  lemma TextPromptWithoutColon<N>(s: string, toFloat: string -> Option<N>, one: N, noFloor: N)
    requires ':' !in s
    requires toFloat("1") == Some(one) && toFloat("-inf") == Some(noFloor)
    ensures TextPrompt(s, toFloat) == Ok(Prompt(s, Strip(s), one, noFloor))
  {
    NoColonNoSplit(AnyColon, s);
    NoSeparatorDefaults(AnyColon, s);
  }

  /** An image descriptor without `:` names the image by the whole descriptor
      stripped, with weight `float("1")` and stop `float("-inf")`. */
  lemma ImagePromptWithoutColon<N>(s: string, toFloat: string -> Option<N>, imageSupplied: bool,
                                   loads: string -> bool, one: N, noFloor: N)
    requires ':' !in s
    requires imageSupplied || loads(Strip(s))
    requires toFloat("1") == Some(one) && toFloat("-inf") == Some(noFloor)
    ensures ImagePrompt(s, toFloat, imageSupplied, loads)
      == Ok(Prompt(s, Strip(s) + SemanticSuffix, one, noFloor))
  {
    NoColonNoSplit(SchemeSafeColon, s);
    NoSeparatorDefaults(SchemeSafeColon, s);
  }

  /** A text descriptor split into three stripped parts whose numbers convert. */
  lemma TextPromptOfThreeParts<N>(s: string, toFloat: string -> Option<N>,
                                  text: string, weight: string, stop: string, w: N, st: N)
    requires Split(AnyColon, s) == [text, weight, stop]
    requires Stripped(text) && Stripped(weight) && Stripped(stop)
    requires toFloat(weight) == Some(w) && toFloat(stop) == Some(st)
    ensures TextPrompt(s, toFloat) == Ok(Prompt(s, text, w, st))
  {
    DescriptorOfThreeParts(AnyColon, s, text, weight, stop);
    StripOfStripped(text);
    StripOfStripped(weight);
    StripOfStripped(stop);
  }

  /** An image prompt named by an `http://` or `https://` address with no
      further colon: the whole address is the name handed to `fetch`, the
      display text is the address followed by `" (semantic)"`, and the two
      fields after it are the weight and the stop. */
  lemma SchemeUrlImagePrompt<N>(scheme: string, rest: string, weight: string, stop: string,
                                toFloat: string -> Option<N>, imageSupplied: bool, loads: string -> bool, w: N, st: N)
    requires scheme == "http" || scheme == "https"
    requires ':' !in rest && ':' !in weight
    requires !StartsWithSlashes(weight) && !StartsWithSlashes(stop)
    requires rest == [] || !IsSpace(rest[|rest| - 1])
    requires imageSupplied || loads(scheme + "://" + rest)
    requires toFloat(Strip(weight)) == Some(w) && toFloat(Strip(stop)) == Some(st)
    ensures var s := scheme + "://" + rest + ":" + weight + ":" + stop;
      ImagePrompt(s, toFloat, imageSupplied, loads)
        == Ok(Prompt(s, scheme + "://" + rest + SemanticSuffix, w, st))
  {
    var u := scheme + "://" + rest;
    SchemeUrlKept(scheme, rest, weight, stop);
    DescriptorOfThreeParts(SchemeSafeColon, scheme + "://" + rest + ":" + weight + ":" + stop, u, weight, stop);
    SchemeUrlStripped(scheme, rest);
  }

  /** An address that starts with its scheme and does not end in whitespace
      is left unchanged by `strip()`. */
  lemma SchemeUrlStripped(scheme: string, rest: string)
    requires scheme == "http" || scheme == "https"
    requires rest == [] || !IsSpace(rest[|rest| - 1])
    ensures Strip(scheme + "://" + rest) == scheme + "://" + rest
  {
    var u := scheme + "://" + rest;
    assert u[0] == 'h';
    assert rest == [] ==> u[|u| - 1] == '/';
    assert rest != [] ==> u[|u| - 1] == rest[|rest| - 1];
    StripOfStripped(u);
  }

  /** A descriptor with more than two separators is not rejected by the split:
      every later colon stays in the stop field, which is what reaches
      `float()`. */
  lemma ExtraFieldsStayInStop(p: Pattern, s: string)
    requires |Delims(p, s)| > MaxSplit
    ensures ':' in Descriptor(p, s).stop
  {
    LaterColonsStayInThirdPart(p, s);
    var parts := Split(p, s);
    DescriptorOfThreeParts(p, s, parts[0], parts[1], parts[2]);
    StripKeepsIn(parts[2], ':');
  }

  /** So a text descriptor with four or more fields fails only because the
      conversion refuses a stop field holding `:` (Python's `float()` does):
      the error is raised at the weight if that does not convert, else at the
      stop. */
  lemma ExtraFieldsRejectedByConversion<N>(s: string, toFloat: string -> Option<N>)
    requires |Delims(AnyColon, s)| > MaxSplit
    requires forall t :: ':' in t ==> toFloat(t).None?
    ensures TextPrompt(s, toFloat).Err?
    ensures toFloat(Descriptor(AnyColon, s).weight).Some? ==>
      TextPrompt(s, toFloat) == Err(StopNotANumber(Descriptor(AnyColon, s).stop))
  {
    ExtraFieldsStayInStop(AnyColon, s);
  }
}
