/** The two pieces of Python's `str` behaviour the descriptor parser relies on:
    `str.strip()` with no argument, and `sep.join(parts)`. */
module PyStrings {

  /** `c.isspace()` in Python 3: the characters the argument-less `strip()`
      removes (the Unicode whitespace category plus the ASCII separators). */
  predicate IsSpace(c: char)
    ensures IsSpace(c) ==> c != ':' && c != '.' && c != '-' && c != '+'
    ensures IsSpace(c) ==> !('0' <= c <= '9') && !('a' <= c <= 'z') && !('A' <= c <= 'Z')
  {
    c == ' ' || c == '\t' || c == '\n' || c == '\r'
    || c == '\U{0B}' || c == '\U{0C}'
    || ('\U{1C}' <= c <= '\U{1F}')
    || c == '\U{85}' || c == '\U{A0}' || c == '\U{1680}'
    || ('\U{2000}' <= c <= '\U{200A}')
    || c == '\U{2028}' || c == '\U{2029}' || c == '\U{202F}' || c == '\U{205F}'
    || c == '\U{3000}'
  }

  /** No whitespace at either end: what `strip()` guarantees of its result. */
  predicate Stripped(s: string)
  {
    s == [] || (!IsSpace(s[0]) && !IsSpace(s[|s| - 1]))
  }

  /** `s.lstrip()`: drop the leading whitespace. */
  function TrimStart(s: string): (r: string)
    ensures |r| <= |s|
  {
    if s != [] && IsSpace(s[0]) then TrimStart(s[1..]) else s
  }

  /** `s.rstrip()`: drop the trailing whitespace. */
  function TrimEnd(s: string): (r: string)
    ensures |r| <= |s|
  {
    if s != [] && IsSpace(s[|s| - 1]) then TrimEnd(s[..|s| - 1]) else s
  }


  /** `lstrip()` leaves the suffix of `s` after its leading whitespace, and
      that suffix does not start with whitespace. */
  lemma {:induction false} TrimStartSuffix(s: string)
    ensures TrimStart(s) == s[|s| - |TrimStart(s)|..]
    ensures forall k :: 0 <= k < |s| - |TrimStart(s)| ==> IsSpace(s[k])
    ensures TrimStart(s) != [] ==> !IsSpace(TrimStart(s)[0])
  {
    if s != [] && IsSpace(s[0]) {
      TrimStartSuffix(s[1..]);
      var r := TrimStart(s[1..]);
      forall k | 0 <= k < |s| - |r| ensures IsSpace(s[k]) {
        if k > 0 { assert s[k] == s[1..][k - 1]; }
      }
    }
  }

  /** `rstrip()` leaves the prefix of `s` before its trailing whitespace, and
      that prefix does not end with whitespace. */
  lemma {:induction false} TrimEndPrefix(s: string)
    ensures TrimEnd(s) == s[..|TrimEnd(s)|]
    ensures forall k :: |TrimEnd(s)| <= k < |s| ==> IsSpace(s[k])
    ensures TrimEnd(s) != [] ==> !IsSpace(TrimEnd(s)[|TrimEnd(s)| - 1])
  {
    if s != [] && IsSpace(s[|s| - 1]) {
      var t := s[..|s| - 1];
      TrimEndPrefix(t);
      var r := TrimEnd(t);
      assert r == s[..|r|];
      forall k | |r| <= k < |s| ensures IsSpace(s[k]) {
        if k < |s| - 1 { assert s[k] == t[k]; }
      }
    }
  }

  /** `s.strip()`: drop the whitespace at both ends. The result neither starts
      nor ends with whitespace. */
  function Strip(s: string): (r: string)
    ensures |r| <= |s|
    ensures Stripped(r)
  {
    TrimStartSuffix(s);
    var t := TrimStart(s);
    TrimEndPrefix(t);
    var r := TrimEnd(t);
    assert r != [] ==> r[0] == t[0];
    r
  }

  /** The number of whitespace characters `strip()` removes from the front of `s`. */
  function Leading(s: string): nat
  {
    |s| - |TrimStart(s)|
  }

  /** `strip()` leaves the factor of `s` that starts after its leading
      whitespace and is followed only by whitespace. */
  lemma StripSlice(s: string)
    ensures Leading(s) + |Strip(s)| <= |s| && Strip(s) == s[Leading(s)..Leading(s) + |Strip(s)|]
    ensures forall k :: 0 <= k < Leading(s) ==> IsSpace(s[k])
    ensures forall k :: Leading(s) + |Strip(s)| <= k < |s| ==> IsSpace(s[k])
  {
    var t := TrimStart(s);
    var lead := Leading(s);
    var r := TrimEnd(t);
    assert t == s[lead..] by {
      TrimStartSuffix(s);
    }
    assert r == t[..|r|] by {
      TrimEndPrefix(t);
    }
    assert r == s[lead..lead + |r|];
    assert forall k :: 0 <= k < lead ==> IsSpace(s[k]) by {
      TrimStartSuffix(s);
    }
    assert forall k :: lead + |r| <= k < |s| ==> IsSpace(s[k]) by {
      TrimEndPrefix(t);
      forall k | lead + |r| <= k < |s| ensures IsSpace(s[k]) {
        assert s[k] == t[k - lead];
      }
    }
  }

  /** Stripping a string without whitespace at its ends leaves it unchanged. */
  lemma StripOfStripped(s: string)
    requires Stripped(s)
    ensures Strip(s) == s
  {
    assert TrimStart(s) == s;
  }

  /** `strip()` is idempotent: stripping an already stripped string changes nothing. */
  lemma StripIdempotent(s: string)
    ensures Strip(Strip(s)) == Strip(s)
  {
    StripOfStripped(Strip(s));
  }

  /** A character that occurs nowhere in `s` does not occur in `Strip(s)`. */
  lemma StripKeepsOut(s: string, c: char)
    requires c !in s
    ensures c !in Strip(s)
  {
    StripSlice(s);
  }

  /** A character that is not whitespace survives `strip()`. */
  lemma StripKeepsIn(s: string, c: char)
    requires c in s && !IsSpace(c)
    ensures c in Strip(s)
  {
    StripSlice(s);
    var q :| 0 <= q < |s| && s[q] == c;
    var r := Strip(s);
    var lead := Leading(s);
    assert lead <= q && q < lead + |r|;
    assert r[q - lead] == s[q];
  }

  /** `sep.join(parts)` in Python: the parts with `sep` between neighbours. */
  function Join(parts: seq<string>, sep: char): string
  {
    if |parts| == 0 then ""
    else if |parts| == 1 then parts[0]
    else parts[0] + [sep] + Join(parts[1..], sep)
  }
}
