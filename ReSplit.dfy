/** `re.split(pattern, s, 2)` for the two one-character separator patterns the
    prompt constructors use. Every match of either pattern is a single `:`;
    they differ only in the lookarounds that decide which colons match. */
module ReSplit {
  import opened PyStrings

  /** The separator patterns of Perceptor/Prompt.py. */
  datatype Pattern =
    | AnyColon         // ':'                          (text prompts)
    | SchemeSafeColon  // '(?<!^http)(?<!s):|:(?!//)'  (image prompts)

  /** The lookbehind `(?<!^http)` fails at `i`: the string begins with `http`
      and `i` is the position right after it. */
  predicate HttpBefore(s: string, i: nat)
  {
    i == 4 && |s| >= 4 && s[0] == 'h' && s[1] == 't' && s[2] == 't' && s[3] == 'p'
  }

  /** The lookbehind `(?<!s)` fails at `i`: the character before `i` is `s`. */
  predicate LetterSBefore(s: string, i: nat)
    requires i <= |s|
  {
    i > 0 && s[i - 1] == 's'
  }

  /** The lookahead `(?!//)` fails after the colon at `i`: two slashes follow it. */
  predicate SlashesAfter(s: string, i: nat)
    requires i < |s|
  {
    i + 3 <= |s| && s[i + 1] == '/' && s[i + 2] == '/'
  }

  /** Whether pattern `p` matches at position `i` of `s`. The lookarounds read
      the whole original string, so whether a colon matches does not depend on
      which colons matched before it. */
  predicate IsDelim(p: Pattern, s: string, i: nat)
    requires i < |s|
    ensures IsDelim(p, s, i) ==> s[i] == ':'
    ensures p == AnyColon ==> (IsDelim(p, s, i) <==> s[i] == ':')
  {
    s[i] == ':' &&
    match p
    case AnyColon => true
    case SchemeSafeColon =>
      (!HttpBefore(s, i) && !LetterSBefore(s, i)) || !SlashesAfter(s, i)
  }

  /** The most splits the constructors ask `re.split` for. */
  const MaxSplit: nat := 2

  /** The regex engine's left-to-right scan: `start` is where the current part
      began, `i` the next position tried, `maxsplit` the splits still allowed.
      Once none are left, the rest of the string is the last part. */
  function SplitScan(p: Pattern, s: string, start: nat, i: nat, maxsplit: nat): (parts: seq<string>)
    requires start <= i <= |s|
    ensures 1 <= |parts| <= maxsplit + 1
    decreases |s| - i
  {
    if i == |s| || maxsplit == 0 then [s[start..]]
    else if IsDelim(p, s, i) then [s[start..i]] + SplitScan(p, s, i + 1, i + 1, maxsplit - 1)
    else SplitScan(p, s, start, i + 1, maxsplit)
  }

  /** `re.split(p, s, 2)` (Perceptor/Prompt.py lines 54 and 67). */
  function Split(p: Pattern, s: string): (parts: seq<string>)
    ensures 1 <= |parts| <= MaxSplit + 1
  {
    SplitScan(p, s, 0, 0, MaxSplit)
  }

  // ---------------------------------------------------------------------------
  // Reference definition: cut the string at the first two of all match positions.

  /** Every position at or after `i` where `p` matches, in increasing order. */
  function DelimsFrom(p: Pattern, s: string, i: nat): (d: seq<nat>)
    requires i <= |s|
    decreases |s| - i
  {
    if i == |s| then []
    else if IsDelim(p, s, i) then [i] + DelimsFrom(p, s, i + 1)
    else DelimsFrom(p, s, i + 1)
  }

  /** Every position `DelimsFrom` lists is a match at or after `i`. */
  lemma {:induction false} DelimsFromSound(p: Pattern, s: string, i: nat)
    requires i <= |s|
    ensures forall k :: 0 <= k < |DelimsFrom(p, s, i)| ==>
      i <= DelimsFrom(p, s, i)[k] < |s| && IsDelim(p, s, DelimsFrom(p, s, i)[k])
    decreases |s| - i
  {
    if i < |s| {
      DelimsFromSound(p, s, i + 1);
      var rest := DelimsFrom(p, s, i + 1);
      var d := DelimsFrom(p, s, i);
      if IsDelim(p, s, i) {
        assert d == [i] + rest;
        forall k | 0 <= k < |d| ensures i <= d[k] < |s| && IsDelim(p, s, d[k]) {
          if k > 0 { assert d[k] == rest[k - 1]; }
        }
      }
    }
  }

  /** Every match at or after `i` is listed by `DelimsFrom`. */
  lemma {:induction false} DelimsFromComplete(p: Pattern, s: string, i: nat)
    requires i <= |s|
    ensures forall j :: i <= j < |s| && IsDelim(p, s, j) ==> j in DelimsFrom(p, s, i)
    decreases |s| - i
  {
    if i < |s| {
      DelimsFromComplete(p, s, i + 1);
      var rest := DelimsFrom(p, s, i + 1);
      var d := DelimsFrom(p, s, i);
      if IsDelim(p, s, i) {
        assert d == [i] + rest;
        forall j | i <= j < |s| && IsDelim(p, s, j) ensures j in d {
          if j > i {
            var k :| 0 <= k < |rest| && rest[k] == j;
            assert d[k + 1] == j;
          }
        }
      } else {
        assert d == rest;
        forall j | i <= j < |s| && IsDelim(p, s, j) ensures j in d {
          assert j != i;
        }
      }
    }
  }

  /** `DelimsFrom` lists its positions in strictly increasing order. */
  lemma {:induction false} DelimsFromSorted(p: Pattern, s: string, i: nat)
    requires i <= |s|
    ensures forall k, m :: 0 <= k < m < |DelimsFrom(p, s, i)| ==> DelimsFrom(p, s, i)[k] < DelimsFrom(p, s, i)[m]
    decreases |s| - i
  {
    if i < |s| {
      DelimsFromSorted(p, s, i + 1);
      DelimsFromSound(p, s, i + 1);
      var rest := DelimsFrom(p, s, i + 1);
      var d := DelimsFrom(p, s, i);
      if IsDelim(p, s, i) {
        assert d == [i] + rest;
        forall k, m | 0 <= k < m < |d| ensures d[k] < d[m] {
          assert d[m] == rest[m - 1];
          if k > 0 { assert d[k] == rest[k - 1]; }
        }
      }
    }
  }

  /** Every position of `s` where `p` matches, in increasing order. */
  function Delims(p: Pattern, s: string): seq<nat>
  {
    DelimsFrom(p, s, 0)
  }

  /** The first `n` elements of `d`, or all of them if there are fewer. */
  function Take(d: seq<nat>, n: nat): (r: seq<nat>)
  {
    if |d| <= n then d else d[..n]
  }

  /** Cut positions for `s[start..]`: increasing, inside the string, not before `start`. */
  predicate CutsIn(s: string, start: nat, cuts: seq<nat>)
  {
    (forall k :: 0 <= k < |cuts| ==> start <= cuts[k] < |s|)
    && (forall k, m :: 0 <= k < m < |cuts| ==> cuts[k] < cuts[m])
  }

  /** `s[start..]` cut at the given positions, the character at each cut dropped. */
  function Cut(s: string, start: nat, cuts: seq<nat>): (parts: seq<string>)
    requires start <= |s| && CutsIn(s, start, cuts)
    ensures |parts| == |cuts| + 1
    decreases |cuts|
  {
    if cuts == [] then [s[start..]]
    else [s[start..cuts[0]]] + Cut(s, cuts[0] + 1, cuts[1..])
  }

  /** Any prefix of the match positions from `i` on is a valid set of cuts. */
  lemma TakeIsCuts(p: Pattern, s: string, start: nat, i: nat, n: nat)
    requires start <= i <= |s|
    ensures CutsIn(s, start, Take(DelimsFrom(p, s, i), n))
  {
    var d := DelimsFrom(p, s, i);
    var t := Take(d, n);
    DelimsFromSound(p, s, i);
    DelimsFromSorted(p, s, i);
    assert forall k :: 0 <= k < |t| ==> t[k] == d[k];
  }

  /** Taking from a sequence with a known first element. */
  lemma TakeCons(x: nat, d: seq<nat>, n: nat)
    requires n > 0
    ensures Take([x] + d, n) == [x] + Take(d, n - 1)
  {
    if |d| > n - 1 {
      assert ([x] + d)[..n] == [x] + d[..n - 1];
    }
  }

  /** Cutting at a first position `c` gives the part before it, then the cuts of the rest. */
  lemma CutCons(s: string, start: nat, c: nat, rest: seq<nat>)
    requires start <= |s| && CutsIn(s, start, [c] + rest)
    ensures start <= c < |s| && CutsIn(s, c + 1, rest)
    ensures Cut(s, start, [c] + rest) == [s[start..c]] + Cut(s, c + 1, rest)
  {
    var cuts := [c] + rest;
    assert cuts[0] == c && cuts[1..] == rest;
    forall k | 0 <= k < |rest| ensures c + 1 <= rest[k] < |s| {
      assert cuts[0] < cuts[k + 1];
    }
    forall k, m | 0 <= k < m < |rest| ensures rest[k] < rest[m] {
      assert cuts[k + 1] < cuts[m + 1];
    }
  }

  /** The scan splits exactly at the first `maxsplit` match positions from `i` on. */
  lemma {:induction false} ScanCutsAtFirstMatches(p: Pattern, s: string, start: nat, i: nat, maxsplit: nat)
    requires start <= i <= |s|
    ensures CutsIn(s, start, Take(DelimsFrom(p, s, i), maxsplit))
    ensures SplitScan(p, s, start, i, maxsplit) == Cut(s, start, Take(DelimsFrom(p, s, i), maxsplit))
    decreases |s| - i, 1
  {
    TakeIsCuts(p, s, start, i, maxsplit);
    if i == |s| || maxsplit == 0 {
    } else if IsDelim(p, s, i) {
      ScanStepAtMatch(p, s, start, i, maxsplit);
      CutCons(s, start, i, Take(DelimsFrom(p, s, i + 1), maxsplit - 1));
    } else {
      ScanCutsAtFirstMatches(p, s, start, i + 1, maxsplit);
      assert DelimsFrom(p, s, i) == DelimsFrom(p, s, i + 1);
    }
  }

  /** The inductive step of `ScanCutsAtFirstMatches` at a match position `i`:
      the scan emits `s[start..i]` and goes on after the colon, which is what
      cutting at `i` and then at the later matches does. */
  lemma {:induction false} ScanStepAtMatch(p: Pattern, s: string, start: nat, i: nat, maxsplit: nat)
    requires start <= i < |s| && maxsplit > 0 && IsDelim(p, s, i)
    ensures var rest := Take(DelimsFrom(p, s, i + 1), maxsplit - 1);
      && Take(DelimsFrom(p, s, i), maxsplit) == [i] + rest
      && CutsIn(s, i + 1, rest)
      && SplitScan(p, s, start, i, maxsplit) == [s[start..i]] + Cut(s, i + 1, rest)
    decreases |s| - i, 0
  {
    var later := DelimsFrom(p, s, i + 1);
    assert DelimsFrom(p, s, i) == [i] + later;
    TakeCons(i, later, maxsplit);
    ScanCutsAtFirstMatches(p, s, i + 1, i + 1, maxsplit - 1);
  }

  /** `re.split(p, s, 2)` cuts `s` at its first two match positions (or at all of
      them if there are fewer) and nowhere else. */
  lemma SplitAtFirstTwo(p: Pattern, s: string)
    ensures CutsIn(s, 0, Take(Delims(p, s), MaxSplit))
    ensures Split(p, s) == Cut(s, 0, Take(Delims(p, s), MaxSplit))
  {
    ScanCutsAtFirstMatches(p, s, 0, 0, MaxSplit);
  }

  /** The three shapes of the split, spelled out: no match gives the whole
      string; one match gives the text before and after it; two or more matches
      cut at the first two and leave every later colon in the third part. */
  lemma SplitShapes(p: Pattern, s: string)
    ensures var d := Delims(p, s);
      && CutsIn(s, 0, d)
      && (|d| == 0 ==> Split(p, s) == [s])
      && (|d| == 1 ==> Split(p, s) == [s[..d[0]], s[d[0] + 1..]])
      && (|d| >= 2 ==> Split(p, s) == [s[..d[0]], s[d[0] + 1..d[1]], s[d[1] + 1..]])
  {
    var d := Delims(p, s);
    DelimsFromSound(p, s, 0);
    DelimsFromSorted(p, s, 0);
    assert d == DelimsFrom(p, s, 0);
    assert CutsIn(s, 0, d);
    SplitAtFirstTwo(p, s);
    var t := Take(d, MaxSplit);
    if |d| == 1 {
      assert t == [d[0]] && t[1..] == [];
    } else if |d| >= 2 {
      assert t == [d[0], d[1]] && t[1..] == [d[1]] && t[1..][1..] == [];
      assert CutsIn(s, d[0] + 1, [d[1]]);
      assert Cut(s, d[0] + 1, [d[1]]) == [s[d[0] + 1..d[1]], s[d[1] + 1..]];
    }
  }

  /** Splitting gives one to three parts: one more than the number of matches,
      but never more than three. */
  lemma SplitCount(p: Pattern, s: string)
    ensures |Split(p, s)| == if |Delims(p, s)| < MaxSplit then |Delims(p, s)| + 1 else MaxSplit + 1
  {
    SplitAtFirstTwo(p, s);
  }

  /** Joining the cut parts with `:` restores the string when every cut is a colon. */
  lemma {:induction false} JoinCut(s: string, start: nat, cuts: seq<nat>)
    requires start <= |s| && CutsIn(s, start, cuts)
    requires forall k :: 0 <= k < |cuts| ==> s[cuts[k]] == ':'
    ensures Join(Cut(s, start, cuts), ':') == s[start..]
    decreases |cuts|
  {
    if cuts != [] {
      var c := cuts[0];
      assert CutsIn(s, c + 1, cuts[1..]) by {
        forall k | 0 <= k < |cuts[1..]| ensures c + 1 <= cuts[1..][k] {
          assert cuts[1..][k] == cuts[k + 1];
        }
      }
      JoinCut(s, c + 1, cuts[1..]);
      var parts := Cut(s, start, cuts);
      assert parts[1..] == Cut(s, c + 1, cuts[1..]);
      assert |parts| >= 2;
      calc {
        Join(parts, ':');
        s[start..c] + [':'] + s[c + 1..];
        { assert s[c] == ':'; }
        s[start..];
      }
    }
  }

  /** Round trip: since each pattern matches only a `:`, joining the parts
      with `:` gives back the original descriptor exactly. */
  lemma SplitJoinRoundTrip(p: Pattern, s: string)
    ensures Join(Split(p, s), ':') == s
  {
    SplitAtFirstTwo(p, s);
    DelimsFromSound(p, s, 0);
    var d := Delims(p, s);
    assert d == DelimsFrom(p, s, 0);
    var t := Take(d, MaxSplit);
    forall k | 0 <= k < |t| ensures s[t[k]] == ':' {
      assert t[k] == d[k] && IsDelim(p, s, d[k]);
    }
    JoinCut(s, 0, t);
  }

  /** Every match either is one of the (at most two) cut positions or lies in
      the third part: no part before the last, and no last part of fewer than
      three, holds a match. */
  lemma SplitUsesFirstMatches(p: Pattern, s: string)
    ensures var d := Delims(p, s);
      forall j :: 0 <= j < |s| && IsDelim(p, s, j) ==>
        j in Take(d, MaxSplit) || (|d| > MaxSplit && j > d[1])
  {
    var d := Delims(p, s);
    DelimsFromComplete(p, s, 0);
    DelimsFromSorted(p, s, 0);
    assert d == DelimsFrom(p, s, 0);
    forall j | 0 <= j < |s| && IsDelim(p, s, j)
      ensures j in Take(d, MaxSplit) || (|d| > MaxSplit && j > d[1])
    {
      var m :| 0 <= m < |d| && d[m] == j;
      if m >= MaxSplit {
        assert d[1] < d[m];
      } else {
        assert Take(d, MaxSplit)[m] == j;
      }
    }
  }

  /** A slice of positions that hold no `:` is a string without `:`. */
  lemma ColonFreeSlice(s: string, lo: nat, hi: nat)
    requires lo <= hi <= |s|
    requires forall j :: lo <= j < hi ==> s[j] != ':'
    ensures ':' !in s[lo..hi]
  {
  }

  /** Text prompts: neither the text part nor the weight part ever holds a `:`,
      and a last part of fewer than three holds none either. */
  lemma ColonSplitPartsColonFree(s: string)
    ensures var parts := Split(AnyColon, s);
      && (forall k :: 0 <= k < |parts| - 1 ==> ':' !in parts[k])
      && (|parts| < 3 ==> ':' !in parts[|parts| - 1])
  {
    var d := Delims(AnyColon, s);
    SplitShapes(AnyColon, s);
    SplitUsesFirstMatches(AnyColon, s);
    var t := Take(d, MaxSplit);
    forall j | 0 <= j < |s| && s[j] == ':' ensures j in t || (|d| > MaxSplit && j > d[1]) {
      assert IsDelim(AnyColon, s, j);
    }
    if |d| == 0 {
      ColonFreeSlice(s, 0, |s|);
      assert s[0..|s|] == s;
    } else if |d| == 1 {
      assert t == [d[0]];
      ColonFreeSlice(s, 0, d[0]);
      ColonFreeSlice(s, d[0] + 1, |s|);
    } else {
      assert t == [d[0], d[1]];
      ColonFreeSlice(s, 0, d[0]);
      ColonFreeSlice(s, d[0] + 1, d[1]);
    }
  }

  /** After the second cut nothing more is split: when there are three or more
      matches, the third part keeps every later colon. */
  lemma LaterColonsStayInThirdPart(p: Pattern, s: string)
    requires |Delims(p, s)| > MaxSplit
    ensures |Split(p, s)| == 3 && ':' in Split(p, s)[2]
  {
    var d := Delims(p, s);
    DelimsFromSound(p, s, 0);
    DelimsFromSorted(p, s, 0);
    assert d == DelimsFrom(p, s, 0);
    SplitShapes(p, s);
    assert d[1] < d[2] && IsDelim(p, s, d[2]);
    assert Split(p, s)[2][d[2] - d[1] - 1] == s[d[2]];
  }

  // ---------------------------------------------------------------------------
  // The image pattern and URL schemes.

  /** The colon of a leading `http://` is never a separator. */
  lemma HttpSchemeColonKept(s: string)
    requires |s| >= 7 && s[..7] == "http://"
    ensures s[4] == ':' && !IsDelim(SchemeSafeColon, s, 4)
  {
    assert s[..4] == s[..7][..4];
    assert s[5..7] == s[..7][5..7];
  }

  /** A colon preceded by `s` and followed by `//` (as in `https://`) is never
      a separator, wherever it stands. */
  lemma SecureSchemeColonKept(s: string, i: nat)
    requires 0 < i && i + 3 <= |s| && s[i - 1..i + 3] == "s://"
    ensures s[i] == ':' && !IsDelim(SchemeSafeColon, s, i)
  {
    assert s[i - 1] == s[i - 1..i + 3][0];
    assert s[i] == s[i - 1..i + 3][1];
    assert s[i + 1..i + 3] == s[i - 1..i + 3][2..4];
  }

  /** Skipping positions where `p` does not match leaves the scan's result unchanged. */
  lemma {:induction false} ScanSkips(p: Pattern, s: string, start: nat, i: nat, k: nat, maxsplit: nat)
    requires start <= i <= k <= |s|
    requires forall j :: i <= j < k ==> !IsDelim(p, s, j)
    ensures SplitScan(p, s, start, i, maxsplit) == SplitScan(p, s, start, k, maxsplit)
    decreases k - i
  {
    if i < k && maxsplit > 0 {
      ScanSkips(p, s, start, i + 1, k, maxsplit);
    }
  }

  /** No match from `i` on means no match positions from `i` on. */
  lemma {:induction false} NoMatchNoDelims(p: Pattern, s: string, i: nat)
    requires i <= |s|
    requires forall j :: i <= j < |s| ==> !IsDelim(p, s, j)
    ensures DelimsFrom(p, s, i) == []
    decreases |s| - i
  {
    if i < |s| {
      NoMatchNoDelims(p, s, i + 1);
    }
  }

  /** A string without `:` is not split by either pattern. */
  lemma NoColonNoSplit(p: Pattern, s: string)
    requires ':' !in s
    ensures Delims(p, s) == []
    ensures Split(p, s) == [s]
  {
    forall j | 0 <= j < |s| ensures !IsDelim(p, s, j) {
      assert s[j] in s;
    }
    NoMatchNoDelims(p, s, 0);
    ScanSkips(p, s, 0, 0, |s|, MaxSplit);
    assert s[0..] == s;
  }

  /** Whether `t` begins with `//`. */
  predicate StartsWithSlashes(t: string)
  {
    |t| >= 2 && t[0] == '/' && t[1] == '/'
  }

  /** `t + ":" + rest` starts with `//` only if `t` does. */
  lemma ColonCutsSlashes(t: string, rest: string)
    requires !StartsWithSlashes(t)
    ensures !StartsWithSlashes(t + ":" + rest)
  {
    var x := t + ":" + rest;
    if |t| >= 2 {
      assert x[..2] == t[..2];
    } else {
      assert x[|t|] == ':';
    }
  }

  /** Every colon not followed by `//` is a separator of image prompts. */
  lemma UnslashedColonSeparates(s: string, n: nat)
    requires n < |s| && s[n] == ':' && !StartsWithSlashes(s[n + 1..])
    ensures IsDelim(SchemeSafeColon, s, n)
  {
    if n + 3 <= |s| {
      assert s[n + 1..][..2] == s[n + 1..n + 3];
    }
  }

  /** No position of a colon-free stretch of `s` matches either pattern. */
  lemma ColonFreeNoMatch(p: Pattern, s: string, lo: nat, hi: nat)
    requires lo <= hi <= |s| && ':' !in s[lo..hi]
    ensures forall j :: lo <= j < hi ==> !IsDelim(p, s, j)
  {
    forall j | lo <= j < hi ensures !IsDelim(p, s, j) {
      assert s[j] == s[lo..hi][j - lo];
    }
  }

  /** Inside a leading `http://…` or `https://…` address with no further
      colon, no position is a separator of image prompts. */
  lemma SchemeUrlNoMatch(scheme: string, rest: string, tail: string)
    requires scheme == "http" || scheme == "https"
    requires ':' !in rest
    ensures var u := scheme + "://" + rest;
      forall j :: 0 <= j < |u| ==> !IsDelim(SchemeSafeColon, u + tail, j)
  {
    var u := scheme + "://" + rest;
    var s := u + tail;
    var c := |scheme|;
    assert u[..c] == scheme && u[c..c + 3] == "://" && u[c + 3..] == rest;
    assert s[..|u|] == u;
    assert s[..c] == scheme && s[c..c + 3] == "://" && s[c + 3..|u|] == rest;
    ColonFreeNoMatch(SchemeSafeColon, s, 0, c);
    ColonFreeNoMatch(SchemeSafeColon, s, c + 1, c + 3);
    ColonFreeNoMatch(SchemeSafeColon, s, c + 3, |u|);
    assert SlashesAfter(s, c);
    if scheme == "http" {
      assert s[..4] == "http";
    } else {
      assert s[c - 1] == 's';
    }
  }

  /** A string whose first two matches are at `n` and `m` splits into the
      text before `n`, the text between, and the text after `m`. */
  lemma SplitAtTwoMatches(p: Pattern, s: string, n: nat, m: nat)
    requires n < m < |s| && IsDelim(p, s, n) && IsDelim(p, s, m)
    requires forall j :: 0 <= j < n ==> !IsDelim(p, s, j)
    requires forall j :: n < j < m ==> !IsDelim(p, s, j)
    ensures Split(p, s) == [s[..n], s[n + 1..m], s[m + 1..]]
  {
    ScanSkips(p, s, 0, 0, n, MaxSplit);
    ScanSkips(p, s, n + 1, n + 1, m, MaxSplit - 1);
    calc {
      SplitScan(p, s, 0, 0, MaxSplit);
      SplitScan(p, s, 0, n, 2);
      [s[0..n]] + SplitScan(p, s, n + 1, n + 1, 1);
      [s[0..n]] + SplitScan(p, s, n + 1, m, 1);
      [s[0..n]] + ([s[n + 1..m]] + SplitScan(p, s, m + 1, m + 1, 0));
    }
  }

  /** An image label `http://…` or `https://…` with no further colon is kept
      whole: the address is the first part, and the two colons after it
      separate the weight and the stop (neither of which starts with `//`). */
  lemma SchemeUrlKept(scheme: string, rest: string, weight: string, stop: string)
    requires scheme == "http" || scheme == "https"
    requires ':' !in rest && ':' !in weight
    requires !StartsWithSlashes(weight) && !StartsWithSlashes(stop)
    ensures Split(SchemeSafeColon, scheme + "://" + rest + ":" + weight + ":" + stop)
         == [scheme + "://" + rest, weight, stop]
  {
    var u := scheme + "://" + rest;
    var s := u + ":" + weight + ":" + stop;
    var n := |u|;
    var m := n + 1 + |weight|;
    assert s == u + (":" + weight + ":" + stop);
    assert s[..n] == u && s[n] == ':' && s[n + 1..] == weight + ":" + stop;
    assert s[n + 1..m] == weight && s[m] == ':' && s[m + 1..] == stop;
    SchemeUrlNoMatch(scheme, rest, ":" + weight + ":" + stop);
    ColonCutsSlashes(weight, stop);
    UnslashedColonSeparates(s, n);
    ColonFreeNoMatch(SchemeSafeColon, s, n + 1, m);
    UnslashedColonSeparates(s, m);
    SplitAtTwoMatches(SchemeSafeColon, s, n, m);
  }
}
