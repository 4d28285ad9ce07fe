/**
 The few pieces of Python's `str` behaviour the scripts rely on: whitespace
 classification, `strip()`, `split()` without arguments, and `s * n`.
 Only the ASCII range is modelled.
 */
module PyStr {

  /** The ASCII characters for which `str.isspace()` holds: tab, line feed,
      vertical tab, form feed, carriage return, the four separators 0x1C-0x1F,
      and space. */
  predicate IsSpace(c: char) {
    var n := c as int;
    n == 32 || 9 <= n <= 13 || 28 <= n <= 31
  }

  predicate AllSpace(s: string) {
    forall k :: 0 <= k < |s| ==> IsSpace(s[k])
  }

  /** A non-empty string without whitespace: what `split()` yields. */
  predicate IsWord(w: string) {
    |w| > 0 && forall k :: 0 <= k < |w| ==> !IsSpace(w[k])
  }

  // ---------------------------------------------------------------------------
  // strip()
  // ---------------------------------------------------------------------------

  /** The first index at or after `i` that does not hold whitespace, or the
      end of `s`. */
  function SkipSpaces(s: string, i: nat): (k: nat)
    requires i <= |s|
    ensures i <= k <= |s|
    decreases |s| - i
  {
    if i < |s| && IsSpace(s[i]) then SkipSpaces(s, i + 1) else i
  }

  /** The index just after the last non-whitespace character before `j`, or
      zero. */
  function BackSpaces(s: string, j: nat): (k: nat)
    requires j <= |s|
    ensures k <= j
  {
    if j > 0 && IsSpace(s[j - 1]) then BackSpaces(s, j - 1) else j
  }

  lemma {:induction false} SkipSpacesRun(s: string, i: nat)
    requires i <= |s|
    ensures var k := SkipSpaces(s, i);
            (forall j :: i <= j < k ==> IsSpace(s[j])) && (k == |s| || !IsSpace(s[k]))
    decreases |s| - i
  {
    if i < |s| && IsSpace(s[i]) {
      SkipSpacesRun(s, i + 1);
    }
  }

  lemma {:induction false} BackSpacesRun(s: string, j: nat)
    requires j <= |s|
    ensures var k := BackSpaces(s, j);
            (forall m :: k <= m < j ==> IsSpace(s[m])) && (k == 0 || !IsSpace(s[k - 1]))
  {
    if j > 0 && IsSpace(s[j - 1]) {
      BackSpacesRun(s, j - 1);
    }
  }

  /** Number of whitespace characters `s` starts with. */
  function LeadingSpaces(s: string): (k: nat)
    ensures k <= |s|
  {
    SkipSpaces(s, 0)
  }

  /** Number of whitespace characters `s` ends with. */
  function TrailingSpaces(s: string): (k: nat)
    ensures k <= |s|
  {
    |s| - BackSpaces(s, |s|)
  }

  /** The leading run is whitespace and ends at a non-space (or at the end). */
  lemma Leading(s: string)
    ensures var k := LeadingSpaces(s);
            AllSpace(s[..k]) && (k == |s| || !IsSpace(s[k]))
  {
    SkipSpacesRun(s, 0);
    var k := LeadingSpaces(s);
    forall j | 0 <= j < k ensures IsSpace(s[..k][j]) {
      assert s[..k][j] == s[j];
    }
  }

  /** The trailing run is whitespace and follows a non-space (or the start). */
  lemma Trailing(s: string)
    ensures var k := TrailingSpaces(s);
            AllSpace(s[|s| - k..]) && (k == |s| || !IsSpace(s[|s| - k - 1]))
  {
    BackSpacesRun(s, |s|);
    var k := TrailingSpaces(s);
    var t := s[|s| - k..];
    forall j | 0 <= j < k ensures IsSpace(t[j]) {
      assert t[j] == s[|s| - k + j];
    }
  }

  /** The leading run is the only prefix that is all whitespace and is not
      followed by whitespace. */
  lemma LeadingUnique(s: string, k: nat)
    requires k <= |s|
    requires AllSpace(s[..k])
    requires k == |s| || !IsSpace(s[k])
    ensures k == LeadingSpaces(s)
  {
    Leading(s);
    var l := LeadingSpaces(s);
    forall j | 0 <= j < l ensures IsSpace(s[j]) {
      assert s[..l][j] == s[j];
    }
    forall j | 0 <= j < k ensures IsSpace(s[j]) {
      assert s[..k][j] == s[j];
    }
  }

  lemma TrailingUnique(s: string, k: nat)
    requires k <= |s|
    requires AllSpace(s[|s| - k..])
    requires k == |s| || !IsSpace(s[|s| - k - 1])
    ensures k == TrailingSpaces(s)
  {
    Trailing(s);
    var t := TrailingSpaces(s);
    forall j | |s| - t <= j < |s| ensures IsSpace(s[j]) {
      assert s[|s| - t..][j - (|s| - t)] == s[j];
    }
    forall j | |s| - k <= j < |s| ensures IsSpace(s[j]) {
      assert s[|s| - k..][j - (|s| - k)] == s[j];
    }
  }

  /** `s.lstrip()`. */
  function LStrip(s: string): string {
    s[LeadingSpaces(s)..]
  }

  /** `s.rstrip()`. */
  function RStrip(s: string): string {
    s[..|s| - TrailingSpaces(s)]
  }

  /** `s.strip()`. */
  function Strip(s: string): string {
    RStrip(LStrip(s))
  }

  /** `strip()` returns the contiguous slice of its input that starts after
      the leading whitespace and leaves only whitespace behind it. */
  lemma StripSlice(s: string)
    ensures var i := LeadingSpaces(s);
            var r := Strip(s);
            && i + |r| <= |s|
            && r == s[i..i + |r|]
            && AllSpace(s[..i]) && AllSpace(s[i + |r|..])
            && (r == [] || (!IsSpace(r[0]) && !IsSpace(r[|r| - 1])))
  {
    var i := LeadingSpaces(s);
    var l := s[i..];
    var t := TrailingSpaces(l);
    var r := l[..|l| - t];
    assert r == Strip(s);
    assert r == s[i..i + |r|];
    assert AllSpace(s[..i]) by {
      Leading(s);
    }
    assert AllSpace(s[i + |r|..]) by {
      Trailing(l);
      assert s[i + |r|..] == l[|l| - t..];
    }
    if r != [] {
      assert !IsSpace(r[0]) by {
        Leading(s);
        assert r[0] == s[i];
      }
      assert !IsSpace(r[|r| - 1]) by {
        Trailing(l);
        assert r[|r| - 1] == l[|l| - t - 1];
      }
    }
  }

  /** A string with no whitespace at either end is its own `strip()`. */
  lemma StripOfTrimmed(s: string)
    requires s == [] || (!IsSpace(s[0]) && !IsSpace(s[|s| - 1]))
    ensures Strip(s) == s
  {
    assert AllSpace(s[..0]);
    LeadingUnique(s, 0);
    assert LStrip(s) == s;
    assert AllSpace(s[|s|..]);
    TrailingUnique(s, 0);
  }

  /** Stripping twice is stripping once. */
  lemma StripIdempotent(s: string)
    ensures Strip(Strip(s)) == Strip(s)
  {
    StripSlice(s);
    StripOfTrimmed(Strip(s));
  }

  /** Leading and trailing whitespace never affects `strip()`. */
  lemma StripIgnoresPadding(a: string, s: string, b: string)
    requires AllSpace(a) && AllSpace(b)
    ensures Strip(a + s + b) == Strip(s)
  {
    assert a + s + b == a + (s + b);
    LStripSpacePrefix(a, s + b);
    Leading(s);
    var ls := LeadingSpaces(s);
    if ls == |s| {
      // `s` is all whitespace, so everything strips to nothing.
      assert s[..ls] == s;
      LStripSpacePrefix(s, b);
      assert b[..|b|] == b;
      LeadingUnique(b, |b|);
      assert LStrip(s) == [];
    } else {
      LStripAppend(s, b);
      RStripSpaceSuffix(LStrip(s), b);
    }
  }

  /** Whitespace in front of a string is dropped by `lstrip()`. */
  lemma LStripSpacePrefix(a: string, s: string)
    requires AllSpace(a)
    ensures LStrip(a + s) == LStrip(s)
  {
    Leading(s);
    var k := LeadingSpaces(s);
    assert (a + s)[..|a| + k] == a + s[..k];
    if k < |s| {
      assert (a + s)[|a| + k] == s[k];
    }
    LeadingUnique(a + s, |a| + k);
    assert (a + s)[|a| + k..] == s[k..];
  }

  /** Whitespace behind a string is dropped by `rstrip()`. */
  lemma RStripSpaceSuffix(s: string, b: string)
    requires AllSpace(b)
    ensures RStrip(s + b) == RStrip(s)
  {
    Trailing(s);
    var k := TrailingSpaces(s);
    var x := s + b;
    assert x[|x| - (k + |b|)..] == s[|s| - k..] + b;
    if k < |s| {
      assert x[|x| - (k + |b|) - 1] == s[|s| - k - 1];
    }
    TrailingUnique(x, k + |b|);
    assert x[..|x| - (k + |b|)] == s[..|s| - k];
  }

  /** When `s` holds a non-space, `lstrip()` stops inside it and anything
      appended survives. */
  lemma LStripAppend(s: string, b: string)
    requires LeadingSpaces(s) < |s|
    ensures LStrip(s + b) == LStrip(s) + b
  {
    var k := LeadingSpaces(s);
    var x := s + b;
    assert LeadingSpaces(x) == k by {
      Leading(s);
      assert x[..k] == s[..k];
      assert x[k] == s[k];
      LeadingUnique(x, k);
    }
    assert x[k..] == s[k..] + b;
  }

  // ---------------------------------------------------------------------------
  // s * n
  // ---------------------------------------------------------------------------

  /** Python's `g * n`: `g` repeated `n` times, the empty string when `n <= 0`.
      The result starts with `g` and repeats with period `|g|`. */
  function Repeat(g: string, n: int): (r: string)
    ensures |r| == if n <= 0 then 0 else |g| * n
    ensures n > 0 ==> r[..|g|] == g
    ensures forall i :: |g| <= i < |r| ==> r[i] == r[i - |g|]
    decreases n
  {
    if n <= 0 then []
    else
      var rest := Repeat(g, n - 1);
      var r := g + rest;
      assert forall i :: |g| <= i < |r| ==> r[i] == rest[i - |g|];
      r
  }

  // ---------------------------------------------------------------------------
  // split()
  // ---------------------------------------------------------------------------

  /** Length of the leading run of non-whitespace characters. */
  function WordLen(s: string): (n: nat)
    ensures n <= |s|
    ensures forall k :: 0 <= k < n ==> !IsSpace(s[k])
    ensures n == |s| || IsSpace(s[n])
  {
    if |s| == 0 || IsSpace(s[0]) then 0 else 1 + WordLen(s[1..])
  }

  /** `s.split()`: the maximal runs of non-whitespace characters, in order. */
  function SplitWords(s: string): (ws: seq<string>)
    ensures forall w :: w in ws ==> IsWord(w)
    decreases |s|
  {
    if |s| == 0 then []
    else if IsSpace(s[0]) then SplitWords(s[1..])
    else
      var n := WordLen(s);
      [s[..n]] + SplitWords(s[n..])
  }

  /** The words concatenated, each preceded by one space: the shape the
      argument strings in the scripts are built in (`args += " " + word`). */
  function Spaced(ws: seq<string>): string
  {
    if ws == [] then [] else " " + ws[0] + Spaced(ws[1..])
  }

  /** All words of all strings, in order. */
  function FlatSplit(ss: seq<string>): seq<string>
  {
    if ss == [] then [] else SplitWords(ss[0]) + FlatSplit(ss[1..])
  }

  function Flatten(ss: seq<seq<string>>): seq<string>
  {
    if ss == [] then [] else ss[0] + Flatten(ss[1..])
  }

  lemma {:induction false} FlatSplitAppend(a: seq<string>, b: seq<string>)
    ensures FlatSplit(a + b) == FlatSplit(a) + FlatSplit(b)
    decreases |a|
  {
    if a == [] {
      assert a + b == b;
    } else {
      assert (a + b)[0] == a[0];
      assert (a + b)[1..] == a[1..] + b;
      FlatSplitAppend(a[1..], b);
    }
  }

  lemma FlattenAppend(a: seq<seq<string>>, b: seq<seq<string>>)
    ensures Flatten(a + b) == Flatten(a) + Flatten(b)
  {
    if a != [] {
      assert (a + b)[1..] == a[1..] + b;
      FlattenAppend(a[1..], b);
    } else {
      assert a + b == b;
    }
  }

  lemma SpacedCons(w: string, ws: seq<string>)
    ensures Spaced([w] + ws) == " " + w + Spaced(ws)
  {
    assert ([w] + ws)[1..] == ws;
  }

  lemma {:induction false} SpacedAppend(a: seq<string>, b: seq<string>)
    ensures Spaced(a + b) == Spaced(a) + Spaced(b)
    decreases |a|
  {
    if a == [] {
      assert a + b == b;
    } else {
      assert (a + b)[0] == a[0];
      assert (a + b)[1..] == a[1..] + b;
      SpacedAppend(a[1..], b);
    }
  }

  /** A word splits into itself. */
  lemma SplitOfWord(w: string)
    requires IsWord(w)
    ensures SplitWords(w) == [w]
  {
    assert WordLen(w) == |w| by { WordLenOfWord(w); }
    assert w[..|w|] == w;
    assert w[|w|..] == [];
  }

  lemma {:induction false} WordLenOfWord(w: string)
    requires forall k :: 0 <= k < |w| ==> !IsSpace(w[k])
    ensures WordLen(w) == |w|
    decreases |w|
  {
    if |w| > 0 {
      WordLenOfWord(w[1..]);
    }
  }

  lemma {:induction false} WordLenConcat(a: string, b: string)
    requires HasSpace(a)
    ensures WordLen(a + b) == WordLen(a)
    decreases |a|
  {
    if IsSpace(a[0]) {
    } else {
      var k :| 0 <= k < |a| && IsSpace(a[k]);
      assert a[1..][k - 1] == a[k];
      assert (a + b)[1..] == a[1..] + b;
      WordLenConcat(a[1..], b);
    }
  }

  lemma {:induction false} WordLenBoundary(a: string, b: string)
    requires forall k :: 0 <= k < |a| ==> !IsSpace(a[k])
    requires b == [] || IsSpace(b[0])
    ensures WordLen(a + b) == |a|
    decreases |a|
  {
    if |a| == 0 {
      assert a + b == b;
    } else {
      assert (a + b)[1..] == a[1..] + b;
      WordLenBoundary(a[1..], b);
    }
  }

  predicate HasSpace(a: string) {
    exists k :: 0 <= k < |a| && IsSpace(a[k])
  }

  /** `split()` distributes over a concatenation whose seam is whitespace:
      no word can straddle it. */
  lemma {:induction false} SplitConcat(a: string, b: string)
    requires a == [] || b == [] || IsSpace(a[|a| - 1]) || IsSpace(b[0])
    ensures SplitWords(a + b) == SplitWords(a) + SplitWords(b)
    decreases |a|
  {
    if |a| == 0 {
      assert a + b == b;
    } else if |b| == 0 {
      assert a + b == a;
    } else if IsSpace(a[0]) {
      assert (a + b)[1..] == a[1..] + b;
      SplitConcat(a[1..], b);
    } else if HasSpace(a) {
      SplitConcatInnerSpace(a, b);
    } else {
      SplitConcatWordSeam(a, b);
    }
  }

  lemma {:induction false} SplitConcatInnerSpace(a: string, b: string)
    requires |a| > 0 && !IsSpace(a[0]) && HasSpace(a)
    requires b == [] || IsSpace(a[|a| - 1]) || IsSpace(b[0])
    ensures SplitWords(a + b) == SplitWords(a) + SplitWords(b)
    decreases |a|, 0
  {
    WordLenConcat(a, b);
    var n := WordLen(a);
    assert 0 < n < |a|;
    assert (a + b)[..n] == a[..n];
    assert (a + b)[n..] == a[n..] + b;
    assert SplitWords(a + b) == [a[..n]] + SplitWords(a[n..] + b);
    SplitConcat(a[n..], b);
  }

  lemma SplitConcatWordSeam(a: string, b: string)
    requires |a| > 0 && !IsSpace(a[0]) && !HasSpace(a)
    requires |b| > 0 && IsSpace(b[0])
    ensures SplitWords(a + b) == SplitWords(a) + SplitWords(b)
  {
    assert forall k :: 0 <= k < |a| ==> !IsSpace(a[k]);
    WordLenBoundary(a, b);
    WordLenOfWord(a);
    var ab := a + b;
    assert ab[0] == a[0];
    assert ab[..|a|] == a;
    assert ab[|a|..] == b;
    assert SplitWords(ab) == [a] + SplitWords(b);
    assert a[..|a|] == a;
    assert a[|a|..] == [];
    assert SplitWords(a) == [a];
  }

  /** Splitting a spaced-out list re-splits each entry on its own. */
  lemma {:induction false} SplitSpaced(ws: seq<string>)
    ensures SplitWords(Spaced(ws)) == FlatSplit(ws)
    decreases |ws|
  {
    if ws != [] {
      var tail := Spaced(ws[1..]);
      assert Spaced(ws) == " " + (ws[0] + tail);
      SplitSpacedTail(ws[1..]);
      if ws[0] == [] {
        assert ws[0] + tail == tail;
      } else {
        SplitConcat(ws[0], tail);
      }
      SplitSpaced(ws[1..]);
    }
  }

  lemma SplitSpacedTail(ws: seq<string>)
    ensures Spaced(ws) == [] || IsSpace(Spaced(ws)[0])
  {
  }

  /** When every entry is already a word, splitting gives back the list. */
  lemma {:induction false} SplitSpacedWords(ws: seq<string>)
    requires forall w :: w in ws ==> IsWord(w)
    ensures SplitWords(Spaced(ws)) == ws
    decreases |ws|
  {
    SplitSpaced(ws);
    FlatSplitWords(ws);
  }

  lemma {:induction false} FlatSplitWords(ws: seq<string>)
    requires forall w :: w in ws ==> IsWord(w)
    ensures FlatSplit(ws) == ws
    decreases |ws|
  {
    if ws != [] {
      SplitOfWord(ws[0]);
      assert forall w :: w in ws[1..] ==> w in ws;
      FlatSplitWords(ws[1..]);
    }
  }
}
