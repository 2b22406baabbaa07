/**
 * String helpers shared by the frontend (JavaScript) and backend (Python) models.
 * Whitespace, letter case, digits and word characters are modelled over ASCII.
 */
module Strings {
  import opened Wrappers

  /** ASCII whitespace, as both `str.strip()` and `String.prototype.trim()` treat it. */
  predicate IsSpace(c: char) {
    c == ' ' || c == '\t' || c == '\n' || c == '\r' || c == '\U{000B}' || c == '\U{000C}'
  }

  predicate AllSpace(s: string) {
    forall i :: 0 <= i < |s| ==> IsSpace(s[i])
  }

  /** Drops leading whitespace. */
  function TrimStart(s: string): (r: string)
    ensures |r| <= |s| && r == s[|s| - |r|..]
    ensures r == [] || !IsSpace(r[0])
    ensures AllSpace(s[..|s| - |r|])
  {
    if |s| > 0 && IsSpace(s[0]) then TrimStart(s[1..]) else s
  }

  /** Leading whitespace ends at or before the first non-space character. */
  lemma {:induction false} TrimStartStopsAt(s: string, i: nat)
    requires i < |s| && !IsSpace(s[i])
    ensures |s| - |TrimStart(s)| <= i
  {
    if i > 0 && IsSpace(s[0]) {
      assert s[1..][i - 1] == s[i];
      TrimStartStopsAt(s[1..], i - 1);
      assert TrimStart(s) == TrimStart(s[1..]);
    } else {
      assert TrimStart(s) == s;
    }
  }

  /** Drops trailing whitespace. */
  function TrimEnd(s: string): (r: string)
    ensures |r| <= |s| && r == s[..|r|]
    ensures r == [] || !IsSpace(r[|r| - 1])
    ensures AllSpace(s[|r|..])
  {
    if |s| > 0 && IsSpace(s[|s| - 1]) then
      var r := TrimEnd(s[..|s| - 1]);
      assert s[|r|..] == s[..|s| - 1][|r|..] + [s[|s| - 1]];
      r
    else s
  }

  /** Drops whitespace at both ends (`strip()` / `trim()`). */
  function Trim(s: string): (r: string)
    ensures |r| <= |s|
    ensures r == [] || (!IsSpace(r[0]) && !IsSpace(r[|r| - 1]))
    ensures r == [] <==> AllSpace(s)
  {
    var t := TrimStart(s);
    var r := TrimEnd(t);
    assert r == [] ==> AllSpace(s) by {
      if r == [] {
        assert t[|r|..] == t;
        assert s[..|s| - |t|] == s;
      }
    }
    r
  }

  /** The trimmed string is a contiguous slice of the original. */
  lemma TrimIsSlice(s: string) returns (i: nat)
    ensures i + |Trim(s)| <= |s| && Trim(s) == s[i..i + |Trim(s)|]
  {
    var t := TrimStart(s);
    i := |s| - |t|;
    assert Trim(s) == TrimEnd(t);
    assert TrimEnd(t) == t[..|Trim(s)|];
  }

  /** Trimming keeps a string free of line boundaries. */
  lemma TrimNoLineBreak(s: string)
    requires NoLineBreak(s)
    ensures NoLineBreak(Trim(s))
  {
    var i := TrimIsSlice(s);
    forall k | 0 <= k < |Trim(s)| ensures !IsLineBreak(Trim(s)[k]) {
      assert Trim(s)[k] == s[i + k];
    }
  }

  /** A string whose two ends are not whitespace is its own trim. */
  lemma TrimOfTrimmed(s: string)
    requires s == [] || (!IsSpace(s[0]) && !IsSpace(s[|s| - 1]))
    ensures Trim(s) == s
  {
  }

  /** Trimming twice is trimming once. */
  lemma TrimTwice(s: string)
    ensures Trim(Trim(s)) == Trim(s)
  {
    TrimOfTrimmed(Trim(s));
  }

  /** ASCII lowercase, the part of `toLowerCase()` / `lower()` the model covers. */
  function LowerChar(c: char): (d: char)
  {
    if 'A' <= c <= 'Z' then (c as int + 32) as char else c
  }

  function Lower(s: string): (r: string)
    ensures |r| == |s|
    ensures forall i :: 0 <= i < |s| ==> r[i] == LowerChar(s[i])
  {
    if s == [] then [] else [LowerChar(s[0])] + Lower(s[1..])
  }

  /** Reference definition of case-insensitive equality, character by character. */
  predicate SameIgnoringCase(a: string, b: string) {
    |a| == |b| && forall i :: 0 <= i < |a| ==> LowerChar(a[i]) == LowerChar(b[i])
  }

  /** A word without capital letters. */
  predicate NoCapitals(w: string) {
    forall i :: 0 <= i < |w| ==> !('A' <= w[i] <= 'Z')
  }

  /** `Lower(s) == w` for a lowercase word `w` is exactly case-insensitive equality with `w`. */
  lemma LowerIsWord(s: string, w: string)
    requires NoCapitals(w)
    ensures Lower(s) == w <==> SameIgnoringCase(s, w)
  {
    if SameIgnoringCase(s, w) {
      forall i | 0 <= i < |s| ensures Lower(s)[i] == w[i] {
        assert LowerChar(w[i]) == w[i];
      }
    }
    if Lower(s) == w {
      forall i | 0 <= i < |s| ensures LowerChar(s[i]) == LowerChar(w[i]) {
        assert LowerChar(w[i]) == w[i];
      }
    }
  }

  /** Lowercasing leaves a word without capitals as it is. */
  lemma LowerOfLowercase(w: string)
    requires NoCapitals(w)
    ensures Lower(w) == w
  {
    LowerIsWord(w, w);
  }

  /** Lowercasing leaves no capital letter behind. */
  lemma LowerHasNoCapitals(s: string)
    ensures NoCapitals(Lower(s))
  {
  }

  /** `sub` occurs in `s` starting at index `i`. */
  predicate StartsAt(s: string, sub: string, i: nat) {
    i + |sub| <= |s| && s[i..i + |sub|] == sub
  }

  /** The first index at or after `from` where `sub` occurs (`str.find` / `indexOf`). */
  function IndexFrom(s: string, sub: string, from: nat): (r: Option<nat>)
    decreases |s| - from
    ensures r.Some? ==> from <= r.value && StartsAt(s, sub, r.value)
    ensures r.Some? ==> forall j :: from <= j < r.value ==> !StartsAt(s, sub, j)
    ensures r.None? ==> forall j :: from <= j ==> !StartsAt(s, sub, j)
  {
    if from + |sub| > |s| then None
    else if StartsAt(s, sub, from) then Some(from)
    else IndexFrom(s, sub, from + 1)
  }

  function IndexOf(s: string, sub: string): (r: Option<nat>)
    ensures r.Some? ==> StartsAt(s, sub, r.value) && forall j :: 0 <= j < r.value ==> !StartsAt(s, sub, j)
    ensures r.None? ==> forall j :: 0 <= j ==> !StartsAt(s, sub, j)
  {
    IndexFrom(s, sub, 0)
  }

  /** An occurrence inside a slice is an occurrence in the whole string. */
  lemma SliceOccurrence(s: string, sub: string, lo: nat, hi: nat, j: nat)
    requires lo <= hi <= |s| && StartsAt(s[lo..hi], sub, j)
    ensures StartsAt(s, sub, lo + j) && lo + j + |sub| <= hi
  {
    forall k | 0 <= k < |sub| ensures s[lo + j + k] == sub[k] {
      assert s[lo..hi][j..j + |sub|][k] == sub[k];
    }
    assert s[lo + j..lo + j + |sub|] == sub;
  }

  /** Trimming a slice of `s` gives a narrower slice of `s`. */
  lemma TrimWithin(s: string, b: nat, f: nat) returns (lo: nat, hi: nat)
    requires b <= f <= |s|
    ensures b <= lo <= hi <= f && Trim(s[b..f]) == s[lo..hi]
  {
    var i := TrimIsSlice(s[b..f]);
    lo, hi := SliceOfSlice(s, b, f, i, Trim(s[b..f]));
  }

  /** A slice of a slice is a slice of the whole. */
  lemma SliceOfSlice(s: string, b: nat, f: nat, x: nat, t: string) returns (lo: nat, hi: nat)
    requires b <= f <= |s| && x + |t| <= f - b && t == s[b..f][x..x + |t|]
    ensures b <= lo <= hi <= f && t == s[lo..hi]
  {
    lo, hi := b + x, b + x + |t|;
    forall k | 0 <= k < |t| ensures t[k] == s[b + x..b + x + |t|][k] {
      assert s[b..f][x + k] == s[b + x + k];
    }
  }

  /** If `sub` starts nowhere in `[b, f)`, the trimmed slice `s[b..f]` does not contain it. */
  lemma TrimmedGapLacks(s: string, sub: string, b: nat, f: nat)
    requires sub != [] && b <= f <= |s|
    requires forall j :: b <= j < f ==> !StartsAt(s, sub, j)
    ensures !Contains(Trim(s[b..f]), sub)
  {
    var lo, hi := TrimWithin(s, b, f);
    if Contains(s[lo..hi], sub) {
      var j := IndexOf(s[lo..hi], sub).value;
      SliceOccurrence(s, sub, lo, hi, j);
    }
  }

  /** Python's `sub in s` and JavaScript's `s.includes(sub)`. */
  predicate Contains(s: string, sub: string) {
    IndexOf(s, sub).Some?
  }

  /** The text before the first occurrence holds no occurrence. */
  lemma PrefixBeforeFirst(s: string, sub: string, p: nat)
    requires sub != [] && IndexOf(s, sub) == Some(p)
    ensures !Contains(s[..p], sub)
  {
    var head := s[..p];
    if Contains(head, sub) {
      var j := IndexOf(head, sub).value;
      assert StartsAt(head, sub, j) && j + |sub| <= p;
      assert head[j..j + |sub|] == s[j..j + |sub|];
      assert StartsAt(s, sub, j);
      assert false;
    }
  }

  predicate StartsWith(s: string, prefix: string) {
    prefix <= s
  }

  predicate EndsWith(s: string, suffix: string) {
    |suffix| <= |s| && s[|s| - |suffix|..] == suffix
  }

  /**
   * The line boundaries of Python's `str.splitlines()`: `\n`, `\r`, `\r\n` (one boundary),
   * vertical tab, form feed, the file/group/record separators, NEL and the two Unicode
   * line/paragraph separators.
   */
  predicate IsLineBreak(c: char) {
    c == '\n' || c == '\r' || c == '\U{000B}' || c == '\U{000C}' || c == '\U{001C}' ||
    c == '\U{001D}' || c == '\U{001E}' || c == '\U{0085}' || c == '\U{2028}' || c == '\U{2029}'
  }

  predicate NoLineBreak(s: string) {
    forall i :: 0 <= i < |s| ==> !IsLineBreak(s[i])
  }

  /** Index of the first line boundary in `s`, or `|s|`. */
  function LineEnd(s: string): (e: nat)
    ensures e <= |s| && (e < |s| ==> IsLineBreak(s[e]))
    ensures NoLineBreak(s[..e])
  {
    if s == [] || IsLineBreak(s[0]) then 0
    else
      var e := 1 + LineEnd(s[1..]);
      assert s[..e] == [s[0]] + s[1..][..e - 1];
      e
  }

  /** `str.splitlines()`: no trailing empty line, and `""` has no lines. */
  function SplitLines(s: string): (lines: seq<string>)
    decreases |s|
    ensures |lines| <= |s|
    ensures forall k :: 0 <= k < |lines| ==> NoLineBreak(lines[k])
  {
    if s == [] then []
    else
      var e := LineEnd(s);
      if e == |s| then [s]
      else
        var next := if s[e] == '\r' && e + 1 < |s| && s[e + 1] == '\n' then e + 2 else e + 1;
        [s[..e]] + SplitLines(s[next..])
  }

  /** One line boundary: a single break character, or `\r\n`. */
  predicate IsBoundary(b: string) {
    (|b| == 1 && IsLineBreak(b[0])) || b == "\r\n"
  }

  /**
   * The boundary `SplitLines` drops after each line: the break that ends it, or `""` after
   * a last line that runs to the end of the text.
   */
  function LineBreaks(s: string): (breaks: seq<string>)
    decreases |s|
    ensures |breaks| == |SplitLines(s)|
  {
    if s == [] then []
    else
      var e := LineEnd(s);
      if e == |s| then [""]
      else
        var next := if s[e] == '\r' && e + 1 < |s| && s[e + 1] == '\n' then e + 2 else e + 1;
        [s[e..next]] + LineBreaks(s[next..])
  }

  /** `lines[0] + breaks[0] + lines[1] + breaks[1] + ...`. */
  function Unlines(lines: seq<string>, breaks: seq<string>): string
    requires |lines| == |breaks|
  {
    if lines == [] then "" else lines[0] + breaks[0] + Unlines(lines[1..], breaks[1..])
  }

  /** Where the line ending at `e` leaves the text: after the break, or after `\r\n`. */
  lemma SplitLinesStep(s: string) returns (e: nat, next: nat)
    requires s != [] && LineEnd(s) < |s|
    ensures e == LineEnd(s) && e < next <= |s| && IsBoundary(s[e..next])
    ensures SplitLines(s) == [s[..e]] + SplitLines(s[next..])
    ensures LineBreaks(s) == [s[e..next]] + LineBreaks(s[next..])
  {
    e := LineEnd(s);
    next := if s[e] == '\r' && e + 1 < |s| && s[e + 1] == '\n' then e + 2 else e + 1;
    if next == e + 2 {
      assert s[e..next] == "\r\n";
    }
  }

  /** One more line and its boundary in front of a rebuilt rest. */
  lemma UnlinesStep(s: string, e: nat, next: nat, lines: seq<string>, breaks: seq<string>)
    requires e <= next <= |s| && |lines| == |breaks| && Unlines(lines, breaks) == s[next..]
    ensures Unlines([s[..e]] + lines, [s[e..next]] + breaks) == s
  {
    assert ([s[..e]] + lines)[1..] == lines && ([s[e..next]] + breaks)[1..] == breaks;
    assert s == s[..e] + s[e..next] + s[next..];
  }

  /** Splitting loses only the boundaries: each line followed by its boundary gives the text back. */
  lemma {:induction false} SplitLinesRebuild(s: string)
    ensures Unlines(SplitLines(s), LineBreaks(s)) == s
    decreases |s|
  {
    if s != [] {
      if LineEnd(s) < |s| {
        var e, next := SplitLinesStep(s);
        SplitLinesRebuild(s[next..]);
        UnlinesStep(s, e, next, SplitLines(s[next..]), LineBreaks(s[next..]));
      } else {
        assert s[..LineEnd(s)] == s;
      }
    }
  }

  /** Every boundary but the last is a real one; the last is one, or nothing. */
  predicate Boundaries(breaks: seq<string>) {
    (forall k :: 0 <= k < |breaks| - 1 ==> IsBoundary(breaks[k]))
    && (breaks != [] ==> IsBoundary(breaks[|breaks| - 1]) || breaks[|breaks| - 1] == "")
  }

  lemma BoundariesCons(b: string, breaks: seq<string>)
    requires IsBoundary(b) && Boundaries(breaks)
    ensures Boundaries([b] + breaks)
  {
    assert forall k :: 1 <= k < |breaks| + 1 ==> ([b] + breaks)[k] == breaks[k - 1];
  }

  /** The boundaries dropped are real ones, but for a last line that runs to the end of the text. */
  lemma {:induction false} LineBreaksAreBoundaries(s: string)
    ensures Boundaries(LineBreaks(s))
    decreases |s|
  {
    if s != [] && LineEnd(s) < |s| {
      var e, next := SplitLinesStep(s);
      LineBreaksAreBoundaries(s[next..]);
      BoundariesCons(s[e..next], LineBreaks(s[next..]));
    }
  }

  /** A non-empty text has at least one line. */
  lemma SplitLinesOfNonEmpty(s: string)
    ensures s != [] <==> SplitLines(s) != []
  {
  }

  /** A string without line boundaries is one line; `x + "\n" + y` splits after `x`. */
  lemma SplitLinesSingle(s: string)
    requires s != [] && NoLineBreak(s)
    ensures SplitLines(s) == [s]
  {
  }

  lemma SplitLinesCons(x: string, y: string)
    requires NoLineBreak(x)
    ensures SplitLines(x + "\n" + y) == [x] + SplitLines(y)
  {
    var s := x + ("\n" + y);
    assert s == x + "\n" + y;
    LineEndAfter(x, "\n" + y);
    assert LineEnd(s) == |x|;
    assert s[|x|] == '\n';
    assert s[..|x|] == x;
    assert s[|x| + 1..] == y;
  }

  lemma LineEndAfter(x: string, rest: string)
    requires NoLineBreak(x) && rest != [] && IsLineBreak(rest[0])
    ensures LineEnd(x + rest) == |x|
  {
    if x != [] {
      assert (x + rest)[1..] == x[1..] + rest;
      LineEndAfter(x[1..], rest);
    }
  }

  /** `sep.join(parts)`. */
  function Join(parts: seq<string>, sep: string): string
  {
    if parts == [] then ""
    else if |parts| == 1 then parts[0]
    else parts[0] + sep + Join(parts[1..], sep)
  }

  predicate IsDigit(c: char) {
    '0' <= c <= '9'
  }

  predicate AllDigits(s: string) {
    forall i :: 0 <= i < |s| ==> IsDigit(s[i])
  }

  /** The value of a decimal digit string (Python `int(...)` on ASCII digits). */
  function DigitsValue(s: string): (n: nat)
    requires AllDigits(s)
  {
    if s == [] then 0 else 10 * DigitsValue(s[..|s| - 1]) + (s[|s| - 1] as int - '0' as int)
  }

  /** The decimal rendering of a natural number (`str(n)`). */
  function NatToString(n: nat): (s: string)
    ensures s != [] && AllDigits(s)
  {
    if n < 10 then [('0' as int + n) as char]
    else NatToString(n / 10) + [('0' as int + n % 10) as char]
  }

  /** The decimal rendering of an integer, with a leading `-` when negative. */
  function IntToString(n: int): (s: string)
    ensures s != []
  {
    if n < 0 then "-" + NatToString(-n) else NatToString(n)
  }

  /** Reading back a rendered number gives the number. */
  lemma {:induction false} DigitsValueOfNatToString(n: nat)
    ensures DigitsValue(NatToString(n)) == n
  {
    if n >= 10 {
      var s := NatToString(n);
      assert s[..|s| - 1] == NatToString(n / 10);
      DigitsValueOfNatToString(n / 10);
    }
  }

  /** The inverse of `IntToString`: the rendering of a return code determines it. */
  function ParseInt(s: string): (r: Option<int>)
  {
    if s != [] && s[0] == '-' && s[1..] != [] && AllDigits(s[1..]) then
      var v: int := DigitsValue(s[1..]);
      Some(-v)
    else if s != [] && AllDigits(s) then Some(DigitsValue(s))
    else None
  }

  lemma IntToStringRoundTrip(n: int)
    ensures ParseInt(IntToString(n)) == Some(n)
  {
    if n < 0 {
      var s := IntToString(n);
      assert s[1..] == NatToString(-n);
      DigitsValueOfNatToString(-n);
    } else {
      DigitsValueOfNatToString(n);
    }
  }
}
