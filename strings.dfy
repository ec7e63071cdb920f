/**
 * The parts of Go's `strings` package that the relay uses, on `seq<char>`
 * (one `char` per rune). `TrimSpace` uses the same white-space set as Go's
 * `unicode.IsSpace`; `ToLower` folds exactly the runes that Go lower-cases
 * onto ASCII and keeps every other rune.
 */
module Strings {

  /** The runes Go's `unicode.IsSpace` accepts. */
  predicate IsSpace(c: char) {
    var n := c as int;
    (0x09 <= n <= 0x0D) || n == 0x20 || n == 0x85 || n == 0xA0 || n == 0x1680
    || (0x2000 <= n <= 0x200A) || n == 0x2028 || n == 0x2029 || n == 0x202F
    || n == 0x205F || n == 0x3000
  }

  /** `s` has no white space at either end. */
  predicate IsTrimmed(s: string) {
    s == [] || (!IsSpace(s[0]) && !IsSpace(s[|s| - 1]))
  }

  /** Go's `strings.TrimLeftFunc(s, unicode.IsSpace)`: drop the leading white space. */
  function TrimLeftSpace(s: string): (r: string)
    ensures |r| <= |s|
    ensures r == [] || !IsSpace(r[0])
  {
    if s != [] && IsSpace(s[0]) then TrimLeftSpace(s[1..]) else s
  }

  /** What `TrimLeftSpace` keeps is a suffix, and what it drops is white space. */
  lemma {:induction false} TrimLeftSpaceSuffix(s: string)
    ensures TrimLeftSpace(s) == s[|s| - |TrimLeftSpace(s)|..]
    ensures forall k :: 0 <= k < |s| - |TrimLeftSpace(s)| ==> IsSpace(s[k])
  {
    if s != [] && IsSpace(s[0]) {
      var tail := s[1..];
      TrimLeftSpaceSuffix(tail);
      assert tail[|tail| - |TrimLeftSpace(tail)|..] == s[|s| - |TrimLeftSpace(s)|..];
      forall k | 1 <= k < |s| - |TrimLeftSpace(s)|
        ensures IsSpace(s[k])
      {
        assert s[k] == tail[k - 1];
      }
    }
  }

  /** Go's `strings.TrimRightFunc(s, unicode.IsSpace)`: drop the trailing white space. */
  function TrimRightSpace(s: string): (r: string)
    ensures |r| <= |s|
    ensures r == [] || !IsSpace(r[|r| - 1])
  {
    if s != [] && IsSpace(s[|s| - 1]) then TrimRightSpace(s[..|s| - 1]) else s
  }

  /** What `TrimRightSpace` keeps is a prefix, and what it drops is white space. */
  lemma {:induction false} TrimRightSpacePrefix(s: string)
    ensures TrimRightSpace(s) == s[..|TrimRightSpace(s)|]
    ensures forall k :: |TrimRightSpace(s)| <= k < |s| ==> IsSpace(s[k])
  {
    if s != [] && IsSpace(s[|s| - 1]) {
      var init := s[..|s| - 1];
      TrimRightSpacePrefix(init);
      assert init[..|TrimRightSpace(init)|] == s[..|TrimRightSpace(s)|];
      forall k | |TrimRightSpace(s)| <= k < |s| - 1
        ensures IsSpace(s[k])
      {
        assert s[k] == init[k];
      }
    }
  }

  /** Go's `strings.TrimSpace`: strip white space from both ends. */
  function TrimSpace(s: string): (r: string)
    ensures |r| <= |s| && IsTrimmed(r)
  {
    var left := TrimLeftSpace(s);
    TrimRightSpacePrefix(left);
    TrimRightSpace(left)
  }

  /** Where the part `TrimSpace` keeps begins: the length of the leading white space. */
  function TrimOffset(s: string): (a: nat)
    ensures a <= |s|
  {
    |s| - |TrimLeftSpace(s)|
  }

  /**
   * What `TrimSpace` keeps is the slice of `s` that starts at `TrimOffset(s)`,
   * and everything before and after that slice is white space.
   */
  lemma TrimSpaceSlice(s: string)
    ensures var a := TrimOffset(s);
      && a + |TrimSpace(s)| <= |s|
      && TrimSpace(s) == s[a..a + |TrimSpace(s)|]
      && (forall k :: 0 <= k < a ==> IsSpace(s[k]))
      && (forall k :: a + |TrimSpace(s)| <= k < |s| ==> IsSpace(s[k]))
  {
    var left := TrimLeftSpace(s);
    assert TrimSpace(s) == TrimRightSpace(left);
    TrimLeftSpaceSuffix(s);
    TrimRightSpacePrefix(left);
  }

  /** Trimming never cuts into a run that starts and ends with a non-space rune. */
  lemma TrimSpaceKeepsRun(s: string, lo: int, hi: int)
    requires 0 <= lo < hi <= |s| && !IsSpace(s[lo]) && !IsSpace(s[hi - 1])
    ensures TrimOffset(s) <= lo && hi <= TrimOffset(s) + |TrimSpace(s)|
  {
    TrimSpaceSlice(s);
  }

  /** Every rune of `s` is white space. */
  predicate AllSpace(s: string) {
    forall k :: 0 <= k < |s| ==> IsSpace(s[k])
  }

  /** A string is its trimmed form with white space on either side. */
  lemma TrimSpaceSplit(s: string) returns (before: string, after: string)
    ensures AllSpace(before) && AllSpace(after)
    ensures s == before + TrimSpace(s) + after
  {
    var t := TrimSpace(s);
    var a := TrimOffset(s);
    TrimSpaceSlice(s);
    before, after := s[..a], s[a + |t|..];
    assert s == s[..a] + s[a..a + |t|] + s[a + |t|..];
  }

  /** Leading white space is exactly what `TrimLeftSpace` removes. */
  lemma {:induction false} TrimLeftSpacePadded(w: string, x: string)
    requires AllSpace(w) && (x == [] || !IsSpace(x[0]))
    ensures TrimLeftSpace(w + x) == x
  {
    if w != [] {
      assert (w + x)[1..] == w[1..] + x;
      TrimLeftSpacePadded(w[1..], x);
    } else {
      assert w + x == x;
    }
  }

  /** Trailing white space is exactly what `TrimRightSpace` removes. */
  lemma {:induction false} TrimRightSpacePadded(x: string, w: string)
    requires AllSpace(w) && (x == [] || !IsSpace(x[|x| - 1]))
    ensures TrimRightSpace(x + w) == x
  {
    if w != [] {
      assert (x + w)[..|x + w| - 1] == x + w[..|w| - 1];
      TrimRightSpacePadded(x, w[..|w| - 1]);
    } else {
      assert x + w == x;
    }
  }

  /** The converse of `TrimSpaceSplit`: a trimmed string padded with white space trims back to itself. */
  lemma TrimSpacePadded(before: string, t: string, after: string)
    requires AllSpace(before) && AllSpace(after) && IsTrimmed(t)
    ensures TrimSpace(before + t + after) == t
  {
    ConcatAssoc(before, t, after, []);
    assert before + t + after == before + (t + after);
    if t == [] {
      assert before + t + after == before + after;
      assert AllSpace(before + after);
      TrimLeftSpacePadded(before + after, []);
      assert before + after + [] == before + after;
    } else {
      TrimLeftSpacePadded(before, t + after);
      TrimRightSpacePadded(t, after);
    }
  }

  /** `TrimSpacePadded` with nothing after the trimmed part. */
  lemma TrimSpaceLeftPadded(before: string, t: string)
    requires AllSpace(before) && IsTrimmed(t)
    ensures TrimSpace(before + t) == t
  {
    assert AllSpace([]);
    TrimSpacePadded(before, t, []);
    assert before + t + [] == before + t;
  }

  /** Regrouping a concatenation of four strings. */
  lemma ConcatAssoc(a: string, b: string, c: string, d: string)
    ensures a + b + c + d == a + (b + c + d)
  {
  }

  /** `TrimSpace` leaves a string alone exactly when it is already trimmed. */
  lemma TrimSpaceFixedPoint(s: string)
    ensures TrimSpace(s) == s <==> IsTrimmed(s)
  {
    if IsTrimmed(s) && s != [] {
      assert TrimLeftSpace(s) == s;
      assert TrimRightSpace(s) == s;
    }
  }

  /** Trimming twice is trimming once. */
  lemma TrimSpaceIdempotent(s: string)
    ensures TrimSpace(TrimSpace(s)) == TrimSpace(s)
  {
    TrimSpaceFixedPoint(TrimSpace(s));
  }

  /** Go's `strings.TrimRight(s, cutset)`: drop every trailing rune that occurs in `cutset`. */
  function TrimRight(s: string, cutset: string): (r: string)
    ensures |r| <= |s| && r == s[..|r|]
    ensures forall k :: |r| <= k < |s| ==> s[k] in cutset
    ensures r == [] || r[|r| - 1] !in cutset
  {
    if s != [] && s[|s| - 1] in cutset then TrimRight(s[..|s| - 1], cutset) else s
  }

  /**
   * Go's `unicode.ToLower` on one rune, as far as it can produce an ASCII
   * rune: ASCII capitals, the dotted capital I (U+0130, to `i`) and the
   * Kelvin sign (U+212A, to `k`). Every other rune is kept as it is.
   */
  function ToLowerChar(c: char): char {
    if 'A' <= c <= 'Z' then (c as int + 32) as char
    else if c == '\U{0130}' then 'i'
    else if c == '\U{212A}' then 'k'
    else c
  }

  /** Go's `strings.ToLower`, rune by rune with `ToLowerChar`: the same length. */
  function ToLower(s: string): (r: string)
    ensures |r| == |s|
    ensures forall i :: 0 <= i < |s| ==> r[i] == ToLowerChar(s[i])
  {
    seq(|s|, i requires 0 <= i < |s| => ToLowerChar(s[i]))
  }

  /** Lower-casing commutes with slicing. */
  lemma ToLowerSlice(s: string, i: nat, j: nat)
    requires i <= j <= |s|
    ensures ToLower(s[i..j]) == ToLower(s)[i..j]
  {
  }

  lemma ToLowerConcat(a: string, b: string)
    ensures ToLower(a + b) == ToLower(a) + ToLower(b)
  {
  }

  /** Go's `strings.HasPrefix`. */
  predicate HasPrefix(s: string, prefix: string) {
    |prefix| <= |s| && s[..|prefix|] == prefix
  }

  /** Go's `strings.HasSuffix`. */
  predicate HasSuffix(s: string, suffix: string) {
    |suffix| <= |s| && s[|s| - |suffix|..] == suffix
  }

  /** `sub` occurs in `s` starting at index `i`. */
  predicate OccursAt(s: string, sub: string, i: int) {
    0 <= i && i + |sub| <= |s| && s[i..i + |sub|] == sub
  }

  /** Go's `strings.Contains`: `sub` occurs somewhere in `s`. */
  predicate Contains(s: string, sub: string) {
    exists i | 0 <= i <= |s| :: OccursAt(s, sub, i)
  }

  /** No string contains a longer one. */
  lemma ContainsNothingLonger(s: string, sub: string)
    requires |s| < |sub|
    ensures !Contains(s, sub)
  {
  }

  /** An occurrence inside a slice is an occurrence in the whole string, shifted by the slice start. */
  lemma OccursInSlice(s: string, sub: string, lo: int, hi: int, i: int)
    requires 0 <= lo <= hi <= |s| && 0 <= i
    ensures OccursAt(s[lo..hi], sub, i) <==> OccursAt(s, sub, lo + i) && lo + i + |sub| <= hi
  {
    if lo + i + |sub| <= hi {
      var window := s[lo..hi][i..i + |sub|];
      forall k | 0 <= k < |sub|
        ensures window[k] == s[lo + i + k]
      {
      }
      assert window == s[lo + i..lo + i + |sub|];
    }
  }

  /** The slice equation of `TrimSpaceSlice` on its own. */
  lemma TrimSpaceIsSlice(s: string)
    ensures TrimOffset(s) + |TrimSpace(s)| <= |s|
    ensures TrimSpace(s) == s[TrimOffset(s)..TrimOffset(s) + |TrimSpace(s)|]
  {
    TrimSpaceSlice(s);
  }

  /** Occurrences in the lower-cased slice `s[a..b]` are occurrences in `ToLower(s)` within `a..b`. */
  lemma OccursInLowerSlice(s: string, a: int, b: int, sub: string, i: int)
    requires 0 <= a <= b <= |s| && 0 <= i
    ensures OccursAt(ToLower(s[a..b]), sub, i) <==> OccursAt(ToLower(s), sub, a + i) && a + i + |sub| <= b
  {
    ToLowerSlice(s, a, b);
    OccursInSlice(ToLower(s), sub, a, b, i);
  }

  /** Occurrences in the lower-cased suffix `s[n..]` are occurrences in `ToLower(s)` from `n` on. */
  lemma OccursInLowerSuffix(s: string, n: int, sub: string, j: int)
    requires 0 <= n <= |s| && 0 <= j
    ensures OccursAt(ToLower(s[n..]), sub, j) <==> OccursAt(ToLower(s), sub, n + j)
  {
    assert s[n..] == s[n..|s|];
    OccursInLowerSlice(s, n, |s|, sub, j);
  }

  /** Occurrences in the lower-cased trimmed string, located in the lower-cased original. */
  lemma OccursThroughTrim(s: string, sub: string, i: int)
    requires 0 <= i
    ensures OccursAt(ToLower(TrimSpace(s)), sub, i)
      <==> OccursAt(ToLower(s), sub, TrimOffset(s) + i) && i + |sub| <= |TrimSpace(s)|
  {
    TrimSpaceIsSlice(s);
    OccursInLowerSlice(s, TrimOffset(s), TrimOffset(s) + |TrimSpace(s)|, sub, i);
  }

  /** An occurrence whose first and last runes are not white space survives trimming. */
  lemma OccursInsideTrim(s: string, sub: string, j: int)
    requires sub != [] && OccursAt(ToLower(s), sub, j)
    requires !IsSpace(s[j]) && !IsSpace(s[j + |sub| - 1])
    ensures TrimOffset(s) <= j && OccursAt(ToLower(TrimSpace(s)), sub, j - TrimOffset(s))
  {
    TrimSpaceKeepsRun(s, j, j + |sub|);
    OccursThroughTrim(s, sub, j - TrimOffset(s));
  }

  /** The two halves of a concatenation, sliced back out. */
  lemma ConcatSlices(a: string, b: string)
    ensures (a + b)[..|a|] == a && (a + b)[|a|..] == b
  {
  }

  /** A one-rune suffix is a test of the last rune. */
  lemma LastRuneSuffix(s: string, c: char)
    ensures HasSuffix(s, [c]) <==> s != [] && s[|s| - 1] == c
  {
    if s != [] {
      assert s[|s| - 1..] == [s[|s| - 1]];
    }
  }
}
