/**
  Python's `str.strip()` with no argument: remove leading and trailing characters
  for which `str.isspace()` holds. Strings are sequences of Unicode code points,
  so `len` is the sequence length.
 */
module PyStr {

  /** `str.isspace()` on one code point: Unicode White_Space characters plus the
      information separators U+001C..U+001F, as CPython classifies them. */
  predicate IsSpace(c: char)
  {
    || ('\U{0009}' <= c <= '\U{000D}')
    || ('\U{001C}' <= c <= '\U{0020}')
    || c == '\U{0085}'
    || c == '\U{00A0}'
    || c == '\U{1680}'
    || ('\U{2000}' <= c <= '\U{200A}')
    || c == '\U{2028}'
    || c == '\U{2029}'
    || c == '\U{202F}'
    || c == '\U{205F}'
    || c == '\U{3000}'
  }

  /** Among ASCII characters `strip()` removes exactly space, the five controls
      tab..carriage return and the four separators U+001C..U+001F; beyond ASCII it
      removes, for instance, the no-break space and the ideographic space, but not
      the zero-width space or the byte-order mark. */
  lemma IsSpaceExamples(c: char)
    ensures c < '\U{0080}' ==> (IsSpace(c) <==> c in " \t\n\r\U{000B}\U{000C}\U{001C}\U{001D}\U{001E}\U{001F}")
    ensures IsSpace('\U{00A0}') && IsSpace('\U{3000}') && IsSpace('\U{2028}')
    ensures !IsSpace('\U{200B}') && !IsSpace('\U{FEFF}') && !IsSpace('\U{180E}')
  {
  }

  /** Every character of `s[lo..hi]` is whitespace. */
  predicate SpaceBetween(s: string, lo: int, hi: int)
    requires 0 <= lo <= hi <= |s|
  {
    forall i :: lo <= i < hi ==> IsSpace(s[i])
  }

  predicate AllSpace(s: string)
  {
    SpaceBetween(s, 0, |s|)
  }

  /** Neither end of `s` is a whitespace character. */
  predicate Tight(s: string)
  {
    s == [] || (!IsSpace(s[0]) && !IsSpace(s[|s| - 1]))
  }

  /** Reference definition of stripping: `r` is a slice `s[a..b]` such that only
      whitespace lies outside it and, unless it is empty, it starts and ends with
      a character that is not whitespace. */
  ghost predicate IsStripOf(s: string, r: string)
  {
    exists a, b :: 0 <= a <= b <= |s| && StrippedAt(s, r, a, b)
  }

  ghost predicate StrippedAt(s: string, r: string, a: int, b: int)
    requires 0 <= a <= b <= |s|
  {
    && r == s[a..b]
    && SpaceBetween(s, 0, a)
    && SpaceBetween(s, b, |s|)
    && (a < b ==> !IsSpace(s[a]) && !IsSpace(s[b - 1]))
  }

  /** The left scan of `strip()`: the first index at or after `i` that holds a
      non-whitespace character, or `|s|` when there is none. */
  function ContentStart(s: string, i: nat): (a: nat)
    requires i <= |s|
    ensures i <= a <= |s|
    ensures SpaceBetween(s, i, a)
    ensures a < |s| ==> !IsSpace(s[a])
    decreases |s| - i
  {
    if i < |s| && IsSpace(s[i]) then ContentStart(s, i + 1) else i
  }

  /** The right scan of `strip()`, which stops at `lo`: the index just past the last
      non-whitespace character of `s[lo..j]`, or `lo` when there is none. */
  function ContentEnd(s: string, lo: nat, j: nat): (b: nat)
    requires lo <= j <= |s|
    ensures lo <= b <= j
    ensures SpaceBetween(s, b, j)
    ensures lo < b ==> !IsSpace(s[b - 1])
    decreases j
  {
    if lo < j && IsSpace(s[j - 1]) then ContentEnd(s, lo, j - 1) else j
  }

  /** `s.strip()`. */
  function Strip(s: string): (r: string)
    ensures |r| <= |s|
    ensures IsStripOf(s, r)
    ensures Tight(r)
  {
    var a := ContentStart(s, 0);
    var b := ContentEnd(s, a, |s|);
    assert a < |s| ==> a < b;
    assert StrippedAt(s, s[a..b], a, b);
    s[a..b]
  }

  /** Index-wise reading of one solution of the reference definition. */
  lemma StrippedIndexes(s: string, r: string, a: int, b: int)
    requires 0 <= a <= b <= |s| && StrippedAt(s, r, a, b)
    ensures r == [] <==> a == b
    ensures r == [] <==> AllSpace(s)
  {
    if a < b {
      assert !IsSpace(s[a]);
    }
  }

  /** The reference definition has exactly one solution per input: at most one
      string is the stripped form of `s`. */
  lemma StripUnique(s: string, r1: string, r2: string)
    requires IsStripOf(s, r1) && IsStripOf(s, r2)
    ensures r1 == r2
  {
    var a1, b1 :| 0 <= a1 <= b1 <= |s| && StrippedAt(s, r1, a1, b1);
    var a2, b2 :| 0 <= a2 <= b2 <= |s| && StrippedAt(s, r2, a2, b2);
    StrippedIndexes(s, r1, a1, b1);
    StrippedIndexes(s, r2, a2, b2);
    if a1 < b1 && a2 < b2 {
      assert a1 == a2 by {
        assert !IsSpace(s[a1]) && !IsSpace(s[a2]);
      }
      assert b1 == b2 by {
        assert !IsSpace(s[b1 - 1]) && !IsSpace(s[b2 - 1]);
      }
    }
  }

  /** `strip()` yields the empty string exactly when the input is all whitespace
      (including the empty input). */
  lemma StripEmptyIffAllSpace(s: string)
    ensures Strip(s) == [] <==> AllSpace(s)
  {
    var r := Strip(s);
    var a, b :| 0 <= a <= b <= |s| && StrippedAt(s, r, a, b);
    StrippedIndexes(s, r, a, b);
  }

  /** A string with no whitespace at either end is left unchanged. */
  lemma StripTight(s: string)
    requires Tight(s)
    ensures Strip(s) == s
  {
    assert StrippedAt(s, s, 0, |s|);
    StripUnique(s, s, Strip(s));
  }

  /** `s.strip().strip() == s.strip()`. */
  lemma StripIdempotent(s: string)
    ensures Strip(Strip(s)) == Strip(s)
  {
    StripTight(Strip(s));
  }

  /** Whitespace added around a string does not change its stripped form. */
  lemma StripIgnoresPadding(p: string, s: string, q: string)
    requires AllSpace(p) && AllSpace(q)
    ensures Strip(p + s + q) == Strip(s)
  {
    var r := Strip(s);
    var a, b :| 0 <= a <= b <= |s| && StrippedAt(s, r, a, b);
    var t := p + s + q;
    PaddedIndexes(p, s, q);
    assert t[|p| + a..|p| + b] == s[a..b];
    assert StrippedAt(t, r, |p| + a, |p| + b);
    StripUnique(t, r, Strip(t));
  }

  /** Where the characters of `p + s + q` come from. */
  lemma PaddedIndexes(p: string, s: string, q: string)
    ensures forall i :: 0 <= i < |p| ==> (p + s + q)[i] == p[i]
    ensures forall i :: 0 <= i < |s| ==> (p + s + q)[|p| + i] == s[i]
    ensures forall i :: 0 <= i < |q| ==> (p + s + q)[|p| + |s| + i] == q[i]
  {
  }
}
