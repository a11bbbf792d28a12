/**
  The few Python `str` operations the annotation scripts rely on:
  `find`, `rfind`, slicing with Python's index normalisation, and `strip`.
  Strings are sequences of code points.
 */
module PyText {

  /** The first index from `i` on holding `c`, or -1 when there is none. */
  function FindFrom(s: string, c: char, i: nat): (r: int)
    requires i <= |s|
    ensures r == -1 || (i <= r < |s| && s[r] == c)
    ensures forall k :: i <= k < (if r == -1 then |s| else r) ==> s[k] != c
    decreases |s| - i
  {
    if i == |s| then -1
    else if s[i] == c then i
    else FindFrom(s, c, i + 1)
  }

  /** The last index below `j` holding `c`, or -1 when there is none. */
  function FindBefore(s: string, c: char, j: nat): (r: int)
    requires j <= |s|
    ensures r == -1 || (0 <= r < j && s[r] == c)
    ensures forall k :: r < k < j ==> s[k] != c
  {
    if j == 0 then -1
    else if s[j - 1] == c then j - 1
    else FindBefore(s, c, j - 1)
  }

  /** `s.find(c)`: index of the first `c`, or -1 when there is none. */
  function Find(s: string, c: char): (r: int)
    ensures r == -1 <==> c !in s
    ensures r != -1 ==> 0 <= r < |s| && s[r] == c && c !in s[..r]
  {
    FindFrom(s, c, 0)
  }

  /** `s.rfind(c)`: index of the last `c`, or -1 when there is none. */
  function RFind(s: string, c: char): (r: int)
    ensures r == -1 <==> c !in s
    ensures r != -1 ==> 0 <= r < |s| && s[r] == c && c !in s[r + 1..]
  {
    FindBefore(s, c, |s|)
  }

  /** The first occurrence is the only index holding `c` with no `c` before it. */
  lemma FindUnique(s: string, c: char, k: int)
    requires 0 <= k < |s| && s[k] == c && c !in s[..k]
    ensures Find(s, c) == k
  {
  }

  /** The last occurrence is the only index holding `c` with no `c` after it. */
  lemma RFindUnique(s: string, c: char, k: int)
    requires 0 <= k < |s| && s[k] == c && c !in s[k + 1..]
    ensures RFind(s, c) == k
  {
  }

  /** Cutting off ends that hold no `c` shifts the positions `find` and
      `rfind` report by the length of the cut prefix. */
  lemma FindInner(s: string, lo: nat, hi: nat, c: char)
    requires lo <= hi <= |s|
    requires forall i :: 0 <= i < lo ==> s[i] != c
    requires forall i :: hi <= i < |s| ==> s[i] != c
    ensures c in s[lo..hi] <==> c in s
    ensures c in s ==> lo <= Find(s, c) && Find(s[lo..hi], c) == Find(s, c) - lo
    ensures c in s ==> RFind(s, c) < hi && RFind(s[lo..hi], c) == RFind(s, c) - lo
  {
    var t := s[lo..hi];
    if c in s {
      var k := Find(s, c);
      var k' := RFind(s, c);
      assert lo <= k < hi && lo <= k' < hi;
      assert t[k - lo] == c && t[k' - lo] == c;
      assert t[..k - lo] == s[lo..k];
      assert c !in s[lo..k] by {
        assert forall x :: x in s[lo..k] ==> x in s[..k];
      }
      FindUnique(t, c, k - lo);
      assert t[k' - lo + 1..] == s[k' + 1..hi];
      assert c !in s[k' + 1..hi] by {
        assert s[k' + 1..hi] == s[k' + 1..][..hi - k' - 1];
      }
      RFindUnique(t, c, k' - lo);
    } else {
      assert forall x :: x in t ==> x in s;
    }
  }

  /** CPython's adjustment of one slice bound: negative bounds count from the
      end, and the result is clamped into [0, len]. */
  function AdjustBound(i: int, len: nat): (r: nat)
    ensures r <= len
    ensures 0 <= i <= len ==> r == i
    ensures i > len ==> r == len
    ensures -(len as int) <= i < 0 ==> r == i + len
    ensures i < -(len as int) ==> r == 0
  {
    if i < 0 then (if i + len < 0 then 0 else i + len)
    else if i > len then len
    else i
  }

  /** `s[start:end]` with step 1. */
  function Slice(s: string, start: int, end: int): (r: string)
    ensures |r| <= |s|
    ensures 0 <= start <= end <= |s| ==> r == s[start..end]
    ensures 0 <= end <= start ==> r == []
  {
    var lo := AdjustBound(start, |s|);
    var hi := AdjustBound(end, |s|);
    if lo < hi then s[lo..hi] else []
  }

  /** `s[-1:end]` for a non-negative `end`: the start refers to the last
      character, so the slice is that character alone when `end` reaches the
      end of the string, and empty otherwise. */
  lemma SliceFromMinusOne(s: string, end: int)
    requires 0 <= end <= |s|
    ensures |s| > 0 && end == |s| ==> Slice(s, -1, end) == [s[|s| - 1]]
    ensures !(|s| > 0 && end == |s|) ==> Slice(s, -1, end) == []
  {
  }

  /** `str.isspace()` for one character: the characters Python's `strip()`
      removes when called without arguments. */
  predicate IsSpace(c: char)
  {
    || c == ' ' || c == '\t' || c == '\n' || c == '\r'
    || c == '\U{000B}' || c == '\U{000C}'
    || ('\U{001C}' <= c <= '\U{001F}')
    || c == '\U{0085}' || c == '\U{00A0}' || c == '\U{1680}'
    || ('\U{2000}' <= c <= '\U{200A}')
    || c == '\U{2028}' || c == '\U{2029}' || c == '\U{202F}'
    || c == '\U{205F}' || c == '\U{3000}'
  }

  /** The first index from `i` on that is not whitespace, or `|s|`. */
  function SkipSpaces(s: string, i: nat): (r: nat)
    requires i <= |s|
    ensures i <= r <= |s|
    decreases |s| - i
  {
    if i == |s| || !IsSpace(s[i]) then i else SkipSpaces(s, i + 1)
  }

  /** The end of `s[lo..j]` once its trailing whitespace is dropped. */
  function TrimSpaces(s: string, lo: nat, j: nat): (r: nat)
    requires lo <= j <= |s|
    ensures lo <= r <= j
  {
    if j == lo || !IsSpace(s[j - 1]) then j else TrimSpaces(s, lo, j - 1)
  }

  /** Skipping stops at the first non-space character. */
  lemma {:induction false} SkipSpacesStops(s: string, i: nat)
    requires i <= |s|
    ensures forall k :: i <= k < SkipSpaces(s, i) ==> IsSpace(s[k])
    ensures SkipSpaces(s, i) < |s| ==> !IsSpace(s[SkipSpaces(s, i)])
    decreases |s| - i
  {
    if i < |s| && IsSpace(s[i]) {
      SkipSpacesStops(s, i + 1);
    }
  }

  /** Trimming stops after the last non-space character. */
  lemma {:induction false} TrimSpacesStops(s: string, lo: nat, j: nat)
    requires lo <= j <= |s|
    ensures forall k :: TrimSpaces(s, lo, j) <= k < j ==> IsSpace(s[k])
    ensures TrimSpaces(s, lo, j) > lo ==> !IsSpace(s[TrimSpaces(s, lo, j) - 1])
  {
    if j > lo && IsSpace(s[j - 1]) {
      TrimSpacesStops(s, lo, j - 1);
    }
  }

  /** The bounds [lo, hi) that `s.strip()` keeps. */
  function StripBounds(s: string): (b: (nat, nat))
    ensures b.0 <= b.1 <= |s|
  {
    var lo := SkipSpaces(s, 0);
    (lo, TrimSpaces(s, lo, |s|))
  }

  /** Only whitespace lies outside the kept bounds, and the kept text
      starts and ends with a non-space character. */
  lemma StripBoundsSpaces(s: string)
    ensures forall i :: 0 <= i < StripBounds(s).0 ==> IsSpace(s[i])
    ensures forall i :: StripBounds(s).1 <= i < |s| ==> IsSpace(s[i])
    ensures StripBounds(s).0 < StripBounds(s).1 ==>
              !IsSpace(s[StripBounds(s).0]) && !IsSpace(s[StripBounds(s).1 - 1])
  {
    var lo := SkipSpaces(s, 0);
    SkipSpacesStops(s, 0);
    TrimSpacesStops(s, lo, |s|);
  }

  /** `s.strip()`: `s` without its leading and trailing whitespace. */
  function Strip(s: string): (r: string)
    ensures |r| <= |s|
    ensures r == s[StripBounds(s).0..StripBounds(s).1]
    ensures r != [] ==> !IsSpace(r[0]) && !IsSpace(r[|r| - 1])
    ensures (forall i :: 0 <= i < |s| ==> IsSpace(s[i])) <==> r == []
  {
    var b := StripBounds(s);
    StripBoundsSpaces(s);
    SkipSpacesStops(s, 0);
    s[b.0..b.1]
  }

  /** A stripped text neither starts nor ends with whitespace, and stripping
      it again changes nothing. */
  lemma StripIdempotent(s: string)
    ensures Strip(s) != [] ==> !IsSpace(Strip(s)[0]) && !IsSpace(Strip(s)[|Strip(s)| - 1])
    ensures Strip(Strip(s)) == Strip(s)
  {
    var t := Strip(s);
    StripBoundsSpaces(s);
    if t != [] {
      assert t[0] == s[StripBounds(s).0] && t[|t| - 1] == s[StripBounds(s).1 - 1];
    }
  }
}
