/** Substring search and the pieces of Rust's `str` API the service relies on. */
module Text {
  import opened Common

  /** `pat` occurs in `s` starting at index `i`. */
  predicate OccursAt(s: string, pat: string, i: nat) {
    i + |pat| <= |s| && s[i..i + |pat|] == pat
  }

  /** `s.contains(pat)`. */
  predicate Contains(s: string, pat: string) {
    exists i: nat | i <= |s| :: OccursAt(s, pat, i)
  }

  /** The first occurrence of `pat` in `s` at or after `from`. */
  function FindFrom(s: string, pat: string, from: nat): (r: Option<nat>)
    ensures r.Some? ==> from <= r.value && OccursAt(s, pat, r.value)
    ensures r.Some? ==> forall j: nat :: from <= j < r.value ==> !OccursAt(s, pat, j)
    ensures r.None? ==> forall j: nat :: from <= j ==> !OccursAt(s, pat, j)
    decreases |s| - from
  {
    if from + |pat| > |s| then None
    else if s[from..from + |pat|] == pat then Some(from)
    else FindFrom(s, pat, from + 1)
  }

  /** `s.find(pat)`: the index of the first occurrence of `pat`, if any. */
  function Find(s: string, pat: string): (r: Option<nat>)
    ensures r.Some? ==> OccursAt(s, pat, r.value)
    ensures r.Some? ==> forall j: nat :: j < r.value ==> !OccursAt(s, pat, j)
    ensures r.None? <==> !Contains(s, pat)
  {
    FindFrom(s, pat, 0)
  }

  /** `s.split(pat).next()`: everything before the first occurrence of `pat`. */
  function UpTo(s: string, pat: string): (r: string)
    ensures r <= s
    ensures !Contains(s, pat) ==> r == s
    ensures Contains(s, pat) ==> OccursAt(s, pat, |r|)
    ensures forall j: nat :: j < |r| ==> !OccursAt(s, pat, j)
  {
    match Find(s, pat)
    case None => s
    case Some(j) => s[..j]
  }

  /** Everything after the first occurrence of `pat`, if there is one. */
  function AfterFirst(s: string, pat: string): (r: Option<string>)
    ensures r.None? <==> !Contains(s, pat)
    ensures r.Some? ==> exists i: nat :: OccursAt(s, pat, i) && r.value == s[i + |pat|..]
  {
    match Find(s, pat)
    case None => None
    case Some(i) => Some(s[i + |pat|..])
  }

  /**
   * `s.split(pat).nth(1)` for a non-empty `pat`: the piece between the first
   * and the second occurrence of `pat` (or the end of `s`).
   */
  function SplitSecond(s: string, pat: string): (r: Option<string>)
    requires |pat| > 0
    ensures r.None? <==> !Contains(s, pat)
  {
    match AfterFirst(s, pat)
    case None => None
    case Some(rest) => Some(UpTo(rest, pat))
  }

  predicate IsAsciiDigit(c: char) {
    '0' <= c <= '9'
  }

  predicate AllDigits(s: string) {
    forall i :: 0 <= i < |s| ==> IsAsciiDigit(s[i])
  }

  /** `s.chars().take_while(|c| c.is_ascii_digit())`: the longest all-digit prefix. */
  function TakeDigits(s: string): (r: string)
    ensures r <= s
    ensures AllDigits(r)
    ensures |r| == |s| || !IsAsciiDigit(s[|r|])
  {
    if s == [] || !IsAsciiDigit(s[0]) then [] else [s[0]] + TakeDigits(s[1..])
  }

  /** The number a string of decimal digits denotes. */
  function DigitsValue(s: string): nat
    requires AllDigits(s)
  {
    if s == [] then 0
    else 10 * DigitsValue(s[..|s| - 1]) + (s[|s| - 1] as int - '0' as int)
  }

  const U32Max: nat := 0xFFFF_FFFF

  /**
   * `s.parse::<u32>()` on a string of decimal digits: the empty string and
   * values above `u32::MAX` are rejected.
   */
  function ParseU32(s: string): (r: Option<nat>)
    requires AllDigits(s)
    ensures r.Some? <==> s != [] && DigitsValue(s) <= U32Max
    ensures r.Some? ==> r.value == DigitsValue(s)
  {
    if s == [] || DigitsValue(s) > U32Max then None else Some(DigitsValue(s))
  }

  /**
   * When the second character of `pat` never occurs in `a` (and differs from
   * the first), the first occurrence of `pat` in `a + pat + b` is the one
   * after `a`.
   */
  lemma AfterFirstPastPrefix(a: string, pat: string, b: string)
    requires |pat| >= 2 && pat[0] != pat[1] && pat[1] !in a
    ensures AfterFirst(a + pat + b, pat) == Some(b)
  {
    var s := a + pat + b;
    assert OccursAt(s, pat, |a|);
    forall j: nat | j < |a| ensures !OccursAt(s, pat, j) {
      if j + 1 < |a| { assert s[j + 1] == a[j + 1]; } else { assert s[j + 1] == pat[0]; }
      assert s[j..j + |pat|][1] == s[j + 1];
    }
    assert s[|a| + |pat|..] == b;
  }

  /** A string lacking one of the characters of `pat` does not contain `pat`. */
  lemma MissingCharNoOccurrence(s: string, pat: string, k: nat)
    requires k < |pat| && pat[k] !in s
    ensures !Contains(s, pat)
  {
    forall i: nat | i <= |s| ensures !OccursAt(s, pat, i) {
      if i + |pat| <= |s| {
        assert s[i..i + |pat|][k] == s[i + k];
      }
    }
  }

  /** Cutting at the first `c` of a string whose only `c`s come after `seg` gives `seg`. */
  lemma UpToCharFree(seg: string, c: char, rest: string)
    requires c !in seg
    ensures UpTo(seg, [c]) == seg
    ensures UpTo(seg + [c] + rest, [c]) == seg
  {
    MissingCharNoOccurrence(seg, [c], 0);
    var s := seg + [c] + rest;
    assert OccursAt(s, [c], |seg|);
    forall j: nat | j < |seg| ensures !OccursAt(s, [c], j) {
      assert s[j] == seg[j];
      assert s[j..j + 1][0] == s[j];
    }
  }

  /** `s.split(c).next()` is the longest prefix of `s` free of `c`. */
  lemma UpToChar(s: string, c: char)
    ensures c !in UpTo(s, [c])
    ensures |UpTo(s, [c])| == |s| || s[|UpTo(s, [c])|] == c
  {
    var r := UpTo(s, [c]);
    forall j | 0 <= j < |r| ensures r[j] != c {
      assert !OccursAt(s, [c], j);
      assert s[j..j + 1][0] == s[j] == r[j];
    }
    if |r| < |s| {
      assert s[|r|..|r| + 1][0] == s[|r|];
    }
  }

  /** A string of digits is its own leading digit run. */
  lemma {:induction false} TakeDigitsOfDigits(s: string)
    requires AllDigits(s)
    ensures TakeDigits(s) == s
  {
    if s != [] {
      TakeDigitsOfDigits(s[1..]);
    }
  }
}
