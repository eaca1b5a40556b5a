/** Small building blocks shared by the models: an optional value, the
    character classes JavaScript uses, decimal digit strings, `String.trim`
    and `parseInt(_, 10)`. */
module Common {

  /** A value that may be absent (JavaScript `undefined`). */
  datatype Option<+T> = None | Some(value: T)

  /** The result of `parseInt`: a number or `NaN`. */
  datatype ParsedInt = Int(n: int) | NaN

  function Max(a: int, b: int): int
  {
    if a < b then b else a
  }

  /** `\d` in a JavaScript regular expression: ASCII digits only. */
  predicate IsDigit(c: char)
  {
    '0' <= c <= '9'
  }

  predicate AllDigits(s: string)
  {
    forall i :: 0 <= i < |s| ==> IsDigit(s[i])
  }

  function DigitValue(c: char): nat
    requires IsDigit(c)
  {
    c as int - '0' as int
  }

  /** The decimal value of a digit string, most significant digit first. */
  function DigitsValue(s: string): (n: nat)
    requires AllDigits(s)
    ensures n < Pow10(|s|)
  {
    if |s| == 0 then 0 else DigitsValue(s[..|s| - 1]) * 10 + DigitValue(s[|s| - 1])
  }

  function Pow10(k: nat): (p: nat)
    ensures p >= 1
  {
    if k == 0 then 1 else 10 * Pow10(k - 1)
  }

  /** The digit character of a value 0..9. */
  function DigitChar(d: nat): (c: char)
    requires d < 10
    ensures IsDigit(c) && DigitValue(c) == d
  {
    ('0' as int + d) as char
  }

  /** `n` written with exactly `width` decimal digits, padded with leading zeros. */
  function PadDigits(n: nat, width: nat): (s: string)
    requires n < Pow10(width)
    ensures |s| == width && AllDigits(s) && DigitsValue(s) == n
  {
    if width == 0 then ""
    else
      var s := PadDigits(n / 10, width - 1) + [DigitChar(n % 10)];
      assert s[..|s| - 1] == PadDigits(n / 10, width - 1);
      s
  }

  /** The length of the longest run of digits in `s` starting at index `i`. */
  function DigitRun(s: string, i: nat): (k: nat)
    requires i <= |s|
    ensures i + k <= |s|
    ensures AllDigits(s[i..i + k])
    ensures i + k == |s| || !IsDigit(s[i + k])
    decreases |s| - i
  {
    if i < |s| && IsDigit(s[i]) then
      var k := 1 + DigitRun(s, i + 1);
      assert s[i..i + k] == [s[i]] + s[i + 1..i + k];
      k
    else 0
  }

  /** The longest run of digits in `s` starting at index `i`, as a greedy
      `\d+` or `\d{1,n}` group sees it before checking its length. */
  function DigitGroup(s: string, i: nat): (g: string)
    requires i <= |s|
    ensures i + |g| <= |s| && s[i..i + |g|] == g && AllDigits(g)
    ensures i + |g| == |s| || !IsDigit(s[i + |g|])
  {
    s[i..i + DigitRun(s, i)]
  }

  /** The characters `String.prototype.trim`, `parseInt` and the regular
      expression class `\s` treat as white space: the ECMAScript WhiteSpace
      and LineTerminator productions. */
  const JsWhitespace: set<char> := {
    '\U{0009}', '\U{000A}', '\U{000B}', '\U{000C}', '\U{000D}', ' ', '\U{00A0}', '\U{1680}',
    '\U{2000}', '\U{2001}', '\U{2002}', '\U{2003}', '\U{2004}', '\U{2005}', '\U{2006}',
    '\U{2007}', '\U{2008}', '\U{2009}', '\U{200A}',
    '\U{2028}', '\U{2029}', '\U{202F}', '\U{205F}', '\U{3000}', '\U{FEFF}'
  }

  predicate IsJsWhitespace(c: char)
  {
    c in JsWhitespace
  }

  predicate AllWhitespace(s: string)
  {
    forall i :: 0 <= i < |s| ==> IsJsWhitespace(s[i])
  }

  /** The first index at or after `i` that does not hold white space. */
  function SkipSpace(s: string, i: nat): (k: nat)
    requires i <= |s|
    ensures i <= k <= |s|
    ensures forall j :: i <= j < k ==> IsJsWhitespace(s[j])
    ensures k == |s| || !IsJsWhitespace(s[k])
    decreases |s| - i
  {
    if i < |s| && IsJsWhitespace(s[i]) then SkipSpace(s, i + 1) else i
  }

  /** The least index `k` in `lo..hi` such that `s[k..hi]` is all white space. */
  function SkipSpaceBack(s: string, lo: nat, hi: nat): (k: nat)
    requires lo <= hi <= |s|
    ensures lo <= k <= hi
    ensures forall j :: k <= j < hi ==> IsJsWhitespace(s[j])
    ensures k == lo || !IsJsWhitespace(s[k - 1])
    decreases hi - lo
  {
    if lo < hi && IsJsWhitespace(s[hi - 1]) then SkipSpaceBack(s, lo, hi - 1) else hi
  }

  /** `String.prototype.trim`: the slice of `s` left after removing the
      leading and trailing white space. */
  function Trim(s: string): (r: string)
    ensures |r| <= |s|
    ensures |r| > 0 ==> !IsJsWhitespace(r[0]) && !IsJsWhitespace(r[|r| - 1])
  {
    var a := SkipSpace(s, 0);
    var e := SkipSpaceBack(s, a, |s|);
    s[a..e]
  }

  /** What `Trim` removes is white space on both sides, and what it keeps is
      a contiguous slice of the input. */
  lemma {:induction false} TrimIsSlice(s: string)
    ensures exists i :: 0 <= i <= |s| - |Trim(s)| && IsTrimOf(s, i, Trim(s))
  {
    var a := SkipSpace(s, 0);
    var e := SkipSpaceBack(s, a, |s|);
    TrimUnfold(s, a, e);
    assert IsTrimOf(s, a, s[a..e]);
  }

  /** `r` is the slice of `s` starting at `i` and only white space surrounds it. */
  ghost predicate IsTrimOf(s: string, i: nat, r: string)
  {
    && i + |r| <= |s|
    && r == s[i..i + |r|]
    && (forall j :: 0 <= j < i ==> IsJsWhitespace(s[j]))
    && (forall j :: i + |r| <= j < |s| ==> IsJsWhitespace(s[j]))
  }

  /** Trimming a string that already starts and ends with non-white space,
      or is empty, leaves it unchanged. */
  lemma {:induction false} TrimNoOp(s: string)
    requires |s| == 0 || (!IsJsWhitespace(s[0]) && !IsJsWhitespace(s[|s| - 1]))
    ensures Trim(s) == s
  {
  }

  /** White space added around a string does not change its trimmed form. */
  lemma {:induction false} TrimPadded(a: string, s: string, b: string)
    requires AllWhitespace(a) && AllWhitespace(b)
    ensures Trim(a + s + b) == Trim(s)
  {
    if SkipSpace(s, 0) < |s| {
      TrimPaddedSolid(a, s, b);
    } else {
      TrimPaddedBlank(a, s, b);
    }
  }

  lemma {:induction false} TrimPaddedSolid(a: string, s: string, b: string)
    requires AllWhitespace(a) && AllWhitespace(b) && SkipSpace(s, 0) < |s|
    ensures Trim(a + s + b) == Trim(s)
  {
    var i0 := SkipSpace(s, 0);
    var e0 := SkipSpaceBack(s, i0, |s|);
    LeadingShift(a, s, b);
    SkipSpaceBackShift(a, s, b, i0);
    SliceOfMiddle(a, s, b, i0, e0);
    TrimShifted(a + s + b, s, |a|);
  }

  /** Trimming `t` gives the same as trimming `s` when `s` sits at offset
      `off` of `t` and the trim boundaries of the two correspond. */
  lemma {:induction false} TrimShifted(t: string, s: string, off: nat)
    requires SkipSpace(t, 0) == off + SkipSpace(s, 0)
    requires var i0 := SkipSpace(s, 0); var e0 := SkipSpaceBack(s, i0, |s|);
             && off + e0 <= |t| && SkipSpaceBack(t, off + i0, |t|) == off + e0
             && t[off + i0..off + e0] == s[i0..e0]
    ensures Trim(t) == Trim(s)
  {
    var i0 := SkipSpace(s, 0);
    var e0 := SkipSpaceBack(s, i0, |s|);
    TrimUnfold(t, off + i0, off + e0);
    TrimUnfold(s, i0, e0);
  }

  lemma {:induction false} LeadingShift(a: string, s: string, b: string)
    requires AllWhitespace(a) && AllWhitespace(b) && SkipSpace(s, 0) < |s|
    ensures SkipSpace(a + s + b, 0) == |a| + SkipSpace(s, 0)
  {
    SkipSpaceShift(a, s, b, 0);
  }

  lemma {:induction false} TrimUnfold(s: string, i: nat, e: nat)
    requires i == SkipSpace(s, 0) && e == SkipSpaceBack(s, i, |s|)
    ensures Trim(s) == s[i..e]
  {
  }

  lemma {:induction false} SliceOfMiddle(a: string, s: string, b: string, i: nat, j: nat)
    requires i <= j <= |s|
    ensures (a + s + b)[|a| + i..|a| + j] == s[i..j]
  {
    var t := a + s + b;
    var u := t[|a|..|a| + |s|];
    assert u == s;
    assert u[i..j] == t[|a| + i..|a| + j];
  }

  lemma {:induction false} TrimPaddedBlank(a: string, s: string, b: string)
    requires AllWhitespace(a) && AllWhitespace(b) && SkipSpace(s, 0) == |s|
    ensures Trim(a + s + b) == Trim(s)
  {
    var t := a + s + b;
    SkipSpaceShift(a, s, b, 0);
    var j0 := SkipSpace(t, 0);
    assert |a| + |s| <= j0;
    SkipBackOver(t, j0, j0, |t|);
    assert SkipSpaceBack(t, j0, |t|) == j0;
    assert SkipSpaceBack(s, |s|, |s|) == |s|;
  }

  /** Skipping white space in `a + s + b` from the start passes over all of
      `a` and then behaves as in `s`. */
  lemma {:induction false} SkipSpaceShift(a: string, s: string, b: string, i: nat)
    requires AllWhitespace(a) && AllWhitespace(b) && i <= |a|
    ensures SkipSpace(a + s + b, i) == |a| + SkipSpace(s, 0)
            || (SkipSpace(s, 0) == |s| && SkipSpace(a + s + b, i) == |a + s + b|)
    decreases |a| + |s| + |b| - i
  {
    var t := a + s + b;
    if i < |a| {
      assert IsJsWhitespace(t[i]);
      SkipSpaceShift(a, s, b, i + 1);
    } else {
      SkipSpaceMid(a, s, b, 0);
    }
  }

  lemma {:induction false} SkipSpaceMid(a: string, s: string, b: string, i: nat)
    requires AllWhitespace(b) && i <= |s|
    requires forall j :: 0 <= j < i ==> IsJsWhitespace(s[j])
    ensures SkipSpace(a + s + b, |a| + i) == |a| + SkipSpace(s, 0)
            || (SkipSpace(s, 0) == |s| && SkipSpace(a + s + b, |a| + i) == |a + s + b|)
    decreases |s| - i
  {
    var t := a + s + b;
    if i < |s| {
      assert t[|a| + i] == s[i];
      if IsJsWhitespace(s[i]) {
        SkipSpaceMid(a, s, b, i + 1);
      } else {
        SkipSpaceStop(s, 0, i);
      }
    } else {
      SkipSpaceAll(s, 0);
      SkipSpaceTail(t, |a| + |s|);
    }
  }

  lemma {:induction false} SkipSpaceStop(s: string, i: nat, k: nat)
    requires i <= k < |s| && !IsJsWhitespace(s[k])
    requires forall j :: i <= j < k ==> IsJsWhitespace(s[j])
    ensures SkipSpace(s, i) == k
    decreases k - i
  {
    if i < k {
      SkipSpaceStop(s, i + 1, k);
    }
  }

  lemma {:induction false} SkipSpaceAll(s: string, i: nat)
    requires i <= |s|
    requires forall j :: i <= j < |s| ==> IsJsWhitespace(s[j])
    ensures SkipSpace(s, i) == |s|
    decreases |s| - i
  {
    if i < |s| {
      SkipSpaceAll(s, i + 1);
    }
  }

  lemma {:induction false} SkipSpaceTail(t: string, i: nat)
    requires i <= |t|
    requires forall j :: i <= j < |t| ==> IsJsWhitespace(t[j])
    ensures SkipSpace(t, i) == |t|
  {
    SkipSpaceAll(t, i);
  }

  /** Skipping white space backwards in `a + s + b` from the end passes over
      all of `b` and then behaves as in `s`. */
  lemma {:induction false} SkipSpaceBackShift(a: string, s: string, b: string, lo: nat)
    requires AllWhitespace(b) && lo <= |s|
    ensures SkipSpaceBack(a + s + b, |a| + lo, |a + s + b|) == |a| + SkipSpaceBack(s, lo, |s|)
  {
    var t := a + s + b;
    SkipBackOver(t, |a| + lo, |a| + |s|, |t|);
    SkipBackInner(a, s, b, lo, |s|);
  }

  lemma {:induction false} SkipBackOver(t: string, lo: nat, mid: nat, hi: nat)
    requires lo <= mid <= hi <= |t|
    requires forall j :: mid <= j < hi ==> IsJsWhitespace(t[j])
    ensures SkipSpaceBack(t, lo, hi) == SkipSpaceBack(t, lo, mid)
    decreases hi - mid
  {
    if mid < hi {
      SkipBackOver(t, lo, mid, hi - 1);
    }
  }

  lemma {:induction false} SkipBackInner(a: string, s: string, b: string, lo: nat, hi: nat)
    requires lo <= hi <= |s|
    ensures SkipSpaceBack(a + s + b, |a| + lo, |a| + hi) == |a| + SkipSpaceBack(s, lo, hi)
    decreases hi - lo
  {
    var t := a + s + b;
    if lo < hi {
      assert t[|a| + hi - 1] == s[hi - 1];
      SkipBackInner(a, s, b, lo, hi - 1);
    }
  }

  /** `parseInt(s, 10)`: leading white space, an optional sign, then the
      longest run of decimal digits; `NaN` when there is no digit. */
  function ParseInt(s: string): (r: ParsedInt)
    ensures r.Int? ==> exists i :: 0 <= i < |s| && IsDigit(s[i]) && SignedStart(s, i)
  {
    var w := SkipSpace(s, 0);
    var start := SignEnd(s, w);
    var k := DigitRun(s, start);
    if k == 0 then NaN
    else
      var v: int := DigitsValue(s[start..start + k]);
      assert IsDigit(s[start]) by { assert s[start..start + k][0] == s[start]; }
      assert SignedStart(s, start);
      Int(if w < |s| && s[w] == '-' then -v else v)
  }

  /** The index after an optional sign at `w`. */
  function SignEnd(s: string, w: nat): (start: nat)
    requires w <= |s|
    ensures start == w || (start == w + 1 && w < |s| && (s[w] == '-' || s[w] == '+'))
  {
    if w < |s| && (s[w] == '-' || s[w] == '+') then w + 1 else w
  }

  /** `parseInt` yields a number exactly when a digit follows the leading
      white space and the optional sign. */
  lemma {:induction false} ParseIntDefined(s: string)
    ensures ParseInt(s).Int? <==> exists i :: 0 <= i < |s| && IsDigit(s[i]) && SignedStart(s, i)
  {
    var w := SkipSpace(s, 0);
    var start := SignEnd(s, w);
    if DigitRun(s, start) == 0 {
      forall i | 0 <= i < |s| && IsDigit(s[i]) ensures !SignedStart(s, i) {
        if i > w { assert !IsJsWhitespace(s[w]); }
      }
    }
  }

  /** Index `i` of `s` is where the digits of `parseInt` begin: only white
      space before it, optionally followed by one sign character. */
  ghost predicate SignedStart(s: string, i: nat)
    requires i < |s|
  {
    || (forall j :: 0 <= j < i ==> IsJsWhitespace(s[j]))
    || (i > 0 && (s[i - 1] == '-' || s[i - 1] == '+')
        && forall j :: 0 <= j < i - 1 ==> IsJsWhitespace(s[j]))
  }

  /** `parseInt` of a plain digit string is its decimal value. */
  lemma {:induction false} ParseIntDigits(s: string)
    requires |s| > 0 && AllDigits(s)
    ensures ParseInt(s) == Int(DigitsValue(s))
  {
    assert IsDigit(s[0]);
    SkipSpaceStop(s, 0, 0);
    assert SignEnd(s, 0) == 0;
    DigitRunAll(s, 0);
    assert s[0..|s|] == s;
  }

  lemma {:induction false} DigitRunAll(s: string, i: nat)
    requires i <= |s| && AllDigits(s)
    ensures DigitRun(s, i) == |s| - i
    decreases |s| - i
  {
    if i < |s| {
      DigitRunAll(s, i + 1);
    }
  }
}
