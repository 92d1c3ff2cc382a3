/**
 * The three string operations the entry handler applies to an incoming
 * message: `str.strip()`, `str.isdigit()` and `int()` on a digit string,
 * plus `str()` of a product code, which is how the catalog listing shows it.
 * Digits are the ASCII digits '0'..'9'.
 */
module Text {

  /** The characters Python's `str.strip()` removes (those for which `str.isspace()` holds). */
  predicate IsSpace(c: char) {
    || '\t' <= c <= '\r'
    || '\U{1c}' <= c <= '\U{1f}'
    || c == ' '
    || c == '\U{85}'
    || c == '\U{a0}'
    || c == '\U{1680}'
    || '\U{2000}' <= c <= '\U{200a}'
    || c == '\U{2028}'
    || c == '\U{2029}'
    || c == '\U{202f}'
    || c == '\U{205f}'
    || c == '\U{3000}'
  }

  predicate AllSpace(s: string) {
    forall k | 0 <= k < |s| :: IsSpace(s[k])
  }

  /** Neither end of `s` is whitespace (vacuously true of the empty string). */
  predicate Trimmed(s: string) {
    s == [] || (!IsSpace(s[0]) && !IsSpace(s[|s| - 1]))
  }

  /** Scanning right from `i`: the first index that is not whitespace, or `|s|`. */
  function SkipRight(s: string, i: nat): (n: nat)
    requires i <= |s|
    ensures i <= n <= |s|
    ensures forall k | i <= k < n :: IsSpace(s[k])
    ensures n < |s| ==> !IsSpace(s[n])
    decreases |s| - i
  {
    if i == |s| || !IsSpace(s[i]) then i else SkipRight(s, i + 1)
  }

  /** Scanning left from `j` but not below `lo`: the end of the text that precedes trailing whitespace. */
  function SkipLeft(s: string, j: nat, lo: nat): (n: nat)
    requires lo <= j <= |s|
    ensures lo <= n <= j
    ensures forall k | n <= k < j :: IsSpace(s[k])
    ensures n > lo ==> !IsSpace(s[n - 1])
  {
    if j == lo || !IsSpace(s[j - 1]) then j else SkipLeft(s, j - 1, lo)
  }

  /**
   * Python's `str.strip()`: skip whitespace from the left, then from the right
   * down to where the left scan stopped, and keep what lies between.
   */
  function Strip(s: string): (r: string)
    ensures |r| <= |s| && Trimmed(r)
  {
    var i := SkipRight(s, 0);
    s[i..SkipLeft(s, |s|, i)]
  }

  /**
   * What `Strip` keeps is the slice of `s` that starts after the leading
   * whitespace, and everything it cuts off around that slice is whitespace.
   */
  lemma StripIsSlice(s: string)
    ensures var i, r := SkipRight(s, 0), Strip(s);
      && i + |r| <= |s| && s[i..i + |r|] == r
      && AllSpace(s[..i]) && AllSpace(s[i + |r|..])
  {
    var i := SkipRight(s, 0);
    var j := SkipLeft(s, |s|, i);
    var front, back := s[..i], s[j..];
    forall k | 0 <= k < |front| ensures IsSpace(front[k]) {
      assert front[k] == s[k];
    }
    forall k | 0 <= k < |back| ensures IsSpace(back[k]) {
      assert back[k] == s[j + k];
    }
  }

  /** Stripping a trimmed text wrapped in whitespace gives back exactly that text. */
  lemma StripPadding(a: string, t: string, b: string)
    requires AllSpace(a) && AllSpace(b) && Trimmed(t)
    ensures Strip(a + t + b) == t
  {
    var s := a + t + b;
    var i, j := |a|, |a| + |t|;
    assert forall k | 0 <= k < i :: s[k] == a[k];
    assert forall k | j <= k < |s| :: s[k] == b[k - j];
    if t == [] {
      SkipRightIs(s, 0, |s|);
      SkipLeftIs(s, |s|, |s|, |s|);
    } else {
      assert s[i] == t[0] && s[j - 1] == t[|t| - 1];
      SkipRightIs(s, 0, i);
      SkipLeftIs(s, |s|, i, j);
      assert s[i..j] == t;
    }
  }

  /** A right scan from `i` that stops at a non-space (or the end) is the one `SkipRight` makes. */
  lemma SkipRightIs(s: string, i: nat, n: nat)
    requires i <= n <= |s| && forall k | i <= k < n :: IsSpace(s[k])
    requires n < |s| ==> !IsSpace(s[n])
    ensures SkipRight(s, i) == n
  {
  }

  /** A left scan from `j` that stops at a non-space (or at `lo`) is the one `SkipLeft` makes. */
  lemma SkipLeftIs(s: string, j: nat, lo: nat, n: nat)
    requires lo <= n <= j <= |s| && forall k | n <= k < j :: IsSpace(s[k])
    requires n > lo ==> !IsSpace(s[n - 1])
    ensures SkipLeft(s, j, lo) == n
  {
  }

  /** Whitespace added around any text is removed by stripping along with what was there. */
  lemma StripIgnoresPadding(a: string, s: string, b: string)
    requires AllSpace(a) && AllSpace(b)
    ensures Strip(a + s + b) == Strip(s)
  {
    StripIsSlice(s);
    StripAroundSlice(a, s, b, SkipRight(s, 0), |Strip(s)|);
  }

  /** Stripping `a + s + b` keeps a trimmed slice of `s` when all around it is whitespace. */
  lemma StripAroundSlice(a: string, s: string, b: string, i: nat, n: nat)
    requires i + n <= |s| && Trimmed(s[i..i + n])
    requires AllSpace(a) && AllSpace(b) && AllSpace(s[..i]) && AllSpace(s[i + n..])
    ensures Strip(a + s + b) == s[i..i + n]
  {
    Regroup(a, s, b, i, n);
    StripPadding(a + s[..i], s[i..i + n], s[i + n..] + b);
  }

  /** Moves the whitespace around the slice `s[i..i + n]` into the padding `a` and `b`. */
  lemma Regroup(a: string, s: string, b: string, i: nat, n: nat)
    requires i + n <= |s|
    requires AllSpace(a) && AllSpace(b) && AllSpace(s[..i]) && AllSpace(s[i + n..])
    ensures a + s + b == (a + s[..i]) + s[i..i + n] + (s[i + n..] + b)
    ensures AllSpace(a + s[..i]) && AllSpace(s[i + n..] + b)
  {
    var front, mid, back := s[..i], s[i..i + n], s[i + n..];
    assert s == front + mid + back;
    ConcatRegroup(a, front, mid, back, b);
    AllSpaceConcat(a, front);
    AllSpaceConcat(back, b);
  }

  lemma ConcatRegroup(a: string, f: string, t: string, k: string, b: string)
    ensures a + (f + t + k) + b == (a + f) + t + (k + b)
  {
  }

  lemma AllSpaceConcat(x: string, y: string)
    requires AllSpace(x) && AllSpace(y)
    ensures AllSpace(x + y)
  {
    forall k | 0 <= k < |x + y| ensures IsSpace((x + y)[k]) {
      if k >= |x| { assert (x + y)[k] == y[k - |x|]; }
    }
  }

  predicate IsDigit(c: char) {
    '0' <= c <= '9'
  }

  predicate AllDigits(s: string) {
    forall k | 0 <= k < |s| :: IsDigit(s[k])
  }

  /** Python's `str.isdigit()` on ASCII text: non-empty and made of digits only. */
  predicate IsDigits(s: string) {
    |s| > 0 && AllDigits(s)
  }

  function DigitValue(c: char): nat
    requires IsDigit(c)
  {
    c as int - '0' as int
  }

  function DigitChar(d: nat): (c: char)
    requires d < 10
    ensures IsDigit(c) && DigitValue(c) == d
  {
    ('0' as int + d) as char
  }

  /**
   * Python's `int()` on a string of decimal digits. The empty string gives 0 only
   * as the base case of the recursion; the entry handler calls it on `IsDigits` text.
   */
  function DecimalValue(s: string): nat
    requires AllDigits(s)
  {
    if s == [] then 0
    else DecimalValue(s[..|s| - 1]) * 10 + DigitValue(s[|s| - 1])
  }

  /** Python's `str()` of a non-negative integer: its decimal digits without leading zeros. */
  function DecimalText(n: nat): (r: string)
    ensures IsDigits(r)
    ensures r[0] == '0' ==> n == 0
  {
    if n < 10 then [DigitChar(n)] else DecimalText(n / 10) + [DigitChar(n % 10)]
  }

  /** `int(str(n)) == n`. */
  lemma {:induction false} DecimalRoundTrip(n: nat)
    ensures DecimalValue(DecimalText(n)) == n
  {
    if n >= 10 {
      var s := DecimalText(n);
      assert s[..|s| - 1] == DecimalText(n / 10);
      DecimalRoundTrip(n / 10);
    }
  }

  /** A leading zero does not change the value `int()` reads. */
  lemma {:induction false} LeadingZero(s: string)
    requires AllDigits(s)
    ensures DecimalValue(['0'] + s) == DecimalValue(s)
  {
    if s != [] {
      var z := ['0'] + s;
      assert z[..|z| - 1] == ['0'] + s[..|s| - 1];
      LeadingZero(s[..|s| - 1]);
    }
  }

  /** Any number of leading zeros does not change the value `int()` reads. */
  lemma {:induction false} LeadingZeros(zeros: string, s: string)
    requires forall k | 0 <= k < |zeros| :: zeros[k] == '0'
    requires AllDigits(s)
    ensures AllDigits(zeros + s) && DecimalValue(zeros + s) == DecimalValue(s)
  {
    if zeros != [] {
      var rest := zeros[1..] + s;
      LeadingZeros(zeros[1..], s);
      assert zeros + s == ['0'] + rest;
      LeadingZero(rest);
    } else {
      assert zeros + s == s;
    }
  }
}
