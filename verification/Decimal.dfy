/** Decimal text of numbers, plain (`%d`) and zero-padded (`%09d`). */
module Decimal {

  const DIGITS := "0123456789"

  function Digit(d: nat): (c: char)
    requires d < 10
    ensures '0' <= c <= '9' && c as int == '0' as int + d
  {
    DIGITS[d]
  }

  predicate IsDigit(c: char) {
    '0' <= c <= '9'
  }

  predicate AllDigits(s: string) {
    forall i :: 0 <= i < |s| ==> IsDigit(s[i])
  }

  function Digits(n: nat): (s: string)
    ensures s != "" && AllDigits(s)
  {
    if n < 10 then [Digit(n)] else Digits(n / 10) + [Digit(n % 10)]
  }

  /** The number a digit string denotes. */
  function Number(s: string): (n: nat)
    requires AllDigits(s)
  {
    if s == "" then 0
    else Number(s[..|s| - 1]) * 10 + (s[|s| - 1] as int - '0' as int)
  }

  lemma {:induction false} NumberOfDigits(n: nat)
    ensures Number(Digits(n)) == n
  {
    if n >= 10 {
      NumberOfDigits(n / 10);
      assert Digits(n)[..|Digits(n)| - 1] == Digits(n / 10);
    } else {
      assert Digits(n)[..0] == "";
    }
  }

  /** `%d` of a signed number. */
  function Dec(n: int): string {
    if n < 0 then "-" + Digits(-n) else Digits(n)
  }

  function Zeros(n: nat): (s: string)
    ensures |s| == n && AllDigits(s)
  {
    if n == 0 then "" else ['0'] + Zeros(n - 1)
  }

  /** `%0<w>d`: at least `w` digits, zeros in front. */
  function Padded(n: nat, w: nat): (s: string)
    ensures |s| >= w && AllDigits(s) && s != ""
  {
    var d := Digits(n);
    if |d| < w then Zeros(w - |d|) + d else d
  }

  lemma {:induction false} NumberOfZeros(k: nat, s: string)
    requires AllDigits(s)
    ensures AllDigits(Zeros(k) + s) && Number(Zeros(k) + s) == Number(s)
    decreases |s|
  {
    if s == "" {
      assert Zeros(k) + s == Zeros(k);
      ZerosAreZero(k);
    } else {
      var t := s[..|s| - 1];
      NumberOfZeros(k, t);
      assert (Zeros(k) + s)[..|Zeros(k) + s| - 1] == Zeros(k) + t;
    }
  }

  lemma {:induction false} ZerosAreZero(k: nat)
    ensures Number(Zeros(k)) == 0
  {
    if k > 0 {
      ZerosAreZero(k - 1);
      ZerosEnd(k);
      assert Zeros(k)[..k - 1] == Zeros(k - 1);
    }
  }

  lemma {:induction false} ZerosEnd(k: nat)
    requires k > 0
    ensures Zeros(k) == Zeros(k - 1) + ['0']
  {
    if k > 1 {
      ZerosEnd(k - 1);
    }
  }

  lemma NumberOfPadded(n: nat, w: nat)
    ensures Number(Padded(n, w)) == n
  {
    NumberOfDigits(n);
    var d := Digits(n);
    if |d| < w {
      NumberOfZeros(w - |d|, d);
    }
  }

  function Pow10(k: nat): nat {
    if k == 0 then 1 else 10 * Pow10(k - 1)
  }

  lemma {:induction false} DigitsLength(n: nat, w: nat)
    requires w >= 1
    ensures |Digits(n)| <= w <==> n < Pow10(w)
    decreases w
  {
    if w == 1 {
      assert Pow10(1) == 10 * Pow10(0);
      if n >= 10 {
        assert |Digits(n / 10)| >= 1;
      }
    } else {
      assert Pow10(w) == 10 * Pow10(w - 1) && Pow10(w - 1) >= 1 by { Pow10Positive(w - 1); }
      if n >= 10 {
        DigitsLength(n / 10, w - 1);
      }
    }
  }

  lemma {:induction false} Pow10Positive(k: nat)
    ensures Pow10(k) >= 1
  {
    if k > 0 { Pow10Positive(k - 1); }
  }

  lemma PaddedLength(n: nat, w: nat)
    requires w >= 1 && n < Pow10(w)
    ensures |Padded(n, w)| == w
  {
    DigitsLength(n, w);
  }

  /** Byte order of two strings of one length. */
  predicate ByteLess(a: string, b: string) {
    if a == "" then b != ""
    else b != "" && (a[0] < b[0] || (a[0] == b[0] && ByteLess(a[1..], b[1..])))
  }

  lemma ShiftLeft(x: nat, q: nat, r: nat, d: nat)
    ensures (x * q + r) * 10 + d == x * (10 * q) + (r * 10 + d)
  {
  }

  lemma LeadDecides(x: nat, y: nat, p: nat, a: nat, b: nat)
    requires x < y && a < p && b < p
    ensures x * p + a < y * p + b
  {
    assert (x + 1) * p <= y * p;
  }

  /** The value of a digit string splits at its first digit. */
  lemma {:induction false} NumberFromFront(s: string)
    requires s != "" && AllDigits(s)
    ensures Number(s) == (s[0] as int - '0' as int) * Pow10(|s| - 1) + Number(s[1..])
    ensures Number(s[1..]) < Pow10(|s| - 1)
    decreases |s|
  {
    var t := s[..|s| - 1];
    var d := s[|s| - 1] as int - '0' as int;
    if |s| == 1 {
      assert s[1..] == "" && t == "";
    } else {
      NumberFromFront(t);
      assert t[1..] == s[1..][..|s| - 2] && t[0] == s[0];
      assert Number(s) == Number(t) * 10 + d;
      assert Number(s[1..]) == Number(t[1..]) * 10 + d;
      assert Pow10(|s| - 1) == 10 * Pow10(|s| - 2);
      hide *;
      ShiftLeft(s[0] as int - '0' as int, Pow10(|s| - 2), Number(t[1..]), d);
    }
  }

  /** On digit strings of one width, byte order is numeric order. */
  lemma {:induction false} ByteOrderIsNumeric(a: string, b: string)
    requires AllDigits(a) && AllDigits(b) && |a| == |b|
    ensures ByteLess(a, b) <==> Number(a) < Number(b)
    decreases |a|
  {
    if a != "" {
      NumberFromFront(a);
      NumberFromFront(b);
      ByteOrderIsNumeric(a[1..], b[1..]);
      assert ByteLess(a, b) <==> a[0] < b[0] || (a[0] == b[0] && ByteLess(a[1..], b[1..]));
      hide *;
      var p := Pow10(|a| - 1);
      var x, y := a[0] as int - '0' as int, b[0] as int - '0' as int;
      if x < y {
        LeadDecides(x, y, p, Number(a[1..]), Number(b[1..]));
      } else if y < x {
        LeadDecides(y, x, p, Number(b[1..]), Number(a[1..]));
      }
    }
  }
}
