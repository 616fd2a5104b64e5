/** Value wrappers and the two JavaScript conversions the components use on
    page numbers: `String(n)` for an integer and `Number(s)` for a string. */
module Common {

  datatype Option<+T> = None | Some(value: T) {
    function GetOr(default: T): T {
      match this
      case Some(v) => v
      case None => default
    }
  }

  datatype Result<+T, +E> = Ok(value: T) | Err(error: E)

  predicate IsDigit(c: char) { '0' <= c <= '9' }

  predicate AllDigits(s: string) { forall i :: 0 <= i < |s| ==> IsDigit(s[i]) }

  function DigitChar(d: nat): (c: char)
    requires d < 10
    ensures IsDigit(c) && c as int - '0' as int == d
  {
    ('0' as int + d) as char
  }

  /** `String(n)` for n >= 0: decimal digits, most significant first, and a
      leading '0' only for zero itself. */
  function NatToString(n: nat): (s: string)
    ensures |s| > 0 && AllDigits(s)
    ensures (s[0] == '0') == (n == 0)
    ensures n < 10 <==> |s| == 1
  {
    if n < 10 then [DigitChar(n)] else NatToString(n / 10) + [DigitChar(n % 10)]
  }

  /** `String(n)` for any integer. */
  function IntToString(n: int): string {
    if n < 0 then "-" + NatToString(-n) else NatToString(n)
  }

  /** The value of a string of decimal digits; the empty string reads as 0. */
  function DigitsValue(s: string): nat
    requires AllDigits(s)
  {
    if s == [] then 0 else 10 * DigitsValue(s[..|s| - 1]) + (s[|s| - 1] as int - '0' as int)
  }

  /** A finite decimal fraction `m / 10^e`: the numbers a page field can
      spell, and every page number reached from them by steps of one. */
  datatype Decimal = Decimal(m: int, e: nat)

  function Pow10(e: nat): (r: nat)
    ensures r >= 1
  {
    if e == 0 then 1 else 10 * Pow10(e - 1)
  }

  /** The number a decimal stands for. */
  function RealOf(d: Decimal): real {
    d.m as real / Pow10(d.e) as real
  }

  function Whole(n: int): (r: Decimal)
    ensures RealOf(r) == n as real
  {
    Decimal(n, 0)
  }

  /** Whether the number has no fractional part. */
  predicate IsWhole(d: Decimal) {
    RealOf(d) == RealOf(d).Floor as real
  }

  /** `x + k` for an integer k. */
  function AddInt(d: Decimal, k: int): (r: Decimal)
    ensures RealOf(r) == RealOf(d) + k as real
  {
    var p := Pow10(d.e) as real;
    assert (d.m + k * Pow10(d.e)) as real / p == d.m as real / p + (k as real * p) / p;
    Decimal(d.m + k * Pow10(d.e), d.e)
  }

  /** The first position of a '.' in `s`, if there is one. */
  function DotAt(s: string): (r: Option<nat>)
    ensures r.Some? ==> r.value < |s| && s[r.value] == '.' && forall i :: 0 <= i < r.value ==> s[i] != '.'
    ensures r.None? ==> forall i :: 0 <= i < |s| ==> s[i] != '.'
  {
    if s == [] then None
    else if s[0] == '.' then Some(0)
    else match DotAt(s[1..])
      case None => None
      case Some(k) => Some(k + 1)
  }

  lemma AllDigitsAppend(a: string, b: string)
    requires AllDigits(a) && AllDigits(b)
    ensures AllDigits(a + b)
  {
    assert forall i :: 0 <= i < |a + b| ==> (a + b)[i] == if i < |a| then a[i] else b[i - |a|];
  }

  /** `Number` of an unsigned spelling: digits, optionally a point and more
      digits, with a digit on at least one side of the point. */
  function UnsignedOf(u: string): Option<Decimal> {
    match DotAt(u)
    case None => if u != "" && AllDigits(u) then Some(Decimal(DigitsValue(u), 0)) else None
    case Some(k) =>
      var ip, fp := u[..k], u[k + 1..];
      if AllDigits(ip) && AllDigits(fp) && (ip != "" || fp != "") then
        AllDigitsAppend(ip, fp);
        Some(Decimal(DigitsValue(ip + fp), |fp|))
      else None
  }

  /** `Number(s)` on the spellings a number input produces: `""` is 0, an
      unsigned decimal is its value, and `-` before one is its negation;
      every other string is NaN, written `None`. */
  function NumberOf(s: string): Option<Decimal> {
    if s == "" then Some(Decimal(0, 0))
    else if s[0] == '-' then
      match UnsignedOf(s[1..])
      case None => None
      case Some(d) => Some(Decimal(-d.m, d.e))
    else UnsignedOf(s)
  }

  /** The same number with the trailing zeros of its fraction dropped. */
  function Normalize(d: Decimal): (r: Decimal)
    ensures RealOf(r) == RealOf(d)
    ensures r.e == 0 || r.m % 10 != 0
    decreases d.e
  {
    if d.e > 0 && d.m % 10 == 0 then
      var q := d.m / 10;
      var p := Pow10(d.e - 1) as real;
      assert d.m == q * 10;
      assert RealOf(d) == (q as real * 10.0) / (p * 10.0);
      Normalize(Decimal(q, d.e - 1))
    else d
  }

  function Zeros(k: nat): (s: string)
    ensures |s| == k && AllDigits(s)
  {
    seq(k, _ => '0')
  }

  /** The e fraction digits of `r / 10^e`, with leading zeros. */
  function Padded(r: nat, e: nat): (s: string)
    requires 1 <= e && r < Pow10(e)
    ensures |s| == e && AllDigits(s) && DigitsValue(s) == r
  {
    var t := NatToString(r);
    NatToStringLength(r, e);
    DigitsValueOfNatToString(r);
    DigitsValueAppend(Zeros(e - |t|), t);
    ZerosValue(e - |t|);
    Zeros(e - |t|) + t
  }

  /** The whole part and the last e digits of a: `a == q * 10^e + r`. */
  function SplitDigits(a: nat, e: nat): (qr: (nat, nat))
    ensures a == qr.0 * Pow10(e) + qr.1 && qr.1 < Pow10(e)
  {
    if e == 0 then (a, 0)
    else
      var (q, r) := SplitDigits(a / 10, e - 1);
      assert a == 10 * (q * Pow10(e - 1) + r) + a % 10;
      assert 10 * (q * Pow10(e - 1)) == q * Pow10(e);
      (q, 10 * r + a % 10)
  }

  /** The spelling of `a / 10^e` without sign: the whole part, a point and
      exactly e fraction digits. */
  function FractionText(a: nat, e: nat): string
    requires e >= 1
  {
    var qr := SplitDigits(a, e);
    NatToString(qr.0) + "." + Padded(qr.1, e)
  }

  /** `String(x)`: the shortest decimal spelling, a minus sign for a
      negative number, and a point only when there is a fraction. */
  function Text(d: Decimal): string {
    var n := Normalize(d);
    if n.e == 0 then IntToString(n.m)
    else if n.m < 0 then "-" + FractionText(-n.m, n.e)
    else FractionText(n.m, n.e)
  }

  lemma {:induction false} DigitsValueOfNatToString(n: nat)
    ensures DigitsValue(NatToString(n)) == n
  {
    if n >= 10 {
      var s := NatToString(n);
      assert s[..|s| - 1] == NatToString(n / 10);
      DigitsValueOfNatToString(n / 10);
    }
  }

  lemma {:induction false} ZerosValue(k: nat)
    ensures DigitsValue(Zeros(k)) == 0
  {
    if k > 0 {
      assert Zeros(k)[..k - 1] == Zeros(k - 1);
      ZerosValue(k - 1);
    }
  }

  /** Digits written after others shift them up by as many places. */
  lemma {:induction false} DigitsValueAppend(a: string, b: string)
    requires AllDigits(a) && AllDigits(b)
    ensures AllDigits(a + b)
    ensures DigitsValue(a + b) == DigitsValue(a) * Pow10(|b|) + DigitsValue(b)
  {
    AllDigitsAppend(a, b);
    if b != [] {
      var b' := b[..|b| - 1];
      assert (a + b)[..|a + b| - 1] == a + b';
      assert (a + b)[|a + b| - 1] == b[|b| - 1];
      DigitsValueAppend(a, b');
      calc {
        DigitsValue(a + b);
        10 * DigitsValue(a + b') + (b[|b| - 1] as int - '0' as int);
        10 * (DigitsValue(a) * Pow10(|b'|) + DigitsValue(b')) + (b[|b| - 1] as int - '0' as int);
        { assert 10 * (DigitsValue(a) * Pow10(|b'|)) == DigitsValue(a) * (10 * Pow10(|b'|)); }
        DigitsValue(a) * Pow10(|b|) + DigitsValue(b);
      }
    } else {
      assert a + b == a;
    }
  }

  lemma {:induction false} NatToStringLength(r: nat, e: nat)
    requires 1 <= e && r < Pow10(e)
    ensures |NatToString(r)| <= e
  {
    if r >= 10 {
      assert Pow10(1) == 10;
      NatToStringLength(r / 10, e - 1);
    }
  }

  /** A run of digits, a point and anything after it: the point found is
      the one after the digits. */
  lemma {:induction false} DotAfterDigits(a: string, rest: string)
    requires AllDigits(a)
    ensures DotAt(a + "." + rest) == Some(|a|)
  {
    if a != [] {
      assert (a + "." + rest)[1..] == a[1..] + "." + rest;
      DotAfterDigits(a[1..], rest);
    }
  }

  /** Reading back what `String` wrote for an integer gives it back. */
  lemma NumberOfIntToString(n: int)
    ensures NumberOf(IntToString(n)) == Some(Whole(n))
  {
    var d := NatToString(if n < 0 then -n else n);
    DigitsValueOfNatToString(if n < 0 then -n else n);
    assert DotAt(d) == None by {
      assert forall i :: 0 <= i < |d| ==> IsDigit(d[i]);
    }
    if n < 0 {
      var s := "-" + d;
      assert s == IntToString(n);
      assert s[1..] == d;
    } else {
      assert IsDigit(d[0]);
    }
  }

  /** The unsigned part `String` writes for a fraction reads back as it. */
  lemma UnsignedOfFractionText(a: nat, e: nat)
    requires 1 <= e
    ensures UnsignedOf(FractionText(a, e)) == Some(Decimal(a, e))
  {
    var qr := SplitDigits(a, e);
    var A, P := NatToString(qr.0), Padded(qr.1, e);
    var u := A + "." + P;
    assert u == FractionText(a, e);
    assert DotAt(u) == Some(|A|) by { DotAfterDigits(A, P); }
    assert u[..|A|] == A by { assert forall i :: 0 <= i < |A| ==> u[i] == A[i]; }
    assert u[|A| + 1..] == P;
    assert DigitsValue(A + P) == a by {
      DigitsValueOfNatToString(qr.0);
      DigitsValueAppend(A, P);
    }
  }

  lemma NumberOfFractionText(a: nat, e: nat)
    requires 1 <= e
    ensures NumberOf(FractionText(a, e)) == Some(Decimal(a, e))
    ensures NumberOf("-" + FractionText(a, e)) == Some(Decimal(-(a as int), e))
  {
    var u := FractionText(a, e);
    UnsignedOfFractionText(a, e);
    assert u != "" && IsDigit(u[0]) by {
      var qr := SplitDigits(a, e);
      assert u == NatToString(qr.0) + ("." + Padded(qr.1, e));
    }
    assert ("-" + u)[1..] == u;
  }

  /** Reading back what `String` wrote for any decimal gives the same number,
      in its shortest spelling: `Number(String(x)) == x`. */
  lemma NumberOfText(d: Decimal)
    ensures NumberOf(Text(d)) == Some(Normalize(d))
    ensures RealOf(NumberOf(Text(d)).value) == RealOf(d)
  {
    var n := Normalize(d);
    if n.e == 0 {
      assert Text(d) == IntToString(n.m);
      NumberOfIntToString(n.m);
      assert Whole(n.m) == n;
    } else if n.m < 0 {
      var a: nat := -n.m;
      assert Text(d) == "-" + FractionText(a, n.e);
      NumberOfFractionText(a, n.e);
      assert Decimal(-(a as int), n.e) == n;
    } else {
      var a: nat := n.m;
      assert Text(d) == FractionText(a, n.e);
      NumberOfFractionText(a, n.e);
      assert Decimal(a, n.e) == n;
    }
  }
}
