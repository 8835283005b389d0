/** The parts of JavaScript number semantics the front end relies on, over
    exact reals: `Math.floor`, `Math.round`, the `%` operator, `String(n)` for
    integral numbers, `padStart(2, "0")`, and division that may leave the
    finite numbers. */
module JsNumber {
  import opened Strings

  /** Truncation toward zero (`Math.trunc`). */
  function Trunc(x: real): (r: int)
    ensures x >= 0.0 ==> r == x.Floor
    ensures x < 0.0 ==> r == -((-x).Floor)
    ensures (if r < 0 then -r else r) as real <= (if x < 0.0 then -x else x)
  {
    if x >= 0.0 then x.Floor else -((-x).Floor)
  }

  /** `a % b`: the remainder of a division truncated toward zero, which takes
      the sign of the dividend (unlike Dafny's Euclidean `%`). */
  function Rem(a: real, b: real): (r: real)
    requires b != 0.0
    ensures a >= 0.0 && b > 0.0 ==> 0.0 <= r < b && r == a - b * (a / b).Floor as real
    ensures a <= 0.0 && b > 0.0 ==> -b < r <= 0.0
  {
    RemBounds(a, b);
    a - b * Trunc(a / b) as real
  }

  lemma RemBounds(a: real, b: real)
    requires b != 0.0
    ensures var r := a - b * Trunc(a / b) as real;
      (a >= 0.0 && b > 0.0 ==> 0.0 <= r < b && r == a - b * (a / b).Floor as real) &&
      (a <= 0.0 && b > 0.0 ==> -b < r <= 0.0)
  {
    if b > 0.0 {
      if a >= 0.0 {
        FloorRemainder(a, b);
      } else {
        FloorRemainder(-a, b);
        assert -a / b == -(a / b);
      }
    }
  }

  /** For a non-negative dividend and a positive divisor the floored quotient
      leaves a remainder in [0, b). */
  lemma FloorRemainder(a: real, b: real)
    requires a >= 0.0 && b > 0.0
    ensures 0.0 <= a - b * (a / b).Floor as real < b
  {
    var x := a / b;
    var q := x.Floor as real;
    assert q <= x < q + 1.0;
    assert a == x * b;
    MulMonotone(q, x, b);
    MulMonotone(x, q + 1.0, b);
    assert (q + 1.0) * b == q * b + b;
    assert a < q * b + b;
    assert b * q == q * b;
    assert a - b * q < b;
  }

  lemma MulMonotone(u: real, v: real, b: real)
    requires u <= v && b > 0.0
    ensures u * b <= v * b
    ensures u < v ==> u * b < v * b
  {
  }

  /** `Math.round(x)`: the nearest integer, halves rounded up. */
  function Round(x: real): (r: int)
    ensures x - 0.5 < r as real <= x + 0.5
    ensures r as real == x ==> r == x.Floor
  {
    (x + 0.5).Floor
  }

  /** `Math.round` returns an integer unchanged. */
  lemma RoundIntegral(n: int)
    ensures Round(n as real) == n
  {
  }

  /** `String(n)` for an integral number: an optional minus sign and the
      shortest decimal digits. */
  function IntToString(n: int): (r: string)
    ensures n >= 0 ==> |r| >= 1 && AllDigits(r)
    ensures n < 0 ==> |r| >= 2 && r[0] == '-' && AllDigits(r[1..])
  {
    if n >= 0 then NatToString(n) else "-" + NatToString(-n)
  }

  /** The digits of `String(n)` spell the magnitude of `n`. */
  lemma IntToStringValue(n: int)
    ensures n >= 0 ==> DigitsValue(IntToString(n)) == n
    ensures n < 0 ==> DigitsValue(IntToString(n)[1..]) == -n
  {
    if n >= 0 {
      NatToStringValue(n);
    } else {
      NatToStringValue(-n);
      assert IntToString(n)[1..] == NatToString(-n);
    }
  }

  /** `String(n).padStart(2, "0")`: at least two characters, exactly two below
      100, and the plain decimal text from 10 on (nothing is cut). */
  function Pad2(n: int): (r: string)
    ensures |r| >= 2
    ensures 0 <= n < 100 ==> |r| == 2
    ensures n >= 10 ==> r == IntToString(n)
  {
    PaddedLength(n);
    PadStart(IntToString(n), 2, '0')
  }

  lemma PaddedLength(n: int)
    ensures var r := PadStart(IntToString(n), 2, '0');
      (0 <= n < 100 ==> |r| == 2) && (n >= 10 ==> r == IntToString(n))
  {
    if n >= 10 {
      TwoDigits(n);
    }
    if 0 <= n < 100 {
      AtMostTwoDigits(n);
    }
  }

  /** A padded non-negative number is all digits and keeps its value. */
  lemma Pad2Value(n: nat)
    ensures AllDigits(Pad2(n)) && DigitsValue(Pad2(n)) == n
  {
    var s := IntToString(n);
    IntToStringValue(n);
    var z := if |s| >= 2 then 0 else 2 - |s|;
    ZerosValue(z, s);
    assert Pad2(n) == Repeat('0', z) + s;
  }

  /** Zero pads to `00`. */
  lemma Pad2Zero()
    ensures Pad2(0) == "00"
  {
    assert NatToString(0) == "0";
  }

  lemma TwoDigits(n: nat)
    requires n >= 10
    ensures |NatToString(n)| >= 2
  {
  }

  lemma AtMostTwoDigits(n: nat)
    requires n < 100
    ensures |NatToString(n)| <= 2
  {
    if n >= 10 {
      assert NatToString(n) == NatToString(n / 10) + [DigitChar(n % 10)];
    }
  }

  /** A JavaScript number: a finite value, an infinity, or NaN. */
  datatype JsValue = Finite(v: real) | PosInfinity | NegInfinity | NaN

  /** `a / b`: a zero divisor gives an infinity of the dividend's sign, or NaN
      for `0 / 0`. */
  function Divide(a: real, b: real): (r: JsValue)
    ensures r.Finite? <==> b != 0.0
    ensures r.Finite? ==> r.v * b == a
    ensures r == NaN <==> a == 0.0 && b == 0.0
  {
    if b != 0.0 then Finite(a / b)
    else if a > 0.0 then PosInfinity
    else if a < 0.0 then NegInfinity
    else NaN
  }

  /** `x >= y` for a finite `x`; every comparison with NaN is false. */
  predicate AtLeast(x: real, y: JsValue) {
    match y
    case Finite(v) => x >= v
    case PosInfinity => false
    case NegInfinity => true
    case NaN => false
  }
}
