// Floor division of natural numbers.

module Floors {
  function Pow10(n: nat): (r: nat)
    ensures r >= 1
  {
    if n == 0 then 1 else 10 * Pow10(n - 1)
  }

  lemma MulMonotone(a: nat, b: nat, c: nat)
    requires a <= b
    ensures a * c <= b * c
  {
    assert b * c == a * c + (b - a) * c;
  }

  lemma MulLessIff(a: nat, b: nat, c: nat)
    requires c >= 1
    ensures a * c < b * c <==> a < b
  {
    if a < b {
      MulMonotone(a + 1, b, c);
      assert (a + 1) * c == a * c + c;
    } else {
      MulMonotone(b, a, c);
    }
  }

  lemma DivLessIff(x: nat, b: nat, s: nat)
    requires b >= 1
    ensures x / b < s <==> x < s * b
  {
    var q := x / b;
    assert x == q * b + x % b;
    assert (q + 1) * b == q * b + b;
    if q < s {
      MulMonotone(q + 1, s, b);
    } else {
      MulMonotone(s, q, b);
    }
  }

  lemma DivMonotone(x: nat, y: nat, b: nat)
    requires x <= y && b >= 1
    ensures x / b <= y / b
  {
    DivLessIff(x, b, y / b + 1);
    DivLessIff(y, b, y / b + 1);
  }

  /** A larger divisor gives a smaller quotient. */
  lemma DivAntitone(x: nat, b: nat, c: nat)
    requires 1 <= b <= c
    ensures x / c <= x / b
  {
    var q := x / b;
    DivLessIff(x, b, q + 1);
    MulMonotone(b, c, q + 1);
    DivLessIff(x, c, q + 1);
    assert b * (q + 1) == (q + 1) * b && c * (q + 1) == (q + 1) * c;
  }

  /** A floored ratio is below one, in fixed-point units, exactly when the ratio is. */
  lemma FlooredBelow(a: nat, b: nat, scale: nat)
    requires b >= 1 && scale >= 1
    ensures a * scale / b < scale <==> a < b
  {
    DivLessIff(a * scale, b, scale);
    MulLessIff(a, b, scale);
    assert scale * b == b * scale;
  }
}
