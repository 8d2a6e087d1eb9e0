/** Exact decimal amounts and their conversion to cents: Money.from_amount with the
    configured ROUND_HALF_UP mode (config/initializers/money.rb:10), and the truncating
    `(amount * 100).to_i` of the API merchant creator. */
module Money {

  function Pow10(n: nat): (p: nat)
    ensures p >= 1
  {
    if n == 0 then 1 else 10 * Pow10(n - 1)
  }

  /** The decimal number unscaled / 10^scale, as a BigDecimal holds it. */
  datatype Decimal = Decimal(unscaled: int, scale: nat)

  /** Rounds n / q to the nearest integer, halves away from zero (BigDecimal::ROUND_HALF_UP). */
  function DivRoundHalfUp(n: int, q: nat): (r: int)
    requires q >= 1
    ensures n >= 0 ==> 2 * q * r - q <= 2 * n < 2 * q * r + q
    ensures n < 0 ==> 2 * q * r - q < 2 * n <= 2 * q * r + q
  {
    if n >= 0 then (2 * n + q) / (2 * q) else -((2 * (-n) + q) / (2 * q))
  }

  /** Divides n by q rounding toward zero (Ruby's to_i on a BigDecimal or Float). */
  function DivTruncate(n: int, q: nat): (r: int)
    requires q >= 1
    ensures n >= 0 ==> 0 <= r && q * r <= n < q * r + q
    ensures n < 0 ==> r <= 0 && q * r - q < n <= q * r
  {
    if n >= 0 then n / q else -((-n) / q)
  }

  /** `Money.from_amount(d).cents` in a currency with 100 subunits. */
  function FromAmountCents(d: Decimal): int
  {
    if d.scale <= 2 then d.unscaled * Pow10(2 - d.scale)
    else DivRoundHalfUp(d.unscaled, Pow10(d.scale - 2))
  }

  /** `(d * 100).to_i`. */
  function TruncatedCents(d: Decimal): int
  {
    if d.scale <= 2 then d.unscaled * Pow10(2 - d.scale)
    else DivTruncate(d.unscaled, Pow10(d.scale - 2))
  }

  /** The cents are the amount times 100 rounded to the nearest integer, halves away from
      zero: twice the distance to 100 * d is at most one cent, and a tie goes outward. */
  lemma FromAmountIsNearest(d: Decimal)
    ensures var c := FromAmountCents(d); var q := Pow10(d.scale);
      && (d.unscaled >= 0 ==> 2 * q * c - q <= 200 * d.unscaled < 2 * q * c + q)
      && (d.unscaled < 0 ==> 2 * q * c - q < 200 * d.unscaled <= 2 * q * c + q)
  {
    var c := FromAmountCents(d);
    if d.scale <= 2 {
      var k := Pow10(2 - d.scale);
      PowSplit(d.scale, 2 - d.scale);
      assert Pow10(d.scale) * k == 100;
      assert 200 * d.unscaled == 2 * Pow10(d.scale) * c by {
        assert c == d.unscaled * k;
      }
    } else {
      var q2 := Pow10(d.scale - 2);
      PowSplit(2, d.scale - 2);
      assert Pow10(d.scale) == 100 * q2;
      var q := Pow10(d.scale);
      assert 2 * q * c == 100 * (2 * q2 * c);
    }
  }

  /** Truncation never moves away from zero, and it drops less than one cent. */
  lemma TruncatedIsTowardZero(d: Decimal)
    ensures var c := TruncatedCents(d); var q := Pow10(d.scale);
      && (d.unscaled >= 0 ==> 0 <= q * c <= 100 * d.unscaled < q * c + q)
      && (d.unscaled < 0 ==> q * c - q < 100 * d.unscaled <= q * c <= 0)
  {
    var c := TruncatedCents(d);
    if d.scale <= 2 {
      var k := Pow10(2 - d.scale);
      PowSplit(d.scale, 2 - d.scale);
      assert Pow10(d.scale) * k == 100;
      assert 100 * d.unscaled == Pow10(d.scale) * c by {
        assert c == d.unscaled * k;
      }
    } else {
      var q2 := Pow10(d.scale - 2);
      PowSplit(2, d.scale - 2);
      var q := Pow10(d.scale);
      assert q == 100 * q2;
      assert q * c == 100 * (q2 * c);
    }
  }

  lemma MulMonotone(q: nat, a: int, b: int)
    requires a <= b
    ensures q * a <= q * b
  {
    assert q * b - q * a == q * (b - a);
  }

  /** For n >= 0 the rounded quotient is the truncated one or the next integer. */
  lemma NearestVersusFloor(n: int, q: nat, r: int, t: int)
    requires q >= 1 && n >= 0
    requires 2 * q * r - q <= 2 * n < 2 * q * r + q
    requires q * t <= n < q * t + q
    ensures t <= r <= t + 1
  {
    if r >= t + 2 {
      MulMonotone(q, t + 2, r);
      assert false;
    }
    if r <= t - 1 {
      MulMonotone(q, r, t - 1);
      assert false;
    }
  }

  /** Rounding and truncation agree or differ by one cent, rounding being the farther from
      zero. */
  lemma RoundedVersusTruncated(d: Decimal)
    ensures d.unscaled >= 0 ==> TruncatedCents(d) <= FromAmountCents(d) <= TruncatedCents(d) + 1
    ensures d.unscaled < 0 ==> TruncatedCents(d) - 1 <= FromAmountCents(d) <= TruncatedCents(d)
  {
    if d.scale > 2 {
      var q := Pow10(d.scale - 2);
      var n := d.unscaled;
      if n >= 0 {
        NearestVersusFloor(n, q, DivRoundHalfUp(n, q), DivTruncate(n, q));
      } else {
        assert DivRoundHalfUp(n, q) == -DivRoundHalfUp(-n, q);
        assert DivTruncate(n, q) == -DivTruncate(-n, q);
        NearestVersusFloor(-n, q, DivRoundHalfUp(-n, q), DivTruncate(-n, q));
      }
    }
  }

  lemma {:induction false} PowSplit(a: nat, b: nat)
    ensures Pow10(a + b) == Pow10(a) * Pow10(b)
  {
    if a > 0 {
      PowSplit(a - 1, b);
    }
  }

  /** A rounded quotient c of 200 * u by 2 * q is non-negative exactly when 200 * u + q is
      positive. */
  lemma SignOfNearest(u: int, q: nat, c: int)
    requires q >= 1
    requires u >= 0 ==> 2 * q * c - q <= 200 * u < 2 * q * c + q
    requires u < 0 ==> 2 * q * c - q < 200 * u <= 2 * q * c + q
    ensures u >= 0 ==> c >= 0
    ensures c >= 0 <==> 200 * u + q > 0
  {
    var m := q * c;
    assert 2 * q * c == 2 * m;
    if c >= 0 {
      MulMonotone(q, 0, c);
      assert m >= 0;
    } else {
      MulMonotone(q, c + 1, 0);
      assert q * (c + 1) == m + q;
      assert m + q <= 0;
    }
  }

  /** The sign of the cents follows the sign of the amount, except that a negative amount
      of less than half a cent rounds to 0
      (and exactly half a cent rounds to -1). */
  lemma FromAmountSign(d: Decimal)
    ensures d.unscaled >= 0 ==> FromAmountCents(d) >= 0
    ensures FromAmountCents(d) >= 0 <==> 200 * d.unscaled + Pow10(d.scale) > 0
  {
    FromAmountIsNearest(d);
    SignOfNearest(d.unscaled, Pow10(d.scale), FromAmountCents(d));
  }

  lemma MoneyExamples()
    ensures FromAmountCents(Decimal(1000, 2)) == 1000       // 10.00
    ensures FromAmountCents(Decimal(10050, 2)) == 10050     // 100.50
    ensures FromAmountCents(Decimal(-10050, 2)) == -10050   // -100.50
    ensures FromAmountCents(Decimal(10, 0)) == 1000         // 10
    ensures FromAmountCents(Decimal(1005, 3)) == 101        // 1.005 rounds up
    ensures FromAmountCents(Decimal(-1005, 3)) == -101      // -1.005 rounds away from zero
    ensures FromAmountCents(Decimal(-4, 3)) == 0            // -0.004 rounds to 0
    ensures TruncatedCents(Decimal(1000, 2)) == 1000
    ensures TruncatedCents(Decimal(1999, 3)) == 199         // 1.999 truncates
    ensures TruncatedCents(Decimal(-1999, 3)) == -199
  {
  }
}
