/** The tiered fee schedule (disbursements/services/fee_calculator.rb). Rates are exact
    basis points and the product is rounded half up, in place of the source's floats. */
module FeeCalculator {
  import opened Common
  import opened OrderModel

  /** One entry of FEE_TIERS: a range of cents and its rate in basis points.
      `hi == None` is the endless range `(lo..)`. */
  datatype Tier = Tier(lo: int, hi: Option<int>, includesHi: bool, basisPoints: nat)

  predicate InTier(t: Tier, amountCents: int)
  {
    && t.lo <= amountCents
    && match t.hi
       case None => true
       case Some(h) => if t.includesHi then amountCents <= h else amountCents < h
  }

  /** FEE_TIERS in their declared order: `0...5000`, `5000..30000`, `30000..`. */
  const FeeTiers: seq<Tier> := [
    Tier(0, Some(5000), false, 100),
    Tier(5000, Some(30000), true, 95),
    Tier(30000, None, false, 85)
  ]

  /** `FEE_TIERS.find { |range, _| range.include?(amount) }&.last`: the first tier that holds
      the amount decides the rate. */
  function FindRate(tiers: seq<Tier>, amountCents: int): (r: Option<nat>)
    ensures r.Some? <==> exists k :: 0 <= k < |tiers| && InTier(tiers[k], amountCents)
  {
    if |tiers| == 0 then None
    else if InTier(tiers[0], amountCents) then Some(tiers[0].basisPoints)
    else
      var r := FindRate(tiers[1..], amountCents);
      assert forall k :: 1 <= k < |tiers| ==> tiers[k] == tiers[1..][k - 1];
      r
  }

  /** The rate of each range of amounts. 30000 is charged 95 basis points: the inclusive
      middle range is listed before the one starting at 30000. A negative amount has no rate. */
  lemma RateOf(amountCents: int)
    ensures amountCents < 0 ==> FindRate(FeeTiers, amountCents) == None
    ensures 0 <= amountCents < 5000 ==> FindRate(FeeTiers, amountCents) == Some(100)
    ensures 5000 <= amountCents <= 30000 ==> FindRate(FeeTiers, amountCents) == Some(95)
    ensures 30000 < amountCents ==> FindRate(FeeTiers, amountCents) == Some(85)
  {
    var rest := FeeTiers[1..];
    assert rest == [FeeTiers[1], FeeTiers[2]];
    assert rest[1..] == [FeeTiers[2]];
    assert rest[1..][1..] == [];
    if !InTier(FeeTiers[0], amountCents) {
      assert FindRate(FeeTiers, amountCents) == FindRate(rest, amountCents);
      if !InTier(FeeTiers[1], amountCents) {
        assert FindRate(rest, amountCents) == FindRate(rest[1..], amountCents);
        if !InTier(FeeTiers[2], amountCents) {
          assert FindRate(rest[1..], amountCents) == FindRate(rest[1..][1..], amountCents);
        }
      }
    }
  }

  function Rate(amountCents: int): (bp: nat)
    requires amountCents >= 0
    ensures bp == 100 || bp == 95 || bp == 85
  {
    RateOf(amountCents);
    FindRate(FeeTiers, amountCents).value
  }

  /** `(amount_cents * fee_percentage).round` for a non-negative amount. */
  function CalculateFee(amountCents: int): (fee: int)
    requires amountCents >= 0
  {
    (amountCents * Rate(amountCents) + 5000) / 10000
  }

  /** The fee is the product rounded to the nearest cent, halves rounded up. */
  lemma FeeIsRoundedHalfUp(amountCents: int)
    requires amountCents >= 0
    ensures 10000 * CalculateFee(amountCents) - 5000 <= amountCents * Rate(amountCents)
    ensures amountCents * Rate(amountCents) < 10000 * CalculateFee(amountCents) + 5000
  {
  }

  /** For every amount the fee is between 0 and the amount itself. */
  lemma FeeBounds(amountCents: int)
    requires amountCents >= 0
    ensures 0 <= CalculateFee(amountCents) <= amountCents
  {
    var bp := Rate(amountCents);
    if amountCents > 0 {
      assert amountCents * bp <= amountCents * 100;
      assert amountCents * bp + 5000 <= amountCents * 10000;
    }
  }

  lemma FeeExamples()
    ensures CalculateFee(2000) == 20 && CalculateFee(3000) == 30
    ensures CalculateFee(4999) == 50 && CalculateFee(1) == 0
    ensures CalculateFee(5000) == 48 && CalculateFee(6000) == 57
    ensures CalculateFee(10000) == 95 && CalculateFee(20000) == 190
    ensures CalculateFee(29999) == 285 && CalculateFee(30000) == 285
    ensures CalculateFee(35000) == 298 && CalculateFee(45000) == 383
    ensures CalculateFee(10_000_000) == 85_000
  {
    RateOf(2000); RateOf(3000); RateOf(4999); RateOf(1); RateOf(5000); RateOf(6000);
    RateOf(10000); RateOf(20000); RateOf(29999); RateOf(30000); RateOf(35000); RateOf(45000);
    RateOf(10_000_000);
  }

  /** `calculate_total_fees`: each order's fee is rounded on its own, then summed. */
  function TotalFees(orders: seq<Order>): int
    requires NonNegativeAmounts(orders)
  {
    if |orders| == 0 then 0 else CalculateFee(orders[0].amountCents) + TotalFees(orders[1..])
  }

  /** The fee of a concatenation is the sum of the parts' fees. */
  lemma {:induction false} TotalFeesAppend(a: seq<Order>, b: seq<Order>)
    requires NonNegativeAmounts(a) && NonNegativeAmounts(b)
    ensures NonNegativeAmounts(a + b)
    ensures TotalFees(a + b) == TotalFees(a) + TotalFees(b)
  {
    if |a| == 0 {
      assert a + b == b;
    } else {
      assert (a + b)[1..] == a[1..] + b;
      TotalFeesAppend(a[1..], b);
    }
  }

  /** Summed fees lie between 0 and the summed amounts. */
  lemma {:induction false} TotalFeesBounds(orders: seq<Order>)
    requires NonNegativeAmounts(orders)
    ensures 0 <= TotalFees(orders) <= SumAmounts(orders)
  {
    if |orders| > 0 {
      FeeBounds(orders[0].amountCents);
      TotalFeesBounds(orders[1..]);
    }
  }

  lemma TotalFeesExamples(o: Order)
    ensures TotalFees([]) == 0
    ensures TotalFees([o.(amountCents := 4000), o.(amountCents := 6000), o.(amountCents := 35000)]) == 395
    ensures TotalFees([o.(amountCents := 5000), o.(amountCents := 3000)]) == 78
    ensures TotalFees([o.(amountCents := 29999), o.(amountCents := 30000)]) == 570
  {
    FeeExamples();
    RateOf(4000);
    var s := [o.(amountCents := 4000), o.(amountCents := 6000), o.(amountCents := 35000)];
    assert s[1..] == [o.(amountCents := 6000), o.(amountCents := 35000)];
    assert s[1..][1..] == [o.(amountCents := 35000)];
    assert TotalFees(s[1..][1..]) == 298 by { assert s[1..][1..][1..] == []; }
    assert TotalFees(s[1..]) == 57 + 298;
    var u := [o.(amountCents := 5000), o.(amountCents := 3000)];
    assert u[1..] == [o.(amountCents := 3000)];
    assert TotalFees(u[1..]) == 30 by { assert u[1..][1..] == []; }
    var w := [o.(amountCents := 29999), o.(amountCents := 30000)];
    assert w[1..] == [o.(amountCents := 30000)];
    assert TotalFees(w[1..]) == 285 by { assert w[1..][1..] == []; }
  }
}
