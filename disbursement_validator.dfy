/** Validation of the attributes of a disbursement before it is stored
    (disbursements/data/validator.rb). */
module DisbursementValidator {
  import opened Common
  import opened Strings
  import opened OrderModel

  /** The attribute hash; every entry may be missing (nil). */
  datatype Attributes = Attributes(
    merchantId: Option<string>,
    amountCents: Option<int>,
    feesAmountCents: Option<int>,
    orders: Option<seq<Order>>)

  const NotNegative := "must be greater than or equal to 0"
  const FeesTooHigh := "cannot be greater than total amount"
  const SumMismatch := "must match the sum of order amounts"

  predicate MerchantIdPresent(a: Attributes) { a.merchantId.Some? && !IsBlank(a.merchantId.value) }

  predicate OrdersPresent(a: Attributes) { a.orders.Some? && |a.orders.value| > 0 }

  /** `presence: true, numericality: { greater_than_or_equal_to: 0 }` on one amount. */
  function AmountRule(attribute: string, value: Option<int>): seq<FieldError>
  {
    match value
    case None => [FieldError(attribute, CantBeBlank), FieldError(attribute, NotANumber)]
    case Some(v) => if v >= 0 then [] else [FieldError(attribute, NotNegative)]
  }

  function MerchantIdRule(a: Attributes): seq<FieldError>
  {
    if MerchantIdPresent(a) then [] else [FieldError("merchant_id", CantBeBlank)]
  }

  function OrdersRule(a: Attributes): seq<FieldError>
  {
    if OrdersPresent(a) then [] else [FieldError("orders", CantBeBlank)]
  }

  /** `fees_less_than_amount`: skipped when either amount is missing. */
  function FeesRule(a: Attributes): seq<FieldError>
  {
    if a.amountCents.Some? && a.feesAmountCents.Some? && a.feesAmountCents.value > a.amountCents.value
    then [FieldError("fees_amount_cents", FeesTooHigh)] else []
  }

  /** `orders_total_matches_amount`: skipped when the orders or the amount are missing. */
  function SumRule(a: Attributes): seq<FieldError>
  {
    if OrdersPresent(a) && a.amountCents.Some? && SumAmounts(a.orders.value) != a.amountCents.value
    then [FieldError("amount_cents", SumMismatch)] else []
  }

  /** Every violated rule, in the order the rules are declared. */
  function ExpectedErrors(a: Attributes): seq<FieldError>
  {
    MerchantIdRule(a) + AmountRule("amount_cents", a.amountCents) + AmountRule("fees_amount_cents", a.feesAmountCents)
    + OrdersRule(a) + FeesRule(a) + SumRule(a)
  }

  predicate IsValid(a: Attributes) { ExpectedErrors(a) == [] }

  /** `valid?` holds exactly when every rule holds. */
  lemma ValidIff(a: Attributes)
    ensures IsValid(a) <==>
      && MerchantIdPresent(a)
      && a.amountCents.Some? && a.amountCents.value >= 0
      && a.feesAmountCents.Some? && a.feesAmountCents.value >= 0
      && OrdersPresent(a)
      && a.feesAmountCents.value <= a.amountCents.value
      && SumAmounts(a.orders.value) == a.amountCents.value
  {
  }

  /** A missing amount or fee skips the fee comparison and the sum check: only the field's own
      presence and numericality messages are reported for it. */
  lemma MissingFieldReportsOnlyItsOwnRules(a: Attributes)
    requires a.amountCents.None?
    ensures FieldError("amount_cents", CantBeBlank) in ExpectedErrors(a)
    ensures FieldError("fees_amount_cents", FeesTooHigh) !in ExpectedErrors(a)
    ensures FieldError("amount_cents", SumMismatch) !in ExpectedErrors(a)
  {
  }

  lemma ValidatorExamples(id: string, o: Order)
    requires !IsBlank(id)
    ensures var orders := [o.(amountCents := 1000), o.(amountCents := 2000)];
      && IsValid(Attributes(Some(id), Some(3000), Some(30), Some(orders)))
      && IsValid(Attributes(Some(id), Some(3000), Some(3000), Some(orders)))
      && ExpectedErrors(Attributes(Some(id), Some(3000), Some(3001), Some(orders)))
           == [FieldError("fees_amount_cents", FeesTooHigh)]
      && ExpectedErrors(Attributes(Some(id), Some(5000), Some(30), Some(orders)))
           == [FieldError("amount_cents", SumMismatch)]
      && ExpectedErrors(Attributes(Some(id), Some(-1000), Some(30), Some(orders)))
           == [FieldError("amount_cents", NotNegative), FieldError("fees_amount_cents", FeesTooHigh),
               FieldError("amount_cents", SumMismatch)]
      && ExpectedErrors(Attributes(Some(id), Some(3000), Some(30), Some([])))
           == [FieldError("orders", CantBeBlank)]
  {
    var orders := [o.(amountCents := 1000), o.(amountCents := 2000)];
    assert SumAmounts(orders) == 3000 by {
      var tail := [o.(amountCents := 2000)];
      assert orders[1..] == tail;
      assert tail[1..] == [];
      assert SumAmounts(tail) == 2000;
    }
  }

  /** Zero amounts with a zero order pass; missing and blank fields are each reported. */
  lemma BlankAndZeroExamples(id: string, o: Order)
    requires !IsBlank(id)
    ensures IsValid(Attributes(Some(id), Some(0), Some(0), Some([o.(amountCents := 0)])))
    ensures ExpectedErrors(Attributes(None, Some(0), Some(-10), None))
              == [FieldError("merchant_id", CantBeBlank), FieldError("fees_amount_cents", NotNegative),
                  FieldError("orders", CantBeBlank)]
    ensures ExpectedErrors(Attributes(Some(" "), None, Some(10), None))
              == [FieldError("merchant_id", CantBeBlank), FieldError("amount_cents", CantBeBlank),
                  FieldError("amount_cents", NotANumber), FieldError("orders", CantBeBlank)]
  {
    assert SumAmounts([o.(amountCents := 0)]) == 0 by {
      assert [o.(amountCents := 0)][1..] == [];
    }
    assert IsBlank(" ") by {
      assert IsSpace(" "[0]);
    }
  }

  /** ActiveModel's validator object: `valid?` clears the errors collection and lets each rule
      add its messages in turn. */
  class Validator {
    const attributes: Attributes
    var errors: seq<FieldError>

    constructor (a: Attributes)
      ensures attributes == a && errors == []
    {
      attributes := a;
      errors := [];
    }

    method Valid() returns (ok: bool)
      modifies this
      ensures errors == ExpectedErrors(attributes)
      ensures ok <==> IsValid(attributes)
    {
      var a := attributes;
      errors := [];
      if !MerchantIdPresent(a) {
        errors := errors + [FieldError("merchant_id", CantBeBlank)];
      }
      assert errors == MerchantIdRule(a);
      errors := errors + AmountRule("amount_cents", a.amountCents);
      errors := errors + AmountRule("fees_amount_cents", a.feesAmountCents);
      if !OrdersPresent(a) {
        errors := errors + [FieldError("orders", CantBeBlank)];
      }
      ghost var before := errors;
      assert before == MerchantIdRule(a) + AmountRule("amount_cents", a.amountCents)
        + AmountRule("fees_amount_cents", a.feesAmountCents) + OrdersRule(a);
      // fees_less_than_amount
      if a.amountCents.Some? && a.feesAmountCents.Some? {
        if a.feesAmountCents.value > a.amountCents.value {
          errors := errors + [FieldError("fees_amount_cents", FeesTooHigh)];
        }
      }
      assert errors == before + FeesRule(a);
      // orders_total_matches_amount
      if OrdersPresent(a) && a.amountCents.Some? {
        var total := SumAmounts(a.orders.value);
        if total != a.amountCents.value {
          errors := errors + [FieldError("amount_cents", SumMismatch)];
        }
      }
      assert errors == before + FeesRule(a) + SumRule(a);
      ok := errors == [];
    }
  }
}
