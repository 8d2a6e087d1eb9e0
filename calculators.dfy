/** The per-merchant disbursement calculators (disbursements/services/calculators/base.rb,
    daily.rb, weekly.rb): fetch the merchant's orders, build and validate the disbursement
    attributes, and create the disbursement in the store. */
module Calculators {
  import opened Common
  import opened Strings
  import opened Calendar
  import opened OrderModel
  import opened MerchantEntities
  import opened FeeCalculator
  import PendingOrdersQuery
  import DisbursementWindow
  import DisbursementValidator
  import opened DisbursementModel

  datatype Kind = Base | Daily | Weekly

  /** A calculator object: its class, the merchant and the reference date. The repository it
      is given is the store passed to CalculateAndCreate. */
  datatype Calculator = Calculator(kind: Kind, merchant: DisbursableMerchant, date: int)

  function ClassName(k: Kind): string
  {
    match k
    case Base => "Domain::Disbursements::Services::Calculators::Base"
    case Daily => "Domain::Disbursements::Services::Calculators::Daily"
    case Weekly => "Domain::Disbursements::Services::Calculators::Weekly"
  }

  /** Weekly#process_today?: the live day and the reference date fall on the same weekday. */
  predicate ProcessToday(c: Calculator) { WeekDay(c.merchant.liveOn) == WeekDay(c.date) }

  /** `fetch_orders`, over the order table: abstract in Base, the pending-orders query in
      Daily, and the query gated on the weekday in Weekly. */
  function FetchOrders(c: Calculator, table: seq<Order>): Result<seq<Order>, Error>
  {
    match c.kind
    case Base => Err(Error(NotImplementedError, ClassName(Base) + " must implement #fetch_orders"))
    case Daily => PendingOrdersQuery.Call(table, c.date, c.merchant)
    case Weekly => if ProcessToday(c) then PendingOrdersQuery.Call(table, c.date, c.merchant) else Ok([])
  }

  /** Base raises NotImplementedError; a weekly calculator off its weekday fetches nothing;
      otherwise a calculator fetches exactly the merchant's pending orders of the table inside
      the window for its frequency, or the query's ArgumentError for an unknown frequency. */
  lemma FetchOrdersMeaning(c: Calculator, table: seq<Order>)
    ensures c.kind == Base ==>
      FetchOrders(c, table) == Err(Error(NotImplementedError, "Domain::Disbursements::Services::Calculators::Base must implement #fetch_orders"))
    ensures c.kind == Weekly && !ProcessToday(c) ==> FetchOrders(c, table) == Ok([])
    ensures (c.kind == Daily || (c.kind == Weekly && ProcessToday(c))) ==>
      && (FetchOrders(c, table).Err? <==>
            c.merchant.disbursementFrequency != "daily" && c.merchant.disbursementFrequency != "weekly")
      && (FetchOrders(c, table).Ok? ==>
            forall o :: o in FetchOrders(c, table).value <==>
              o in table && o.merchantReference == c.merchant.reference && o.pendingDisbursement
              && DisbursementWindow.InWindow(c.date, c.merchant.disbursementFrequency, o.createdAt))
  {
    BaseFetchMessage();
    PendingOrdersQuery.CallExact(table, c.date, c.merchant);
  }

  lemma BaseFetchMessage()
    ensures ClassName(Base) + " must implement #fetch_orders"
      == "Domain::Disbursements::Services::Calculators::Base must implement #fetch_orders"
  {
  }

  /** Whatever is fetched comes from the table. */
  lemma FetchedFromTable(c: Calculator, table: seq<Order>)
    requires FetchOrders(c, table).Ok?
    ensures forall o :: o in FetchOrders(c, table).value ==> o in table
  {
    if c.kind == Daily || (c.kind == Weekly && ProcessToday(c)) {
      PendingOrdersQuery.CallExact(table, c.date, c.merchant);
    }
  }

  lemma NonNegativeSubset(orders: seq<Order>, table: seq<Order>)
    requires NonNegativeAmounts(table)
    requires forall o :: o in orders ==> o in table
    ensures NonNegativeAmounts(orders)
  {
    forall i | 0 <= i < |orders| ensures orders[i].amountCents >= 0 {
      assert orders[i] in table;
    }
  }

  /** `build_disbursement_attributes`, as the validator sees them. */
  function ValidatorAttributes(c: Calculator, orders: seq<Order>): DisbursementValidator.Attributes
    requires NonNegativeAmounts(orders)
  {
    DisbursementValidator.Attributes(Some(c.merchant.id), Some(SumAmounts(orders)), Some(TotalFees(orders)), Some(orders))
  }

  /** `build_disbursement_attributes`, as passed to the repository; `Time.current.utc` is `now`. */
  function StoreAttributes(c: Calculator, orders: seq<Order>, now: int): CreateAttributes
    requires NonNegativeAmounts(orders)
  {
    CreateAttributes(c.merchant.id, SumAmounts(orders), TotalFees(orders), orders, now)
  }

  /** The built attributes always pass the validator when there are orders and the merchant
      id is not blank: the fees, being per-order roundings of a rate below 1, never exceed
      the amount, and the amount is the orders' sum by construction. */
  lemma BuiltAttributesValid(c: Calculator, orders: seq<Order>)
    requires NonNegativeAmounts(orders)
    ensures DisbursementValidator.IsValid(ValidatorAttributes(c, orders)) <==>
      |orders| > 0 && !IsBlank(c.merchant.id)
  {
    TotalFeesBounds(orders);
    DisbursementValidator.ValidIff(ValidatorAttributes(c, orders));
  }

  /** `calculate_and_create` against the order table and the disbursement table at time
      `now`: the result (nil as None) and the new disbursement table. A ValidationError is
      swallowed into None; every other error propagates. */
  function CalculateAndCreateSpec(c: Calculator, table: seq<Order>, records: seq<Disbursement>, merchantIds: set<string>, now: int)
    : (Result<Option<DisbursementEntity>, Error>, seq<Disbursement>)
    requires NonNegativeAmounts(table)
  {
    match FetchOrders(c, table)
    case Err(e) => (Err(e), records)
    case Ok(orders) =>
      if |orders| == 0 then (Ok(None), records)
      else
        FetchedFromTable(c, table);
        NonNegativeSubset(orders, table);
        if !DisbursementValidator.IsValid(ValidatorAttributes(c, orders)) then (Ok(None), records)
        else
          var (r, records') := StoreCreate(records, merchantIds, StoreAttributes(c, orders, now), now);
          match r
          case Err(e) => (Err(e), records')
          case Ok(d) => (Ok(Some(d)), records')
  }

  /** Nothing fetched: nil, and the store is not touched. */
  lemma NoOrdersNoDisbursement(c: Calculator, table: seq<Order>, records: seq<Disbursement>, merchantIds: set<string>, now: int)
    requires NonNegativeAmounts(table)
    requires FetchOrders(c, table) == Ok([])
    ensures CalculateAndCreateSpec(c, table, records, merchantIds, now) == (Ok(None), records)
  {
  }

  /** A weekday mismatch makes a weekly calculator return nil without touching the store,
      whatever the table holds. */
  lemma WeeklyMismatchDoesNothing(c: Calculator, table: seq<Order>, records: seq<Disbursement>, merchantIds: set<string>, now: int)
    requires NonNegativeAmounts(table)
    requires c.kind == Weekly && !ProcessToday(c)
    ensures CalculateAndCreateSpec(c, table, records, merchantIds, now) == (Ok(None), records)
  {
  }

  /** The store is called at most once: the table is unchanged or grows by exactly the
      returned disbursement, whose amount is the orders' sum, whose fees are their total fee,
      and which carries the merchant id, a merchant of the merchants table, and the fetched
      orders. */
  lemma CalculateAndCreateOutcome(c: Calculator, table: seq<Order>, records: seq<Disbursement>, merchantIds: set<string>, now: int)
    requires NonNegativeAmounts(table)
    ensures var (r, records') := CalculateAndCreateSpec(c, table, records, merchantIds, now);
      && (r.Ok? && r.value.Some? ==>
            && FetchOrders(c, table).Ok?
            && var orders := FetchOrders(c, table).value;
            && NonNegativeAmounts(orders)
            && |orders| > 0
            && records' == records + [r.value.value.record]
            && r.value.value.orders == orders
            && r.value.value.record.merchantId == c.merchant.id
            && c.merchant.id in merchantIds
            && r.value.value.record.amountCents == SumAmounts(orders)
            && r.value.value.record.feesAmountCents == TotalFees(orders)
            && r.value.value.record.id == DisbursementId(c.merchant.id, now))
      && (!(r.Ok? && r.value.Some?) ==> records' == records)
  {
    match FetchOrders(c, table)
    case Err(e) =>
    case Ok(orders) =>
      if |orders| > 0 {
        FetchedFromTable(c, table);
        NonNegativeSubset(orders, table);
        StoreCreateOutcome(records, merchantIds, StoreAttributes(c, orders, now), now);
      }
  }

  /** A blank merchant id is the only way validation fails, and then nil comes back with the
      store untouched. */
  lemma ValidationFailureSwallowed(c: Calculator, table: seq<Order>, records: seq<Disbursement>, merchantIds: set<string>, now: int)
    requires NonNegativeAmounts(table)
    requires IsBlank(c.merchant.id)
    ensures CalculateAndCreateSpec(c, table, records, merchantIds, now).1 == records
    ensures FetchOrders(c, table).Ok? ==> CalculateAndCreateSpec(c, table, records, merchantIds, now).0 == Ok(None)
  {
    match FetchOrders(c, table)
    case Err(e) =>
    case Ok(orders) =>
      if |orders| > 0 {
        FetchedFromTable(c, table);
        NonNegativeSubset(orders, table);
        BuiltAttributesValid(c, orders);
      }
  }

  /** Errors from fetching or from the store propagate unchanged. */
  lemma ErrorsPropagate(c: Calculator, table: seq<Order>, records: seq<Disbursement>, merchantIds: set<string>, now: int)
    requires NonNegativeAmounts(table)
    ensures FetchOrders(c, table).Err? ==>
      CalculateAndCreateSpec(c, table, records, merchantIds, now) == (Err(FetchOrders(c, table).error), records)
    ensures (FetchOrders(c, table).Ok? && |FetchOrders(c, table).value| > 0 && !IsBlank(c.merchant.id)) ==>
      (NonNegativeAmounts(FetchOrders(c, table).value) &&
       var sr := StoreCreate(records, merchantIds, StoreAttributes(c, FetchOrders(c, table).value, now), now);
       sr.0.Err? ==> CalculateAndCreateSpec(c, table, records, merchantIds, now) == (Err(sr.0.error), sr.1))
  {
    match FetchOrders(c, table)
    case Err(e) =>
    case Ok(orders) =>
      if |orders| > 0 {
        FetchedFromTable(c, table);
        NonNegativeSubset(orders, table);
        BuiltAttributesValid(c, orders);
      }
  }

  /** The validator accepts a zero fee, but the table demands fees greater than 0: for a
      merchant of the merchants table, a batch of one 1-cent order passes validation and then
      fails at create with RecordInvalid, which propagates. */
  lemma ZeroFeeBatchFailsAtCreate(c: Calculator, o: Order, records: seq<Disbursement>, merchantIds: set<string>, now: int)
    requires c.kind == Daily && c.merchant.disbursementFrequency == "daily"
    requires !IsBlank(c.merchant.id) && c.merchant.id in merchantIds
    requires o.merchantReference == c.merchant.reference && o.pendingDisbursement && o.amountCents == 1
    requires DayOf(o.createdAt) == c.date - 1
    ensures DisbursementValidator.IsValid(ValidatorAttributes(c, [o]))
    ensures CalculateAndCreateSpec(c, [o], records, merchantIds, now)
      == (Err(Error(RecordInvalid, ValidationFailed([FieldError("fees_amount_cents", MustBePositive)]))), records)
  {
    var table := [o];
    assert CalculateFee(1) == 0 by { RateOf(1); }
    assert TotalFees(table) == 0 by { assert table[1..] == []; }
    assert SumAmounts(table) == 1 by { assert table[1..] == []; }
    PendingOrdersQuery.CallExact(table, c.date, c.merchant);
    DisbursementWindow.DailyWindowIsPreviousDay(c.date, o.createdAt);
    var fetched := FetchOrders(c, table).value;
    assert o in fetched;
    assert fetched == table by {
      assert |fetched| <= 1;
      assert fetched[0] == o;
    }
    BuiltAttributesValid(c, table);
  }

  /** A concrete calculator (Daily or Weekly) only ever fails with standard errors: the
      query's ArgumentError for an unknown frequency, or the table's RecordInvalid and
      RecordNotUnique. Only Base raises NotImplementedError, which is not a StandardError. */
  lemma ConcreteErrorsAreStandard(c: Calculator, table: seq<Order>, records: seq<Disbursement>, merchantIds: set<string>, now: int)
    requires NonNegativeAmounts(table)
    requires c.kind != Base
    ensures CalculateAndCreateSpec(c, table, records, merchantIds, now).0.Err? ==>
      IsStandardError(CalculateAndCreateSpec(c, table, records, merchantIds, now).0.error)
  {
    if c.kind == Daily || ProcessToday(c) {
      PendingOrdersQuery.CallExact(table, c.date, c.merchant);
    }
  }

  /** Base is abstract: its `calculate_and_create` raises NotImplementedError. */
  lemma BaseRaises(m: DisbursableMerchant, date: int, table: seq<Order>, records: seq<Disbursement>, merchantIds: set<string>, now: int)
    requires NonNegativeAmounts(table)
    ensures var (r, records') := CalculateAndCreateSpec(Calculator(Base, m, date), table, records, merchantIds, now);
      r.Err? && !IsStandardError(r.error) && records' == records
  {
  }

  /** The calculator object, holding its own kind, merchant, date and repository. */
  class CalculatorService {
    const calculator: Calculator
    const repository: DisbursementStore

    constructor (calculator: Calculator, repository: DisbursementStore)
      ensures this.calculator == calculator && this.repository == repository
    {
      this.calculator := calculator;
      this.repository := repository;
    }

    method CalculateAndCreate(table: seq<Order>, now: int) returns (r: Result<Option<DisbursementEntity>, Error>)
      requires NonNegativeAmounts(table)
      requires repository.Valid()
      modifies repository
      ensures repository.Valid()
      ensures (r, repository.records) == CalculateAndCreateSpec(calculator, table, old(repository.records), repository.merchantIds, now)
    {
      var fetched := FetchOrders(calculator, table);
      if fetched.Err? {
        return Err(fetched.error);
      }
      var orders := fetched.value;
      if |orders| == 0 {
        return Ok(None);
      }
      FetchedFromTable(calculator, table);
      NonNegativeSubset(orders, table);
      var validator := new DisbursementValidator.Validator(ValidatorAttributes(calculator, orders));
      var ok := validator.Valid();
      if !ok {
        return Ok(None);
      }
      var created := repository.Create(StoreAttributes(calculator, orders, now), now);
      match created
      case Err(e) => r := Err(e);
      case Ok(d) => r := Ok(Some(d));
    }
  }
}
