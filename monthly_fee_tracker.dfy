/** The monthly minimum-fee tracker (fees/services/monthly_fee_tracker.rb): tops a merchant's
    month up to its minimum monthly fee with one adjustment. */
module MonthlyFeeTracker {
  import opened Common
  import opened MerchantEntities
  import opened DisbursementModel
  import opened MonthlyFeeAdjustments
  import opened MonthlyFeeRepository

  /** `process_merchant(merchant, month, year)` over the repository's tables: the created
      adjustment (None for nil) or the error raised, and the adjustments afterwards. */
  function ProcessMerchantSpec(disbursements: seq<Disbursement>, adjustments: seq<Adjustment>, merchantIds: set<string>, m: Merchant, month: int, year: int)
    : (Result<Option<Adjustment>, Error>, seq<Adjustment>)
  {
    if AdjustmentExists(adjustments, m.id, month, year) then (Ok(None), adjustments)
    else
      match TotalFeesForMonth(disbursements, m.id, month, year)
      case Err(e) => (Err(e), adjustments)
      case Ok(total) =>
        var difference := m.minimumMonthlyFeeCents - total;
        if difference > 0 then
          var (r, adjustments') := Insert(adjustments, merchantIds, CreateAdjustmentAttributes(m.id, difference, month, year));
          match r
          case Err(e) => (Err(e), adjustments')
          case Ok(a) => (Ok(Some(a)), adjustments')
        else (Ok(None), adjustments)
  }

  /** The tracker's difference is the merchant entity's monthly fee: the adjustment created
      is exactly `calculate_monthly_fee` when that is positive, and none is created when it
      is 0. */
  lemma AgreesWithMerchantFee(disbursements: seq<Disbursement>, adjustments: seq<Adjustment>, merchantIds: set<string>, m: Merchant, month: int, year: int)
    requires 1 <= month <= 12 && m.id in merchantIds
    requires !AdjustmentExists(adjustments, m.id, month, year)
    ensures var total := TotalFeesForMonth(disbursements, m.id, month, year).value;
      var (r, _) := ProcessMerchantSpec(disbursements, adjustments, merchantIds, m, month, year);
      && r.Ok?
      && (r.value.Some? <==> CalculateMonthlyFee(m, total) > 0)
      && (r.value.Some? ==> r.value.value == Adjustment(m.id, CalculateMonthlyFee(m, total), month, year))
  {
    TotalFeesForMonthMeaning(disbursements, m.id, month, year);
    var total := TotalFeesForMonth(disbursements, m.id, month, year).value;
    if m.minimumMonthlyFeeCents - total > 0 {
      ExistsIffDuplicate(adjustments, m.id, m.minimumMonthlyFeeCents - total, month, year);
    }
  }

  /** An existing adjustment for the key stops the tracker before any fee is read: nothing
      is created whatever the disbursements are. */
  lemma ExistingAdjustmentStops(d1: seq<Disbursement>, d2: seq<Disbursement>, adjustments: seq<Adjustment>, merchantIds: set<string>, m: Merchant, month: int, year: int)
    requires AdjustmentExists(adjustments, m.id, month, year)
    ensures ProcessMerchantSpec(d1, adjustments, merchantIds, m, month, year) == (Ok(None), adjustments)
    ensures ProcessMerchantSpec(d1, adjustments, merchantIds, m, month, year) == ProcessMerchantSpec(d2, adjustments, merchantIds, m, month, year)
  {
  }

  /** At most one adjustment is added, it is for this merchant, month and year, its amount
      is the positive difference between the minimum and the month's fees, and the table
      keeps its invariants, so every other key is untouched. */
  lemma ProcessMerchantOutcome(disbursements: seq<Disbursement>, adjustments: seq<Adjustment>, merchantIds: set<string>, m: Merchant, month: int, year: int)
    requires UniqueKeys(adjustments) && MonthlyFeeAdjustments.AllValid(adjustments)
    ensures var (r, adjustments') := ProcessMerchantSpec(disbursements, adjustments, merchantIds, m, month, year);
      && UniqueKeys(adjustments') && MonthlyFeeAdjustments.AllValid(adjustments')
      && (r.Ok? && r.value.Some? ==>
            && adjustments' == adjustments + [r.value.value]
            && !AdjustmentExists(adjustments, m.id, month, year)
            && TotalFeesForMonth(disbursements, m.id, month, year).Ok?
            && r.value.value.merchantId == m.id && r.value.value.month == month && r.value.value.year == year
            && r.value.value.amountCents > 0
            && r.value.value.amountCents == m.minimumMonthlyFeeCents - TotalFeesForMonth(disbursements, m.id, month, year).value)
      && (!(r.Ok? && r.value.Some?) ==> adjustments' == adjustments)
  {
    if !AdjustmentExists(adjustments, m.id, month, year) {
      match TotalFeesForMonth(disbursements, m.id, month, year)
      case Err(e) =>
      case Ok(total) =>
        if m.minimumMonthlyFeeCents - total > 0 {
          InsertOutcome(adjustments, merchantIds, CreateAdjustmentAttributes(m.id, m.minimumMonthlyFeeCents - total, month, year));
        }
    }
  }

  /** Processing the same merchant, month and year twice leaves the adjustments as one call
      does: a created adjustment blocks the second call, and a call that creates nothing
      changes nothing. */
  lemma ProcessMerchantIdempotent(disbursements: seq<Disbursement>, adjustments: seq<Adjustment>, merchantIds: set<string>, m: Merchant, month: int, year: int)
    requires UniqueKeys(adjustments) && MonthlyFeeAdjustments.AllValid(adjustments)
    ensures var once := ProcessMerchantSpec(disbursements, adjustments, merchantIds, m, month, year).1;
      ProcessMerchantSpec(disbursements, once, merchantIds, m, month, year).1 == once
    ensures var once := ProcessMerchantSpec(disbursements, adjustments, merchantIds, m, month, year).1;
      ProcessMerchantSpec(disbursements, once, merchantIds, m, month, year).0.Ok? ==>
      ProcessMerchantSpec(disbursements, once, merchantIds, m, month, year).0 == Ok(None)
  {
    ProcessMerchantOutcome(disbursements, adjustments, merchantIds, m, month, year);
    var (r, once) := ProcessMerchantSpec(disbursements, adjustments, merchantIds, m, month, year);
    if r.Ok? && r.value.Some? {
      var total := TotalFeesForMonth(disbursements, m.id, month, year).value;
      ExistsAfterCreate(adjustments, merchantIds, m.id, m.minimumMonthlyFeeCents - total, month, year, m.id, month, year);
    }
  }

  /** Minimum 2900 with 1500 of fees creates one adjustment of 1400; with 3000 of fees it
      creates none. */
  lemma TrackerExamples(disbursements: seq<Disbursement>, merchantIds: set<string>, m: Merchant)
    requires m.minimumMonthlyFeeCents == 2900 && m.id in merchantIds
    ensures TotalFeesForMonth(disbursements, m.id, 1, 2024) == Ok(1500) ==>
      ProcessMerchantSpec(disbursements, [], merchantIds, m, 1, 2024) == (Ok(Some(Adjustment(m.id, 1400, 1, 2024))), [Adjustment(m.id, 1400, 1, 2024)])
    ensures TotalFeesForMonth(disbursements, m.id, 1, 2024) == Ok(3000) ==>
      ProcessMerchantSpec(disbursements, [], merchantIds, m, 1, 2024) == (Ok(None), [])
  {
    var row := Adjustment(m.id, 1400, 1, 2024);
    ValidIff([], merchantIds, CreateAdjustmentAttributes(m.id, 1400, 1, 2024));
    assert Insert([], merchantIds, CreateAdjustmentAttributes(m.id, 1400, 1, 2024)) == (Ok(row), [] + [row]);
    assert [] + [row] == [row];
  }

  /** The tracker object and its repository. */
  class Tracker {
    const repository: MonthlyFeeStore

    constructor (repository: MonthlyFeeStore)
      ensures this.repository == repository
    {
      this.repository := repository;
    }

    method ProcessMerchant(m: Merchant, month: int, year: int) returns (r: Result<Option<Adjustment>, Error>)
      requires repository.Valid()
      modifies repository
      ensures repository.Valid() && repository.disbursements == old(repository.disbursements)
      ensures (r, repository.adjustments) == ProcessMerchantSpec(repository.disbursements, old(repository.adjustments), repository.merchantIds, m, month, year)
    {
      if AdjustmentExists(repository.adjustments, m.id, month, year) {
        return Ok(None);
      }
      var total := TotalFeesForMonth(repository.disbursements, m.id, month, year);
      if total.Err? {
        return Err(total.error);
      }
      var difference := m.minimumMonthlyFeeCents - total.value;
      if difference > 0 {
        var created := repository.CreateMonthlyAdjustment(m.id, difference, month, year);
        match created
        case Err(e) => r := Err(e);
        case Ok(a) => r := Ok(Some(a));
      } else {
        r := Ok(None);
      }
    }
  }
}
