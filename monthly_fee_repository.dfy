/** The monthly fee repository (fees/repositories/monthly_fee_repository.rb) over in-memory
    disbursement and adjustment tables. */
module MonthlyFeeRepository {
  import opened Common
  import opened Calendar
  import opened DisbursementModel
  import opened MonthlyFeeAdjustments

  /** `Date.new(year, month, 1)`: the month's first day, or Date::Error (an ArgumentError)
      for a month outside 1..12 and -12..-1. */
  function MonthStart(month: int, year: int): Result<int, Error>
  {
    if ValidCivilMonth(month) then Ok(DaysFromCivil(year, CivilMonth(month), 1))
    else Err(Error(ArgumentError, "invalid date"))
  }

  /** `start_date.end_of_month`. */
  function MonthLastDay(month: int, year: int): int
    requires ValidCivilMonth(month)
  {
    DaysFromCivil(year, CivilMonth(month), 1) + DaysInMonth(year, CivilMonth(month)) - 1
  }

  /** The fees of one merchant's disbursements created between two instants, inclusive. */
  function FeesBetween(records: seq<Disbursement>, merchantId: string, from: int, to: int): int
  {
    if |records| == 0 then 0
    else
      (if records[0].merchantId == merchantId && from <= records[0].createdAt <= to then records[0].feesAmountCents else 0)
      + FeesBetween(records[1..], merchantId, from, to)
  }

  /** `total_fees_for_month` as written: the range of two dates is compared against the
      `created_at` instants at midnight, so it ends at the first second of the month's last
      day. */
  function TotalFeesForMonthAsWritten(records: seq<Disbursement>, merchantId: string, month: int, year: int): Result<int, Error>
  {
    match MonthStart(month, year)
    case Err(e) => Err(e)
    case Ok(first) => Ok(FeesBetween(records, merchantId, BeginningOfDay(first), BeginningOfDay(MonthLastDay(month, year))))
  }

  /** `total_fees_for_month` covering the whole calendar month, last day included. */
  function TotalFeesForMonth(records: seq<Disbursement>, merchantId: string, month: int, year: int): Result<int, Error>
  {
    match MonthStart(month, year)
    case Err(e) => Err(e)
    case Ok(first) => Ok(FeesBetween(records, merchantId, BeginningOfDay(first), EndOfDay(MonthLastDay(month, year))))
  }

  /** The disbursements `total_fees_for_month` is meant to count: this merchant's, created on
      a day of that month (by `created_at`, not `disbursed_at`). */
  predicate CountsForMonth(d: Disbursement, merchantId: string, month: int, year: int)
    requires ValidCivilMonth(month)
  {
    d.merchantId == merchantId
    && DaysFromCivil(year, CivilMonth(month), 1) <= DayOf(d.createdAt) <= MonthLastDay(month, year)
  }

  /** The fees the month is meant to total, stated by days. */
  function MonthFees(records: seq<Disbursement>, merchantId: string, month: int, year: int): int
    requires ValidCivilMonth(month)
  {
    if |records| == 0 then 0
    else
      (if CountsForMonth(records[0], merchantId, month, year) then records[0].feesAmountCents else 0)
      + MonthFees(records[1..], merchantId, month, year)
  }

  /** The corrected total is exactly the sum over the disbursements created in the month;
      an impossible month raises "invalid date". */
  lemma {:induction false} TotalFeesForMonthMeaning(records: seq<Disbursement>, merchantId: string, month: int, year: int)
    ensures TotalFeesForMonth(records, merchantId, month, year).Err? <==> !ValidCivilMonth(month)
    ensures !ValidCivilMonth(month) ==> TotalFeesForMonth(records, merchantId, month, year) == Err(Error(ArgumentError, "invalid date"))
    ensures ValidCivilMonth(month) ==> TotalFeesForMonth(records, merchantId, month, year) == Ok(MonthFees(records, merchantId, month, year))
    decreases |records|
  {
    if ValidCivilMonth(month) && |records| > 0 {
      TotalFeesForMonthMeaning(records[1..], merchantId, month, year);
      var first := DaysFromCivil(year, CivilMonth(month), 1);
      var last := MonthLastDay(month, year);
      DaySpan(records[0].createdAt, first, last);
    }
  }

  /** Other merchants' disbursements never count, and with no matching disbursement the
      total is 0. */
  lemma {:induction false} OnlyOwnFees(records: seq<Disbursement>, merchantId: string, from: int, to: int)
    requires forall i :: 0 <= i < |records| ==> records[i].merchantId != merchantId || !(from <= records[i].createdAt <= to)
    ensures FeesBetween(records, merchantId, from, to) == 0
  {
    if |records| > 0 {
      OnlyOwnFees(records[1..], merchantId, from, to);
    }
  }

  /** Appending a disbursement adds its fees exactly when it is this merchant's and falls in
      the range. */
  lemma {:induction false} FeesBetweenAppend(records: seq<Disbursement>, d: Disbursement, merchantId: string, from: int, to: int)
    ensures FeesBetween(records + [d], merchantId, from, to)
      == FeesBetween(records, merchantId, from, to) + (if d.merchantId == merchantId && from <= d.createdAt <= to then d.feesAmountCents else 0)
  {
    if |records| == 0 {
      assert ([] + [d])[1..] == [];
    } else {
      assert (records + [d])[1..] == records[1..] + [d];
      FeesBetweenAppend(records[1..], d, merchantId, from, to);
    }
  }

  /** Disbursements on the 15th and 20th of the month count, one at the start of the next
      day after the month's end does not: 1000 + 500. */
  lemma MonthTotalExample(merchantId: string, month: int, year: int, d1: Disbursement, d2: Disbursement, d3: Disbursement)
    requires 1 <= month <= 12
    requires d1.merchantId == merchantId && d2.merchantId == merchantId && d3.merchantId == merchantId
    requires d1.feesAmountCents == 1000 && d2.feesAmountCents == 500 && d3.feesAmountCents == 300
    requires d1.createdAt == BeginningOfDay(DaysFromCivil(year, month, 15))
    requires d2.createdAt == BeginningOfDay(DaysFromCivil(year, month, 20))
    requires d3.createdAt == BeginningOfDay(MonthLastDay(month, year) + 1)
    ensures TotalFeesForMonth([d1, d2, d3], merchantId, month, year) == Ok(1500)
    ensures TotalFeesForMonth([], merchantId, month, year) == Ok(0)
  {
    var first := DaysFromCivil(year, month, 1);
    assert DaysFromCivil(year, month, 15) == first + 14;
    assert DaysFromCivil(year, month, 20) == first + 19;
    var last := MonthLastDay(month, year);
    var lo, hi := BeginningOfDay(first), EndOfDay(last);
    assert MonthStart(month, year) == Ok(first);
    DaySpan(d1.createdAt, first, last);
    DaySpan(d2.createdAt, first, last);
    DaySpan(d3.createdAt, first, last);
    assert FeesBetween([d3], merchantId, lo, hi) == 0 + FeesBetween([], merchantId, lo, hi);
    assert FeesBetween([d2, d3], merchantId, lo, hi) == 500 + FeesBetween([d3], merchantId, lo, hi);
    assert FeesBetween([d1, d2, d3], merchantId, lo, hi) == 1000 + FeesBetween([d2, d3], merchantId, lo, hi);
    assert [d1, d2, d3][1..] == [d2, d3];
    assert [d2, d3][1..] == [d3];
    assert [d3][1..] == [];
    assert FeesBetween([d3], merchantId, lo, hi) == 0;
  }

  /** As written, a disbursement created after midnight on the month's last day is left out
      of that month's total; the corrected total counts it. */
  lemma LastDayExcludedAsWritten(d: Disbursement, month: int, year: int)
    requires ValidCivilMonth(month)
    requires d.createdAt == BeginningOfDay(MonthLastDay(month, year)) + 43200
    ensures TotalFeesForMonthAsWritten([d], d.merchantId, month, year) == Ok(0)
    ensures TotalFeesForMonth([d], d.merchantId, month, year) == Ok(d.feesAmountCents)
  {
    var first, last := DaysFromCivil(year, CivilMonth(month), 1), MonthLastDay(month, year);
    DayBoundariesOrdered(first, last);
    assert [d][1..] == [];
    assert MonthStart(month, year) == Ok(first);
    assert BeginningOfDay(first) <= d.createdAt <= EndOfDay(last);
    assert !(d.createdAt <= BeginningOfDay(last));
    assert FeesBetween([d], d.merchantId, BeginningOfDay(first), BeginningOfDay(last)) == 0 + FeesBetween([], d.merchantId, BeginningOfDay(first), BeginningOfDay(last));
    assert FeesBetween([d], d.merchantId, BeginningOfDay(first), EndOfDay(last)) == d.feesAmountCents + FeesBetween([], d.merchantId, BeginningOfDay(first), EndOfDay(last));
  }

  /** `adjustment_exists?`. */
  predicate AdjustmentExists(adjustments: seq<Adjustment>, merchantId: string, month: int, year: int)
  {
    exists i :: 0 <= i < |adjustments| && adjustments[i].merchantId == merchantId
      && adjustments[i].month == month && adjustments[i].year == year
  }

  /** `create_monthly_adjustment(merchant:, amount:, month:, year:)`. */
  function CreateAdjustmentAttributes(merchantId: string, amount: int, month: int, year: int): AdjustmentAttributes
  {
    AdjustmentAttributes(Some(merchantId), Some(amount), Some(month), Some(year))
  }

  /** An adjustment exists exactly when the uniqueness rule would reject a new one for the
      same merchant, month and year. */
  lemma ExistsIffDuplicate(adjustments: seq<Adjustment>, merchantId: string, amount: int, month: int, year: int)
    ensures AdjustmentExists(adjustments, merchantId, month, year)
      <==> Duplicate(adjustments, CreateAdjustmentAttributes(merchantId, amount, month, year))
  {
  }

  /** A created adjustment makes `adjustment_exists?` true for its key and leaves it
      unchanged for every other key. */
  lemma ExistsAfterCreate(adjustments: seq<Adjustment>, merchantIds: set<string>, merchantId: string, amount: int, month: int, year: int,
                          m': string, month': int, year': int)
    ensures var (r, adjustments') := Insert(adjustments, merchantIds, CreateAdjustmentAttributes(merchantId, amount, month, year));
      r.Ok? ==>
        && AdjustmentExists(adjustments', merchantId, month, year)
        && ((m', month', year') != (merchantId, month, year) ==>
              (AdjustmentExists(adjustments', m', month', year') <==> AdjustmentExists(adjustments, m', month', year')))
  {
    var (r, adjustments') := Insert(adjustments, merchantIds, CreateAdjustmentAttributes(merchantId, amount, month, year));
    if r.Ok? {
      assert adjustments'[|adjustments|] == r.value;
      if (m', month', year') != (merchantId, month, year) && AdjustmentExists(adjustments', m', month', year') {
        var i :| 0 <= i < |adjustments'| && adjustments'[i].merchantId == m' && adjustments'[i].month == month' && adjustments'[i].year == year';
        assert i < |adjustments| && adjustments[i] == adjustments'[i];
      }
      if AdjustmentExists(adjustments, m', month', year') {
        var i :| 0 <= i < |adjustments| && adjustments[i].merchantId == m' && adjustments[i].month == month' && adjustments[i].year == year';
        assert adjustments'[i] == adjustments[i];
      }
    }
  }

  /** The repository's tables. */
  class MonthlyFeeStore {
    var disbursements: seq<Disbursement>
    var adjustments: seq<Adjustment>
    /** The ids of the merchants table, which an adjustment's merchant must be among. */
    const merchantIds: set<string>

    ghost predicate Valid() reads this { UniqueKeys(adjustments) && MonthlyFeeAdjustments.AllValid(adjustments) }

    constructor (disbursements: seq<Disbursement>, merchantIds: set<string>)
      ensures this.disbursements == disbursements && this.merchantIds == merchantIds
      ensures adjustments == [] && Valid()
    {
      this.disbursements := disbursements;
      this.merchantIds := merchantIds;
      adjustments := [];
    }

    /** `create_monthly_adjustment`: the insert adds one record with the given merchant,
        amount, month and year, or fails and adds none; disbursements are untouched. */
    method CreateMonthlyAdjustment(merchantId: string, amount: int, month: int, year: int) returns (r: Result<Adjustment, Error>)
      requires Valid()
      modifies this
      ensures Valid() && disbursements == old(disbursements)
      ensures (r, adjustments) == Insert(old(adjustments), merchantIds, CreateAdjustmentAttributes(merchantId, amount, month, year))
    {
      var a := CreateAdjustmentAttributes(merchantId, amount, month, year);
      InsertOutcome(adjustments, merchantIds, a);
      var errs := Errors(adjustments, merchantIds, a);
      if errs != [] {
        return Err(Error(RecordInvalid, ValidationFailed(errs)));
      }
      var row := Adjustment(merchantId, amount, month, year);
      adjustments := adjustments + [row];
      r := Ok(row);
    }
  }
}
