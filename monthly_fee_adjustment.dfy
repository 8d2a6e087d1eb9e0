/** The monthly fee adjustment record (persistence model monthly_fee_adjustment.rb and its
    table): the top-up charged when a merchant's fees for a month fall short of the minimum. */
module MonthlyFeeAdjustments {
  import opened Common
  import DisbursementModel
  import Strings

  /** A stored row: the merchant's id, the amount in cents, and the month and year it covers. */
  datatype Adjustment = Adjustment(merchantId: string, amountCents: int, month: int, year: int)

  /** The attributes given to `create!`; None stands for nil. */
  datatype AdjustmentAttributes = AdjustmentAttributes(
    merchantId: Option<string>,
    amountCents: Option<int>,
    month: Option<int>,
    year: Option<int>)

  const MustBePositive := "must be greater than 0"
  const AtMostTwelve := "must be less than or equal to 12"
  const AlreadyAdjusted := "already has an adjustment for this month/year"

  /** The required `belongs_to :merchant`: the id must be one of `merchantIds`, the ids of
      the merchants table. */
  function MerchantExistsRule(merchantIds: set<string>, v: Option<string>): seq<FieldError>
  {
    if v.Some? && v.value in merchantIds then [] else [FieldError("merchant", MustExist)]
  }

  function AmountRule(v: Option<int>): seq<FieldError>
  {
    match v
    case None => [FieldError("amount_cents", CantBeBlank), FieldError("amount_cents", NotANumber)]
    case Some(a) => if a > 0 then [] else [FieldError("amount_cents", MustBePositive)]
  }

  function MonthRule(v: Option<int>): seq<FieldError>
  {
    match v
    case None => [FieldError("month", CantBeBlank), FieldError("month", NotANumber)]
    case Some(m) =>
      (if m > 0 then [] else [FieldError("month", MustBePositive)])
      + (if m <= 12 then [] else [FieldError("month", AtMostTwelve)])
  }

  function YearRule(v: Option<int>): seq<FieldError>
  {
    if v.None? then [FieldError("year", CantBeBlank), FieldError("year", NotANumber)] else []
  }

  /** `validates :merchant, presence: true` checks the associated record, which is nil both
      for a nil id and for an id that names no merchant. */
  function MerchantPresenceRule(merchantIds: set<string>, v: Option<string>): seq<FieldError>
  {
    if v.Some? && v.value in merchantIds then [] else [FieldError("merchant", CantBeBlank)]
  }

  /** The uniqueness of month scoped to merchant and year: a nil in any of the three matches
      no stored row, since every stored column is NOT NULL. */
  predicate Duplicate(records: seq<Adjustment>, a: AdjustmentAttributes)
  {
    a.merchantId.Some? && a.month.Some? && a.year.Some? &&
    exists i :: 0 <= i < |records| && records[i].merchantId == a.merchantId.value
      && records[i].month == a.month.value && records[i].year == a.year.value
  }

  function UniquenessRule(records: seq<Adjustment>, a: AdjustmentAttributes): seq<FieldError>
  {
    if Duplicate(records, a) then [FieldError("month", AlreadyAdjusted)] else []
  }

  /** The validation errors, in the order the rules are declared. */
  function Errors(records: seq<Adjustment>, merchantIds: set<string>, a: AdjustmentAttributes): seq<FieldError>
  {
    MerchantExistsRule(merchantIds, a.merchantId) + AmountRule(a.amountCents) + MonthRule(a.month)
    + YearRule(a.year) + MerchantPresenceRule(merchantIds, a.merchantId) + UniquenessRule(records, a)
  }

  predicate Acceptable(records: seq<Adjustment>, merchantIds: set<string>, a: AdjustmentAttributes)
  {
    && a.merchantId.Some? && a.amountCents.Some? && a.month.Some? && a.year.Some?
    && a.merchantId.value in merchantIds
    && a.amountCents.value > 0 && 1 <= a.month.value <= 12
    && !Duplicate(records, a)
  }

  /** A record is valid exactly when every field is present, the merchant is in the
      merchants table, the amount is positive, the month is 1..12, and the merchant has no
      adjustment for that month and year yet. */
  lemma ValidIff(records: seq<Adjustment>, merchantIds: set<string>, a: AdjustmentAttributes)
    ensures Errors(records, merchantIds, a) == [] <==> Acceptable(records, merchantIds, a)
  {
  }

  /** An error is reported when one of the rules reports it. */
  lemma InErrors(records: seq<Adjustment>, merchantIds: set<string>, a: AdjustmentAttributes, x: FieldError)
    ensures x in Errors(records, merchantIds, a) <==>
      || x in MerchantExistsRule(merchantIds, a.merchantId) || x in AmountRule(a.amountCents)
      || x in MonthRule(a.month) || x in YearRule(a.year)
      || x in MerchantPresenceRule(merchantIds, a.merchantId) || x in UniquenessRule(records, a)
  {
  }

  /** The rules report their own field: a duplicate is reported on month, a merchant that is
      missing or not in the merchants table on merchant, each with its message. */
  lemma DuplicateReported(records: seq<Adjustment>, merchantIds: set<string>, a: AdjustmentAttributes)
    ensures FieldError("month", AlreadyAdjusted) in Errors(records, merchantIds, a) <==> Duplicate(records, a)
    ensures FieldError("amount_cents", MustBePositive) in Errors(records, merchantIds, a) <==>
      a.amountCents.Some? && a.amountCents.value <= 0
    ensures FieldError("month", AtMostTwelve) in Errors(records, merchantIds, a) <==> a.month.Some? && a.month.value > 12
    ensures FieldError("merchant", MustExist) in Errors(records, merchantIds, a) <==>
      a.merchantId.None? || a.merchantId.value !in merchantIds
    ensures FieldError("merchant", CantBeBlank) in Errors(records, merchantIds, a) <==>
      a.merchantId.None? || a.merchantId.value !in merchantIds
  {
    InErrors(records, merchantIds, a, FieldError("merchant", MustExist));
    InErrors(records, merchantIds, a, FieldError("merchant", CantBeBlank));
    InErrors(records, merchantIds, a, FieldError("month", AlreadyAdjusted));
    InErrors(records, merchantIds, a, FieldError("amount_cents", MustBePositive));
    InErrors(records, merchantIds, a, FieldError("month", AtMostTwelve));
  }

  /** The unique index on (merchant_id, month, year). */
  predicate UniqueKeys(records: seq<Adjustment>)
  {
    forall i, j :: 0 <= i < j < |records| ==>
      (records[i].merchantId, records[i].month, records[i].year) != (records[j].merchantId, records[j].month, records[j].year)
  }

  /** Every stored row satisfies the column and validation constraints. */
  predicate AllValid(records: seq<Adjustment>)
  {
    forall i :: 0 <= i < |records| ==> records[i].amountCents > 0 && 1 <= records[i].month <= 12
  }

  /** `create!`: RecordInvalid with the full messages, or the new row appended. */
  function Insert(records: seq<Adjustment>, merchantIds: set<string>, a: AdjustmentAttributes): (Result<Adjustment, Error>, seq<Adjustment>)
  {
    var errs := Errors(records, merchantIds, a);
    if errs != [] then (Err(Error(RecordInvalid, DisbursementModel.ValidationFailed(errs))), records)
    else
      var row := Adjustment(a.merchantId.value, a.amountCents.value, a.month.value, a.year.value);
      (Ok(row), records + [row])
  }

  /** A create appends exactly the given row or fails and changes nothing, and the table keeps
      one row per merchant, month and year, each with a positive amount and a real month. */
  lemma InsertOutcome(records: seq<Adjustment>, merchantIds: set<string>, a: AdjustmentAttributes)
    requires UniqueKeys(records) && AllValid(records)
    ensures var (r, records') := Insert(records, merchantIds, a);
      && UniqueKeys(records') && AllValid(records')
      && (r.Ok? <==> Acceptable(records, merchantIds, a))
      && (r.Ok? ==>
            && records' == records + [r.value]
            && r.value == Adjustment(a.merchantId.value, a.amountCents.value, a.month.value, a.year.value))
      && (r.Err? ==> records' == records && r.error.errorClass == RecordInvalid)
  {
    ValidIff(records, merchantIds, a);
    var (r, records') := Insert(records, merchantIds, a);
    if r.Ok? {
      forall i, j | 0 <= i < j < |records'|
        ensures (records'[i].merchantId, records'[i].month, records'[i].year)
             != (records'[j].merchantId, records'[j].month, records'[j].year)
      {
        if j == |records| {
          assert records'[i] == records[i];
        }
      }
    }
  }

  // ---- Scopes ----------------------------------------------------------------------------

  function ForMonthAndYear(records: seq<Adjustment>, month: int, year: int): seq<Adjustment>
  {
    if |records| == 0 then []
    else
      (if records[0].month == month && records[0].year == year then [records[0]] else [])
      + ForMonthAndYear(records[1..], month, year)
  }

  function ForYear(records: seq<Adjustment>, year: int): seq<Adjustment>
  {
    if |records| == 0 then []
    else (if records[0].year == year then [records[0]] else []) + ForYear(records[1..], year)
  }

  function SumAmounts(records: seq<Adjustment>): int
  {
    if |records| == 0 then 0 else records[0].amountCents + SumAmounts(records[1..])
  }

  function TotalAmountForYear(records: seq<Adjustment>, year: int): int { SumAmounts(ForYear(records, year)) }

  function CountForYear(records: seq<Adjustment>, year: int): nat { |ForYear(records, year)| }

  /** `for_month_and_year` and `for_year` keep exactly the matching rows. */
  lemma {:induction false} ScopesExact(records: seq<Adjustment>, month: int, year: int)
    ensures forall r :: r in ForMonthAndYear(records, month, year) <==> r in records && r.month == month && r.year == year
    ensures forall r :: r in ForYear(records, year) <==> r in records && r.year == year
  {
    if |records| > 0 {
      ScopesExact(records[1..], month, year);
      assert records == [records[0]] + records[1..];
    }
  }

  /** No row in the year: the total and the count are both 0. */
  lemma {:induction false} EmptyYear(records: seq<Adjustment>, year: int)
    requires forall i :: 0 <= i < |records| ==> records[i].year != year
    ensures TotalAmountForYear(records, year) == 0 && CountForYear(records, year) == 0
  {
    if |records| > 0 {
      EmptyYear(records[1..], year);
    }
  }

  /** Amounts are positive, so the year's total is at least its count, and zero only when
      there are no rows. */
  lemma {:induction false} TotalAtLeastCount(records: seq<Adjustment>, year: int)
    requires AllValid(records)
    ensures TotalAmountForYear(records, year) >= CountForYear(records, year)
    ensures TotalAmountForYear(records, year) == 0 <==> CountForYear(records, year) == 0
  {
    if |records| > 0 {
      assert AllValid(records[1..]) by {
        forall i | 0 <= i < |records[1..]| ensures records[1..][i].amountCents > 0 && 1 <= records[1..][i].month <= 12 {
          assert records[1..][i] == records[i + 1];
        }
      }
      TotalAtLeastCount(records[1..], year);
      var rest := ForYear(records[1..], year);
      if records[0].year == year {
        assert ([records[0]] + rest)[1..] == rest;
      } else {
        assert ForYear(records, year) == rest;
      }
    }
  }

  /** With the unique index, one merchant has at most one row for a month and year. */
  lemma AtMostOnePerKey(records: seq<Adjustment>, i: int, j: int)
    requires UniqueKeys(records)
    requires 0 <= i < |records| && 0 <= j < |records|
    requires records[i].merchantId == records[j].merchantId
    requires records[i].month == records[j].month && records[i].year == records[j].year
    ensures i == j
  {
  }

  /** One merchant with 1000 for 1/2024, 2000 for 2/2024 and 3000 for 1/2025. */
  lemma ScopeExamples(m: string)
    ensures var rs := [Adjustment(m, 1000, 1, 2024), Adjustment(m, 2000, 2, 2024), Adjustment(m, 3000, 1, 2025)];
      && ForMonthAndYear(rs, 1, 2024) == [Adjustment(m, 1000, 1, 2024)]
      && CountForYear(rs, 2024) == 2
      && TotalAmountForYear(rs, 2024) == 3000
      && TotalAmountForYear(rs, 2020) == 0 && CountForYear(rs, 2020) == 0
  {
    var rs := [Adjustment(m, 1000, 1, 2024), Adjustment(m, 2000, 2, 2024), Adjustment(m, 3000, 1, 2025)];
    assert rs[1..] == [Adjustment(m, 2000, 2, 2024), Adjustment(m, 3000, 1, 2025)];
    assert rs[1..][1..] == [Adjustment(m, 3000, 1, 2025)];
    assert rs[1..][1..][1..] == [];
    var a, b, c := rs[0], rs[1], rs[2];
    assert ForMonthAndYear([c], 1, 2024) == [] by { assert [c][1..] == []; }
    assert ForMonthAndYear([b, c], 1, 2024) == [] by { assert [b, c][1..] == [c]; }
    assert ForMonthAndYear(rs, 1, 2024) == [a];
    assert ForYear([c], 2024) == [] by { assert [c][1..] == []; }
    assert ForYear([b, c], 2024) == [b] by { assert [b, c][1..] == [c]; }
    assert ForYear(rs, 2024) == [a, b];
    assert SumAmounts([a, b]) == 3000 by {
      assert [b][1..] == [];
      assert SumAmounts([b]) == 2000;
      assert [a, b][1..] == [b];
    }
    EmptyYear(rs, 2020);
  }

  /** The defaults are valid; a missing amount, a negative amount, a missing or thirteenth
      month, a missing year or merchant, a merchant not in the merchants table, and a second
      row for the same key are not. */
  lemma ValidationExamples(merchantIds: set<string>, m: string)
    requires m in merchantIds
    ensures var ok := AdjustmentAttributes(Some(m), Some(1000), Some(1), Some(2024));
      && Acceptable([], merchantIds, ok)
      && !Acceptable([], merchantIds, ok.(amountCents := None))
      && !Acceptable([], merchantIds, ok.(amountCents := Some(-1)))
      && !Acceptable([], merchantIds, ok.(month := None))
      && !Acceptable([], merchantIds, ok.(month := Some(13)))
      && !Acceptable([], merchantIds, ok.(year := None))
      && !Acceptable([], merchantIds, ok.(merchantId := None))
      && !Acceptable([Adjustment(m, 500, 1, 2024)], merchantIds, ok)
      && !Acceptable([], {}, ok)
  {
    var ok := AdjustmentAttributes(Some(m), Some(1000), Some(1), Some(2024));
    assert [Adjustment(m, 500, 1, 2024)][0] == Adjustment(m, 500, 1, 2024);
  }

  /** An id that names no merchant fails both merchant rules, the association first. */
  lemma UnknownMerchantMessage()
    ensures Insert([], {}, AdjustmentAttributes(Some("x"), Some(1000), Some(1), Some(2024))) ==
      (Err(Error(RecordInvalid, "Validation failed: " + "Merchant must exist" + ", " + "Merchant can't be blank")), [])
  {
    UnknownMerchantErrors(AdjustmentAttributes(Some("x"), Some(1000), Some(1), Some(2024)));
    MerchantMessages();
  }

  lemma UnknownMerchantErrors(a: AdjustmentAttributes)
    requires a == AdjustmentAttributes(Some("x"), Some(1000), Some(1), Some(2024))
    ensures Errors([], {}, a) == [FieldError("merchant", MustExist), FieldError("merchant", CantBeBlank)]
  {
    assert !Duplicate([], a);
  }

  lemma MerchantMessages()
    ensures DisbursementModel.ValidationFailed([FieldError("merchant", MustExist), FieldError("merchant", CantBeBlank)])
      == "Validation failed: " + "Merchant must exist" + ", " + "Merchant can't be blank"
  {
    Strings.HumanizeMerchant();
    DisbursementModel.ValidationFailedPair(FieldError("merchant", MustExist), FieldError("merchant", CantBeBlank));
    var m1, m2 := Strings.Humanize("merchant") + " " + MustExist, Strings.Humanize("merchant") + " " + CantBeBlank;
    assert m1 == "Merchant must exist";
    assert m2 == "Merchant can't be blank";
  }
}
