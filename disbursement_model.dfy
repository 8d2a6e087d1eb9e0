/** The persisted disbursement (models/disbursement.rb) with its identifier callback
    (concerns/has_disbursement_uuid.rb), and an in-memory table of disbursements standing in
    for the database behind the disbursement repository. */
module DisbursementModel {
  import opened Common
  import opened Strings
  import opened Calendar
  import opened OrderModel
  import Types

  /** One row of the disbursements table. */
  datatype Disbursement = Disbursement(
    id: string,
    merchantId: string,
    amountCents: int,
    feesAmountCents: int,
    createdAt: int,
    disbursedAt: Option<int>)

  /** What the repository hands back: the stored row together with the orders it covers. */
  datatype DisbursementEntity = DisbursementEntity(record: Disbursement, orders: seq<Order>)

  const MustBePositive := "must be greater than 0"

  // ---- Validations ----------------------------------------------------------------------

  /** `amount_cents` and `fees_amount_cents` must both be greater than 0, in that order. */
  function RecordErrors(amountCents: int, feesAmountCents: int): (errs: seq<FieldError>)
    ensures errs == [] <==> amountCents > 0 && feesAmountCents > 0
    ensures FieldError("amount_cents", MustBePositive) in errs <==> amountCents <= 0
    ensures FieldError("fees_amount_cents", MustBePositive) in errs <==> feesAmountCents <= 0
  {
    (if amountCents > 0 then [] else [FieldError("amount_cents", MustBePositive)])
    + (if feesAmountCents > 0 then [] else [FieldError("fees_amount_cents", MustBePositive)])
  }

  /** errors.full_messages: the humanised attribute, a space and the message. */
  function FullMessages(errs: seq<FieldError>): (ms: seq<string>)
    ensures |ms| == |errs|
    ensures forall i :: 0 <= i < |errs| ==> ms[i] == Humanize(errs[i].attribute) + " " + errs[i].message
  {
    seq(|errs|, i requires 0 <= i < |errs| => Humanize(errs[i].attribute) + " " + errs[i].message)
  }

  /** The message of ActiveRecord::RecordInvalid. */
  function ValidationFailed(errs: seq<FieldError>): string
  {
    "Validation failed: " + JoinWith(FullMessages(errs), ", ")
  }

  lemma RecordErrorsExamples()
    ensures RecordErrors(10000, 100) == []
    ensures RecordErrors(0, 100) == [FieldError("amount_cents", MustBePositive)]
    ensures RecordErrors(1, 0) == [FieldError("fees_amount_cents", MustBePositive)]
    ensures RecordErrors(0, 0) == [FieldError("amount_cents", MustBePositive), FieldError("fees_amount_cents", MustBePositive)]
  {
  }

  /** With one failed rule the message is "Validation failed: " and that rule's full message
      (for a zero fee: "Validation failed: Fees amount cents must be greater than 0"). */
  lemma ValidationFailedSingle(e: FieldError)
    ensures ValidationFailed([e]) == "Validation failed: " + Humanize(e.attribute) + " " + e.message
  {
    assert FullMessages([e]) == [Humanize(e.attribute) + " " + e.message];
  }

  /** The message for two errors joins their full messages with ", ". */
  lemma ValidationFailedPair(e1: FieldError, e2: FieldError)
    ensures ValidationFailed([e1, e2]) ==
      "Validation failed: " + (Humanize(e1.attribute) + " " + e1.message) + ", " + (Humanize(e2.attribute) + " " + e2.message)
  {
    var ms := FullMessages([e1, e2]);
    assert ms[1..] == [Humanize(e2.attribute) + " " + e2.message];
    assert JoinWith(ms, ", ") == ms[0] + ", " + ms[1];
  }

  // ---- Identifier -----------------------------------------------------------------------

  /** The id given before create: "DISB-", the merchant id, "-", and the Unix time in
      seconds. */
  function DisbursementId(merchantId: string, now: int): string
  {
    "DISB-" + merchantId + "-" + IntToString(now)
  }

  /** The id starts with "DISB-", holds the merchant id right after it, then '-' and the
      decimal seconds. */
  lemma DisbursementIdLayout(merchantId: string, now: int)
    ensures var id := DisbursementId(merchantId, now);
      && |id| > 6 + |merchantId|
      && id[..5] == "DISB-"
      && id[5..5 + |merchantId|] == merchantId
      && id[5 + |merchantId|] == '-'
      && id[6 + |merchantId|..] == IntToString(now)
      && (now >= 0 ==> AllDigits(id[6 + |merchantId|..]))
  {
    var id := DisbursementId(merchantId, now);
    assert id == "DISB-" + merchantId + "-" + IntToString(now);
  }

  /** The same merchant at two different seconds gets two different ids (and at the same
      second the same id). */
  lemma DisbursementIdInjective(merchantId: string, t1: int, t2: int)
    ensures DisbursementId(merchantId, t1) == DisbursementId(merchantId, t2) <==> t1 == t2
  {
    if DisbursementId(merchantId, t1) == DisbursementId(merchantId, t2) {
      DisbursementIdLayout(merchantId, t1);
      DisbursementIdLayout(merchantId, t2);
      var n := 6 + |merchantId|;
      assert IntToString(t1) == DisbursementId(merchantId, t1)[n..];
      IntToStringInjective(t1, t2);
    }
  }

  /** For a UUID merchant id and a time after the epoch, splitting the id on '-' gives
      "DISB", the merchant id's five groups, which rejoin to the merchant id, and an all-digit
      timestamp. */
  lemma DisbursementIdSplit(merchantId: string, now: int)
    requires Types.IsUuid(merchantId)
    requires now >= 0
    ensures var parts := Split(DisbursementId(merchantId, now), '-');
      && |parts| == 7
      && parts[0] == "DISB"
      && Join(parts[1..6], '-') == merchantId
      && AllDigits(parts[6])
      && parts[6] == IntToString(now)
  {
    var ts := IntToString(now);
    var groups := Split(merchantId, '-');
    Types.UuidGroups(merchantId);
    assert '-' !in ts by {
      assert AllDigits(ts);
    }
    SplitNoSeparator(ts, '-');
    SplitNoSeparator("DISB", '-');
    SplitAround(merchantId, '-', ts);
    SplitAround("DISB", '-', merchantId + ['-'] + ts);
    assert DisbursementId(merchantId, now) == "DISB" + ['-'] + (merchantId + ['-'] + ts);
    var parts := Split(DisbursementId(merchantId, now), '-');
    assert parts == ["DISB"] + groups + [ts];
    assert parts[1..6] == groups;
    JoinSplit(merchantId, '-');
  }

  /** The record object during create!: the `before_create` callback overwrites its id. */
  class DisbursementRow {
    var id: Option<string>
    const merchantId: string
    const amountCents: int
    const feesAmountCents: int

    constructor (presetId: Option<string>, merchantId: string, amountCents: int, feesAmountCents: int)
      ensures id == presetId && this.merchantId == merchantId
      ensures this.amountCents == amountCents && this.feesAmountCents == feesAmountCents
    {
      id := presetId;
      this.merchantId := merchantId;
      this.amountCents := amountCents;
      this.feesAmountCents := feesAmountCents;
    }

    /** `generate_disbursement_uuid`, with `Time.current.to_i` passed in as `now`. */
    method GenerateDisbursementUuid(now: int)
      modifies this
      ensures id == Some(DisbursementId(merchantId, now))
    {
      id := Some("DISB-" + merchantId + "-" + IntToString(now));
    }
  }

  // ---- Year scopes ----------------------------------------------------------------------

  /** `strftime('%Y', created_at) = year.to_s`: SQLite renders the year with four digits,
      so only years 1000..9999 can equal their own `to_s`. */
  predicate InYear(t: int, year: int)
  {
    1000 <= year <= 9999
    && BeginningOfDay(DaysFromCivil(year, 1, 1)) <= t < BeginningOfDay(DaysFromCivil(year + 1, 1, 1))
  }

  function ForYear(records: seq<Disbursement>, year: int): (r: seq<Disbursement>)
  {
    if |records| == 0 then []
    else (if InYear(records[0].createdAt, year) then [records[0]] else []) + ForYear(records[1..], year)
  }

  /** `for_year` keeps exactly the records created in that year, in table order. */
  lemma {:induction false} ForYearExact(records: seq<Disbursement>, year: int)
    ensures forall d :: d in ForYear(records, year) <==> d in records && InYear(d.createdAt, year)
    ensures |ForYear(records, year)| <= |records|
  {
    if |records| > 0 {
      ForYearExact(records[1..], year);
      assert records == [records[0]] + records[1..];
    }
  }

  function SumAmount(records: seq<Disbursement>): int
  {
    if |records| == 0 then 0 else records[0].amountCents + SumAmount(records[1..])
  }

  function SumFees(records: seq<Disbursement>): int
  {
    if |records| == 0 then 0 else records[0].feesAmountCents + SumFees(records[1..])
  }

  function SumAmountForYear(records: seq<Disbursement>, year: int): int { SumAmount(ForYear(records, year)) }

  function SumFeesForYear(records: seq<Disbursement>, year: int): int { SumFees(ForYear(records, year)) }

  /** Every row the table accepted satisfies the record validations. */
  predicate AllValid(records: seq<Disbursement>)
  {
    forall i :: 0 <= i < |records| ==> RecordErrors(records[i].amountCents, records[i].feesAmountCents) == []
  }

  /** The yearly sums add up row by row: appending a row adds its amounts to its own year and
      nothing to any other. */
  lemma {:induction false} YearSumsAppend(records: seq<Disbursement>, d: Disbursement, year: int)
    ensures SumAmountForYear(records + [d], year)
      == SumAmountForYear(records, year) + (if InYear(d.createdAt, year) then d.amountCents else 0)
    ensures SumFeesForYear(records + [d], year)
      == SumFeesForYear(records, year) + (if InYear(d.createdAt, year) then d.feesAmountCents else 0)
  {
    ForYearAppend(records, d, year);
    var f := ForYear(records, year);
    var tail := if InYear(d.createdAt, year) then [d] else [];
    SumsAppend(f, tail);
  }

  lemma {:induction false} ForYearAppend(records: seq<Disbursement>, d: Disbursement, year: int)
    ensures ForYear(records + [d], year) == ForYear(records, year) + (if InYear(d.createdAt, year) then [d] else [])
  {
    if |records| == 0 {
      assert records + [d] == [d];
      assert [d][1..] == [];
    } else {
      assert (records + [d])[1..] == records[1..] + [d];
      ForYearAppend(records[1..], d, year);
    }
  }

  lemma {:induction false} SumsAppend(a: seq<Disbursement>, b: seq<Disbursement>)
    ensures SumAmount(a + b) == SumAmount(a) + SumAmount(b)
    ensures SumFees(a + b) == SumFees(a) + SumFees(b)
  {
    if |a| == 0 {
      assert a + b == b;
    } else {
      assert (a + b)[1..] == a[1..] + b;
      SumsAppend(a[1..], b);
    }
  }

  /** Over valid rows each yearly sum is at least the number of that year's rows. */
  lemma {:induction false} YearSumsPositive(records: seq<Disbursement>, year: int)
    requires AllValid(records)
    ensures SumAmountForYear(records, year) >= |ForYear(records, year)|
    ensures SumFeesForYear(records, year) >= |ForYear(records, year)|
  {
    if |records| > 0 {
      assert AllValid(records[1..]) by {
        forall i | 0 <= i < |records[1..]|
          ensures RecordErrors(records[1..][i].amountCents, records[1..][i].feesAmountCents) == []
        {
          assert records[1..][i] == records[i + 1];
        }
      }
      YearSumsPositive(records[1..], year);
      assert RecordErrors(records[0].amountCents, records[0].feesAmountCents) == [];
      var head := if InYear(records[0].createdAt, year) then [records[0]] else [];
      assert ForYear(records, year) == head + ForYear(records[1..], year);
      SumsAppend(head, ForYear(records[1..], year));
      if head != [] { assert head[1..] == []; }
    }
  }

  // ---- The table ------------------------------------------------------------------------

  /** The attributes passed to `create!`. */
  datatype CreateAttributes = CreateAttributes(
    merchantId: string,
    amountCents: int,
    feesAmountCents: int,
    orders: seq<Order>,
    disbursedAt: int)

  predicate UniqueIds(records: seq<Disbursement>)
  {
    forall i, j :: 0 <= i < j < |records| ==> records[i].id != records[j].id
  }

  predicate IdTaken(records: seq<Disbursement>, id: string)
  {
    exists i :: 0 <= i < |records| && records[i].id == id
  }

  /** The required `belongs_to :merchant` followed by the two amount rules: the errors of a
      disbursement for the merchant ids in the merchants table. */
  function CreateErrors(merchantIds: set<string>, a: CreateAttributes): (errs: seq<FieldError>)
    ensures errs == [] <==> a.merchantId in merchantIds && a.amountCents > 0 && a.feesAmountCents > 0
    ensures (FieldError("merchant", MustExist) in errs) <==> a.merchantId !in merchantIds
  {
    (if a.merchantId in merchantIds then [] else [FieldError("merchant", MustExist)])
    + RecordErrors(a.amountCents, a.feesAmountCents)
  }

  /** `Disbursement.create!(attributes)` at time `now`, with `merchantIds` the ids in the
      merchants table: validation first (RecordInvalid), then the id callback and the
      insert, which the primary key rejects when the id is taken (RecordNotUnique). */
  function StoreCreate(records: seq<Disbursement>, merchantIds: set<string>, a: CreateAttributes, now: int)
    : (r: (Result<DisbursementEntity, Error>, seq<Disbursement>))
  {
    var errs := CreateErrors(merchantIds, a);
    if errs != [] then (Err(Error(RecordInvalid, ValidationFailed(errs))), records)
    else
      var id := DisbursementId(a.merchantId, now);
      if IdTaken(records, id) then
        (Err(Error(RecordNotUnique, "UNIQUE constraint failed: disbursements.id")), records)
      else
        var row := Disbursement(id, a.merchantId, a.amountCents, a.feesAmountCents, now, Some(a.disbursedAt));
        (Ok(DisbursementEntity(row, a.orders)), records + [row])
  }

  /** A create either fails and leaves the table as it was, or appends exactly the new row,
      which carries the given values, the generated id and the creation time; it succeeds
      exactly when the merchant exists, both amounts are positive and the id is free. */
  lemma StoreCreateOutcome(records: seq<Disbursement>, merchantIds: set<string>, a: CreateAttributes, now: int)
    ensures var (r, records') := StoreCreate(records, merchantIds, a, now);
      && (r.Err? ==> records' == records)
      && (r.Ok? ==>
            && records' == records + [r.value.record]
            && r.value.record.id == DisbursementId(a.merchantId, now)
            && r.value.record.merchantId == a.merchantId
            && r.value.record.amountCents == a.amountCents
            && r.value.record.feesAmountCents == a.feesAmountCents
            && r.value.record.createdAt == now
            && r.value.orders == a.orders)
    ensures StoreCreate(records, merchantIds, a, now).0.Ok? <==>
      && a.merchantId in merchantIds && a.amountCents > 0 && a.feesAmountCents > 0
      && !IdTaken(records, DisbursementId(a.merchantId, now))
    ensures a.merchantId in merchantIds && (a.amountCents <= 0 || a.feesAmountCents <= 0) ==>
      StoreCreate(records, merchantIds, a, now).0 == Err(Error(RecordInvalid, ValidationFailed(RecordErrors(a.amountCents, a.feesAmountCents))))
    ensures a.merchantId !in merchantIds ==>
      StoreCreate(records, merchantIds, a, now).0 == Err(Error(RecordInvalid, ValidationFailed(
        [FieldError("merchant", MustExist)] + RecordErrors(a.amountCents, a.feesAmountCents))))
  {
    var errs := CreateErrors(merchantIds, a);
    if a.merchantId in merchantIds {
      assert errs == RecordErrors(a.amountCents, a.feesAmountCents);
    } else {
      assert errs == [FieldError("merchant", MustExist)] + RecordErrors(a.amountCents, a.feesAmountCents);
    }
  }

  /** The table keeps its invariants: ids stay unique and every row passed validation. */
  lemma StoreCreatePreserves(records: seq<Disbursement>, merchantIds: set<string>, a: CreateAttributes, now: int)
    requires UniqueIds(records) && AllValid(records)
    ensures UniqueIds(StoreCreate(records, merchantIds, a, now).1) && AllValid(StoreCreate(records, merchantIds, a, now).1)
  {
    var (r, records') := StoreCreate(records, merchantIds, a, now);
    if r.Ok? {
      var row := r.value.record;
      assert records' == records + [row];
      forall i, j | 0 <= i < j < |records'| ensures records'[i].id != records'[j].id {
        if j == |records| {
          assert records'[j] == row;
          assert records'[i] == records[i];
        }
      }
    }
  }

  /** The disbursements table behind DisbursementRepository#create. */
  class DisbursementStore {
    var records: seq<Disbursement>
    /** The ids of the merchants table, which a disbursement's merchant must be among. */
    const merchantIds: set<string>

    ghost predicate Valid() reads this { UniqueIds(records) && AllValid(records) }

    constructor (merchantIds: set<string>)
      ensures records == [] && this.merchantIds == merchantIds && Valid()
    {
      records := [];
      this.merchantIds := merchantIds;
    }

    method Create(a: CreateAttributes, now: int) returns (r: Result<DisbursementEntity, Error>)
      requires Valid()
      modifies this
      ensures Valid()
      ensures (r, records) == StoreCreate(old(records), merchantIds, a, now)
    {
      StoreCreatePreserves(records, merchantIds, a, now);
      var errs := CreateErrors(merchantIds, a);
      if errs != [] {
        return Err(Error(RecordInvalid, ValidationFailed(errs)));
      }
      var row := new DisbursementRow(None, a.merchantId, a.amountCents, a.feesAmountCents);
      row.GenerateDisbursementUuid(now);
      var id := row.id.value;
      var k := 0;
      while k < |records|
        invariant 0 <= k <= |records|
        invariant forall i :: 0 <= i < k ==> records[i].id != id
      {
        if records[k].id == id {
          return Err(Error(RecordNotUnique, "UNIQUE constraint failed: disbursements.id"));
        }
        k := k + 1;
      }
      var d := Disbursement(id, a.merchantId, a.amountCents, a.feesAmountCents, now, Some(a.disbursedAt));
      records := records + [d];
      r := Ok(DisbursementEntity(d, a.orders));
    }
  }
}
