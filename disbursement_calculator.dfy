/** The disbursement run (disbursements/services/disbursement_calculator.rb): for every
    eligible merchant, build the calculator its frequency selects, create the disbursement
    inside a transaction, and collect successes and failures. */
module DisbursementCalculator {
  import opened Common
  import opened OrderModel
  import opened MerchantEntities
  import opened FeeCalculator
  import opened DisbursementModel
  import opened Calculators
  import FrequencyFactory

  /** `build_error_info`: the merchant id and the error message (the backtrace is not kept). */
  datatype ErrorInfo = ErrorInfo(merchantId: string, message: string)

  /** The `{ successful:, failed: }` hash. */
  datatype Results = Results(successful: seq<DisbursementEntity>, failed: seq<ErrorInfo>)

  /** What one merchant contributes: a disbursement, nothing (nil), a rescued failure, or an
      error that `rescue StandardError` lets through and that ends the run. */
  datatype Step = Added(d: DisbursementEntity) | Nothing | Failed(info: ErrorInfo) | Raised(error: Error)

  /** The outcome of an error inside the transaction: rolled back, then rescued or not. */
  function Rescue(m: DisbursableMerchant, e: Error): Step
  {
    if IsStandardError(e) then Failed(ErrorInfo(m.id, e.message)) else Raised(e)
  }

  /** `process_merchant_disbursement`: the step and the disbursement table after it. An error
      rolls the transaction back, so the table is the one before the step. */
  function MerchantStep(m: DisbursableMerchant, date: int, table: seq<Order>, records: seq<Disbursement>, merchantIds: set<string>, now: int)
    : (Step, seq<Disbursement>)
    requires NonNegativeAmounts(table)
  {
    match FrequencyFactory.Create(m.disbursementFrequency, m, date)
    case Err(e) => (Rescue(m, e), records)
    case Ok(c) =>
      var (r, records') := CalculateAndCreateSpec(c, table, records, merchantIds, now);
      match r
      case Err(e) => (Rescue(m, e), records)
      case Ok(None) => (Nothing, records')
      case Ok(Some(d)) => (Added(d), records')
  }

  function Record(results: Results, s: Step): Result<Results, Error>
  {
    match s
    case Added(d) => Ok(Results(results.successful + [d], results.failed))
    case Nothing => Ok(results)
    case Failed(info) => Ok(Results(results.successful, results.failed + [info]))
    case Raised(e) => Err(e)
  }

  /** `create_disbursements` over the eligible merchants, in order, at time `now`: the
      results, or the error that escaped, and the disbursement table afterwards. */
  function RunAll(merchants: seq<DisbursableMerchant>, date: int, table: seq<Order>, records: seq<Disbursement>, merchantIds: set<string>, now: int)
    : (Result<Results, Error>, seq<Disbursement>)
    requires NonNegativeAmounts(table)
    decreases |merchants|
  {
    if |merchants| == 0 then (Ok(Results([], [])), records)
    else
      var (prev, records') := RunAll(merchants[..|merchants| - 1], date, table, records, merchantIds, now);
      match prev
      case Err(e) => (Err(e), records')
      case Ok(results) =>
        var (s, records'') := MerchantStep(merchants[|merchants| - 1], date, table, records', merchantIds, now);
        (Record(results, s), records'')
  }

  /** The rows the successful disbursements added. */
  function Rows(ds: seq<DisbursementEntity>): (rows: seq<Disbursement>)
    ensures |rows| == |ds|
    ensures forall i :: 0 <= i < |ds| ==> rows[i] == ds[i].record
  {
    seq(|ds|, i requires 0 <= i < |ds| => ds[i].record)
  }

  /** A merchant never raises out of the run: the factory only builds Daily and Weekly
      calculators, whose errors are all standard, and its own InvalidFrequencyError is too. */
  lemma StepNeverRaises(m: DisbursableMerchant, date: int, table: seq<Order>, records: seq<Disbursement>, merchantIds: set<string>, now: int)
    requires NonNegativeAmounts(table)
    ensures !MerchantStep(m, date, table, records, merchantIds, now).0.Raised?
  {
    FrequencyFactory.CreateCases(m.disbursementFrequency, m, date);
    match FrequencyFactory.Create(m.disbursementFrequency, m, date)
    case Err(e) =>
    case Ok(c) => ConcreteErrorsAreStandard(c, table, records, merchantIds, now);
  }

  /** One step either adds its disbursement's row to the table or leaves the table alone, and
      the row belongs to that merchant. It fails exactly when the factory or the calculator
      raised, and the failure carries the merchant's id and that error's message. */
  lemma StepOutcome(m: DisbursableMerchant, date: int, table: seq<Order>, records: seq<Disbursement>, merchantIds: set<string>, now: int)
    requires NonNegativeAmounts(table)
    ensures var (s, records') := MerchantStep(m, date, table, records, merchantIds, now);
      && (s.Added? ==> records' == records + [s.d.record] && s.d.record.merchantId == m.id)
      && (!s.Added? ==> records' == records)
      && (s.Failed? ==> s.info.merchantId == m.id)
      && match FrequencyFactory.Create(m.disbursementFrequency, m, date)
         case Err(e) => s == Failed(ErrorInfo(m.id, e.message))
         case Ok(c) =>
           var r := CalculateAndCreateSpec(c, table, records, merchantIds, now).0;
           (s.Failed? <==> r.Err?) && (r.Err? ==> s == Failed(ErrorInfo(m.id, r.error.message)))
  {
    FrequencyFactory.CreateCases(m.disbursementFrequency, m, date);
    match FrequencyFactory.Create(m.disbursementFrequency, m, date)
    case Err(e) =>
    case Ok(c) =>
      CalculateAndCreateOutcome(c, table, records, merchantIds, now);
      ConcreteErrorsAreStandard(c, table, records, merchantIds, now);
  }

  /** The run never raises; every merchant adds at most one entry; the table grows by
      exactly the rows of the successful disbursements, in order; and every entry names one
      of the merchants. */
  lemma {:induction false} RunAllOutcome(merchants: seq<DisbursableMerchant>, date: int, table: seq<Order>, records: seq<Disbursement>, merchantIds: set<string>, now: int)
    requires NonNegativeAmounts(table)
    ensures var (r, records') := RunAll(merchants, date, table, records, merchantIds, now);
      && r.Ok?
      && |r.value.successful| + |r.value.failed| <= |merchants|
      && records' == records + Rows(r.value.successful)
      && (forall i :: 0 <= i < |r.value.successful| ==> IsMerchantOf(r.value.successful[i].record.merchantId, merchants))
      && (forall i :: 0 <= i < |r.value.failed| ==> IsMerchantOf(r.value.failed[i].merchantId, merchants))
    decreases |merchants|
  {
    if |merchants| > 0 {
      var n := |merchants| - 1;
      var init, m := merchants[..n], merchants[n];
      assert merchants == init + [m];
      RunAllOutcome(init, date, table, records, merchantIds, now);
      var (prev, mid) := RunAll(init, date, table, records, merchantIds, now);
      StepNeverRaises(m, date, table, mid, merchantIds, now);
      StepOutcome(m, date, table, mid, merchantIds, now);
      var (s, last) := MerchantStep(m, date, table, mid, merchantIds, now);
      RecordStep(prev.value, s, init, m);
      RunAllSnoc(init, m, date, table, records, merchantIds, now);
    }
  }

  /** The run over one more merchant records that merchant's step on top of the run before. */
  lemma RunAllSnoc(init: seq<DisbursableMerchant>, m: DisbursableMerchant, date: int, table: seq<Order>, records: seq<Disbursement>, merchantIds: set<string>, now: int)
    requires NonNegativeAmounts(table)
    ensures var (prev, mid) := RunAll(init, date, table, records, merchantIds, now);
      var (s, last) := MerchantStep(m, date, table, mid, merchantIds, now);
      RunAll(init + [m], date, table, records, merchantIds, now) == (if prev.Err? then (prev, mid) else (Record(prev.value, s), last))
  {
    assert (init + [m])[..|init|] == init;
  }

  /** `id` is the id of one of the merchants. */
  predicate IsMerchantOf(id: string, merchants: seq<DisbursableMerchant>)
  {
    exists k :: 0 <= k < |merchants| && merchants[k].id == id
  }

  lemma MerchantOfExtend(id: string, init: seq<DisbursableMerchant>, m: DisbursableMerchant)
    ensures IsMerchantOf(id, init) ==> IsMerchantOf(id, init + [m])
    ensures IsMerchantOf(m.id, init + [m])
  {
    if IsMerchantOf(id, init) {
      var k :| 0 <= k < |init| && init[k].id == id;
      assert (init + [m])[k] == init[k];
    }
    assert (init + [m])[|init|] == m;
  }

  /** Recording one merchant's step: nothing escapes, at most one entry is added and it
      names that merchant, and the rows grow by the added disbursement's row. */
  lemma RecordStep(results: Results, s: Step, init: seq<DisbursableMerchant>, m: DisbursableMerchant)
    requires !s.Raised?
    requires s.Added? ==> s.d.record.merchantId == m.id
    requires s.Failed? ==> s.info.merchantId == m.id
    requires forall i :: 0 <= i < |results.successful| ==> IsMerchantOf(results.successful[i].record.merchantId, init)
    requires forall i :: 0 <= i < |results.failed| ==> IsMerchantOf(results.failed[i].merchantId, init)
    ensures var r := Record(results, s);
      && r.Ok?
      && |r.value.successful| + |r.value.failed| <= |results.successful| + |results.failed| + 1
      && Rows(r.value.successful) == Rows(results.successful) + (if s.Added? then [s.d.record] else [])
      && (forall i :: 0 <= i < |r.value.successful| ==> IsMerchantOf(r.value.successful[i].record.merchantId, init + [m]))
      && (forall i :: 0 <= i < |r.value.failed| ==> IsMerchantOf(r.value.failed[i].merchantId, init + [m]))
  {
    var r := Record(results, s).value;
    MerchantOfExtend(m.id, init, m);
    forall i | 0 <= i < |r.successful|
      ensures IsMerchantOf(r.successful[i].record.merchantId, init + [m])
    {
      MerchantOfExtend(r.successful[i].record.merchantId, init, m);
    }
    forall i | 0 <= i < |r.failed|
      ensures IsMerchantOf(r.failed[i].merchantId, init + [m])
    {
      MerchantOfExtend(r.failed[i].merchantId, init, m);
    }
    if s.Added? {
      assert Rows(r.successful) == Rows(results.successful) + [s.d.record];
    }
  }

  /** Processing more merchants only extends the results: the entries of a prefix of the
      merchants are a prefix of the entries of the whole run. */
  lemma {:induction false} RunAllMonotone(merchants: seq<DisbursableMerchant>, k: nat, date: int, table: seq<Order>, records: seq<Disbursement>, merchantIds: set<string>, now: int)
    requires NonNegativeAmounts(table)
    requires k <= |merchants|
    ensures var part := RunAll(merchants[..k], date, table, records, merchantIds, now).0;
      var whole := RunAll(merchants, date, table, records, merchantIds, now).0;
      part.Ok? && whole.Ok? &&
      part.value.successful <= whole.value.successful && part.value.failed <= whole.value.failed
    decreases |merchants|
  {
    if k == |merchants| {
      assert merchants[..k] == merchants;
      RunAllOutcome(merchants, date, table, records, merchantIds, now);
    } else {
      var n := |merchants| - 1;
      var init, m := merchants[..n], merchants[n];
      assert merchants == init + [m];
      assert init[..k] == merchants[..k];
      RunAllMonotone(init, k, date, table, records, merchantIds, now);
      var (prev, mid) := RunAll(init, date, table, records, merchantIds, now);
      StepNeverRaises(m, date, table, mid, merchantIds, now);
      var s := MerchantStep(m, date, table, mid, merchantIds, now).0;
      RecordExtends(prev.value, s);
      RunAllSnoc(init, m, date, table, records, merchantIds, now);
      var part := RunAll(merchants[..k], date, table, records, merchantIds, now).0.value;
      var whole := Record(prev.value, s).value;
      PrefixTransitive(part.successful, prev.value.successful, whole.successful);
      PrefixTransitive(part.failed, prev.value.failed, whole.failed);
    }
  }

  /** Recording a step that does not raise only appends to the results. */
  lemma RecordExtends(results: Results, s: Step)
    requires !s.Raised?
    ensures Record(results, s).Ok?
    ensures results.successful <= Record(results, s).value.successful
    ensures results.failed <= Record(results, s).value.failed
  {
  }

  lemma PrefixTransitive<T>(a: seq<T>, b: seq<T>, c: seq<T>)
    requires a <= b && b <= c
    ensures a <= c
  {
    assert c[..|a|] == b[..|a|];
  }

  /** A merchant whose frequency the factory does not know is reported as failed with the
      factory's message, and the table is left alone. */
  lemma UnknownFrequencyFails(m: DisbursableMerchant, date: int, table: seq<Order>, records: seq<Disbursement>, merchantIds: set<string>, now: int)
    requires NonNegativeAmounts(table)
    requires m.disbursementFrequency != "daily" && m.disbursementFrequency != "weekly"
    ensures RunAll([m], date, table, records, merchantIds, now)
      == (Ok(Results([], [ErrorInfo(m.id, "Unknown frequency: " + m.disbursementFrequency)])), records)
  {
    FrequencyFactory.CreateCases(m.disbursementFrequency, m, date);
    assert [m][..0] == [];
    var e := Error(InvalidFrequencyError, "Unknown frequency: " + m.disbursementFrequency);
    assert FrequencyFactory.Create(m.disbursementFrequency, m, date) == Err(e);
    assert MerchantStep(m, date, table, records, merchantIds, now) == (Failed(ErrorInfo(m.id, e.message)), records);
    assert RunAll([m][..0], date, table, records, merchantIds, now) == (Ok(Results([], [])), records);
    var info := ErrorInfo(m.id, e.message);
    assert [] + [info] == [info];
    assert RunAll([m], date, table, records, merchantIds, now) == (Record(Results([], []), Failed(info)), records);
  }

  /** A weekly merchant on the wrong weekday contributes nothing at all. */
  lemma WeeklyOffDayAddsNothing(m: DisbursableMerchant, date: int, table: seq<Order>, records: seq<Disbursement>, merchantIds: set<string>, now: int)
    requires NonNegativeAmounts(table)
    requires m.disbursementFrequency == "weekly"
    requires !ProcessToday(Calculator(Weekly, m, date))
    ensures RunAll([m], date, table, records, merchantIds, now) == (Ok(Results([], [])), records)
  {
    FrequencyFactory.CreateCases(m.disbursementFrequency, m, date);
    WeeklyMismatchDoesNothing(Calculator(Weekly, m, date), table, records, merchantIds, now);
    assert [m][..0] == [];
  }

  /** The run object: the reference date and the disbursement repository. */
  class DisbursementCalculatorService {
    const date: int
    const repository: DisbursementStore

    constructor (date: int, repository: DisbursementStore)
      ensures this.date == date && this.repository == repository
    {
      this.date := date;
      this.repository := repository;
    }

    /** `process_merchant_disbursement`, with the transaction's rollback. */
    method ProcessMerchant(m: DisbursableMerchant, table: seq<Order>, now: int) returns (s: Step)
      requires NonNegativeAmounts(table)
      requires repository.Valid()
      modifies repository
      ensures repository.Valid()
      ensures (s, repository.records) == MerchantStep(m, date, table, old(repository.records), repository.merchantIds, now)
    {
      var saved := repository.records;
      var built := FrequencyFactory.Create(m.disbursementFrequency, m, date);
      if built.Err? {
        return Rescue(m, built.error);
      }
      var calculator := new CalculatorService(built.value, repository);
      var r := calculator.CalculateAndCreate(table, now);
      match r
      case Err(e) =>
        repository.records := saved;
        s := Rescue(m, e);
      case Ok(None) =>
        s := Nothing;
      case Ok(Some(d)) =>
        s := Added(d);
    }

    /** `create_disbursements`: the merchants in order, one transaction each. */
    method CreateDisbursements(merchants: seq<DisbursableMerchant>, table: seq<Order>, now: int) returns (r: Result<Results, Error>)
      requires NonNegativeAmounts(table)
      requires repository.Valid()
      modifies repository
      ensures repository.Valid()
      ensures (r, repository.records) == RunAll(merchants, date, table, old(repository.records), repository.merchantIds, now)
    {
      var results := Results([], []);
      var i := 0;
      while i < |merchants|
        invariant 0 <= i <= |merchants|
        invariant repository.Valid()
        invariant (Ok(results), repository.records) == RunAll(merchants[..i], date, table, old(repository.records), repository.merchantIds, now)
      {
        assert merchants[..i + 1][..i] == merchants[..i];
        var s := ProcessMerchant(merchants[i], table, now);
        var next := Record(results, s);
        if next.Err? {
          RunAllOutcome(merchants[..i + 1], date, table, old(repository.records), repository.merchantIds, now);
          assert false;
        }
        results := next.value;
        i := i + 1;
      }
      assert merchants[..i] == merchants;
      r := Ok(results);
    }
  }
}
