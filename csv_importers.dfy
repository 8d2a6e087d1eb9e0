/** The CSV importers (orders/services/importers/csv_importer.rb and
    merchants/services/importers/csv_importer.rb): validate the file, then import its rows
    one by one, counting the imported rows and recording the failed ones. Turning a row
    into a record (the row validator and the CSV creator) is a parameter: `importRow(row)`
    is None when the row was imported and the error raised otherwise. */
module CsvRows {
  import opened Common

  /** A parsed row, as `row.to_h`: a short row yields nil for its missing cells. */
  type Row = map<string, Option<string>>

  /** `row[key]`: nil when the column is absent or the cell is nil. */
  function Field(row: Row, key: string): Option<string>
  {
    if key in row then row[key] else None
  }
}

module OrdersCsvImporter {
  import opened Common
  import opened Strings
  import opened CsvFiles
  import opened CsvRows
  import OrdersCsvValidator

  const BatchSize: nat := 1000

  /** `build_error` without the line number: the row's id, the message and the row data. */
  datatype OrderFailure = OrderFailure(id: Option<string>, error: string, data: Row)

  /** The result hash: `{ success: true, imported_count:, failed_count:, failures: }` or
      `{ success: false, error: }`. */
  datatype ImportResult =
    | Imported(importedCount: nat, failedCount: nat, failures: seq<OrderFailure>)
    | Failed(error: string)

  /** `@imported_count` and `@failed_orders`. */
  datatype Tally = Tally(imported: nat, failures: seq<OrderFailure>)

  /** `import_order`: a standard error (Dry::Struct::Error among them) is recorded, any other
      error escapes. */
  function ImportOrder(t: Tally, row: Row, importRow: Row -> Option<Error>): Result<Tally, Error>
  {
    match importRow(row)
    case None => Ok(Tally(t.imported + 1, t.failures))
    case Some(e) =>
      if IsStandardError(e) then Ok(Tally(t.imported, t.failures + [OrderFailure(Field(row, "id"), e.message, row)]))
      else Err(e)
  }

  /** Every row in file order, one at a time. */
  function ImportRows(t: Tally, rows: seq<Row>, importRow: Row -> Option<Error>): Result<Tally, Error>
    decreases |rows|
  {
    if |rows| == 0 then Ok(t)
    else
      match ImportOrder(t, rows[0], importRow)
      case Err(e) => Err(e)
      case Ok(t') => ImportRows(t', rows[1..], importRow)
  }

  /** Importing a + b is importing a, then b. */
  lemma {:induction false} ImportRowsAppend(t: Tally, a: seq<Row>, b: seq<Row>, importRow: Row -> Option<Error>)
    ensures ImportRows(t, a + b, importRow) ==
      match ImportRows(t, a, importRow)
      case Err(e) => Err(e)
      case Ok(t') => ImportRows(t', b, importRow)
    decreases |a|
  {
    if |a| > 0 {
      assert (a + b)[0] == a[0] && (a + b)[1..] == a[1..] + b;
      match ImportOrder(t, a[0], importRow)
      case Err(e) =>
        assert ImportRows(t, a, importRow) == Err(e);
        assert ImportRows(t, a + b, importRow) == Err(e);
      case Ok(t') =>
        ImportRowsAppend(t', a[1..], b, importRow);
        assert ImportRows(t, a, importRow) == ImportRows(t', a[1..], importRow);
        assert ImportRows(t, a + b, importRow) == ImportRows(t', a[1..] + b, importRow);
    } else {
      assert a + b == b;
    }
  }

  /** The failures the rows produce, in row order. */
  function ExpectedFailures(rows: seq<Row>, importRow: Row -> Option<Error>): seq<OrderFailure>
    decreases |rows|
  {
    if |rows| == 0 then []
    else
      (match importRow(rows[0])
       case None => []
       case Some(e) => [OrderFailure(Field(rows[0], "id"), e.message, rows[0])])
      + ExpectedFailures(rows[1..], importRow)
  }

  /** When no error escapes, every row is counted exactly once: failed rows are recorded in
      row order with their id, message and data, and the rest are imported, so imported and
      failed add up to the number of rows. The import stops exactly at a non-standard error. */
  lemma {:induction false} ImportRowsMeaning(t: Tally, rows: seq<Row>, importRow: Row -> Option<Error>)
    ensures ImportRows(t, rows, importRow).Ok? <==>
      forall i :: 0 <= i < |rows| ==> importRow(rows[i]).None? || IsStandardError(importRow(rows[i]).value)
    ensures ImportRows(t, rows, importRow).Ok? ==>
      && ImportRows(t, rows, importRow).value.failures == t.failures + ExpectedFailures(rows, importRow)
      && ImportRows(t, rows, importRow).value.imported + |ExpectedFailures(rows, importRow)| == t.imported + |rows|
    decreases |rows|
  {
    if |rows| > 0 {
      var rest := rows[1..];
      assert forall i :: 0 <= i < |rest| ==> rest[i] == rows[i + 1];
      match ImportOrder(t, rows[0], importRow)
      case Err(e) =>
      case Ok(t') =>
        ImportRowsMeaning(t', rest, importRow);
        if importRow(rows[0]).Some? {
          assert t'.failures + ExpectedFailures(rest, importRow) == t.failures + ExpectedFailures(rows, importRow);
        }
        if !(forall i :: 0 <= i < |rows| ==> importRow(rows[i]).None? || IsStandardError(importRow(rows[i]).value)) {
          var i :| 0 <= i < |rows| && !(importRow(rows[i]).None? || IsStandardError(importRow(rows[i]).value));
          assert i > 0 && rest[i - 1] == rows[i];
        }
    }
  }

  /** What `CSV.foreach` yields: the data rows read, in file order, and the message of the
      CSV::MalformedCSVError that stopped the reading, if one did. */
  datatype Stream = Stream(rows: seq<Row>, malformed: Option<string>)

  /** The rows of the full batches among the first n: a batch is processed as soon as its
      1000th row is read, before the next line is parsed. */
  function FullBatchPrefix(n: nat): (k: nat)
    ensures k <= n < k + BatchSize && k % BatchSize == 0
  {
    n / BatchSize * BatchSize
  }

  /** The rows handed to `import_order`: every row when the file reads to the end; when a
      malformed line stops it, the full batches read before that line and not the partial
      batch, which the raise skips. */
  function Processed(stream: Stream): seq<Row>
  {
    if stream.malformed.None? then stream.rows else stream.rows[..FullBatchPrefix(|stream.rows|)]
  }

  /** `call(csv_path)`: `validation` is the validator's result for the file and `stream` what
      `CSV.foreach` reads. */
  function ImportCsv(validation: Validation, stream: Stream, importRow: Row -> Option<Error>): Result<ImportResult, Error>
  {
    if !validation.valid then Ok(Failed(JoinWith(validation.errors, ", ")))
    else
      match ImportRows(Tally(0, []), Processed(stream), importRow)
      case Err(e) => Err(e)
      case Ok(t) =>
        if stream.malformed.Some? then Ok(Failed(stream.malformed.value))
        else Ok(Imported(t.imported, |t.failures|, t.failures))
  }

  /** An invalid file fails with the validator's messages joined by ", " and imports nothing;
      a file with only a header row succeeds with nothing imported or failed; a success
      means the file read to the end and the counts add up to its rows; a malformed line
      gives its parse message unless an error escaped from a full batch read before it. */
  lemma CallMeaning(validation: Validation, stream: Stream, importRow: Row -> Option<Error>)
    ensures !validation.valid ==> ImportCsv(validation, stream, importRow) == Ok(Failed(JoinWith(validation.errors, ", ")))
    ensures validation.valid && stream == Stream([], None) ==> ImportCsv(validation, stream, importRow) == Ok(Imported(0, 0, []))
    ensures var r := ImportCsv(validation, stream, importRow);
      r.Ok? && r.value.Imported? ==>
        && stream.malformed.None?
        && r.value.importedCount + r.value.failedCount == |stream.rows|
        && r.value.failures == ExpectedFailures(stream.rows, importRow)
        && r.value.failedCount == |r.value.failures|
    ensures validation.valid && stream.malformed.Some? ==>
      var full := stream.rows[..FullBatchPrefix(|stream.rows|)];
      && (ImportCsv(validation, stream, importRow).Ok? <==>
            forall i :: 0 <= i < |full| ==> importRow(full[i]).None? || IsStandardError(importRow(full[i]).value))
      && (ImportCsv(validation, stream, importRow).Ok? ==>
            ImportCsv(validation, stream, importRow) == Ok(Failed(stream.malformed.value)))
  {
    if validation.valid {
      ImportRowsMeaning(Tally(0, []), Processed(stream), importRow);
    }
  }

  /** A malformed line before the 1000th row: the rows read before it are never imported,
      whatever they hold, and the parse message comes back. From the 1000th row on, at least
      the first batch has been handed over. */
  lemma MalformedEarlyImportsNothing(validation: Validation, stream: Stream, importRow: Row -> Option<Error>)
    requires validation.valid && stream.malformed.Some?
    ensures |stream.rows| < BatchSize ==>
      Processed(stream) == [] && ImportCsv(validation, stream, importRow) == Ok(Failed(stream.malformed.value))
    ensures |stream.rows| >= BatchSize ==> stream.rows[..BatchSize] <= Processed(stream)
  {
    if |stream.rows| < BatchSize {
      assert FullBatchPrefix(|stream.rows|) == 0;
    }
  }

  /** A failing row does not stop the rows after it: with the first row failing and the
      second importing, one row is imported and one failure is recorded. */
  lemma FailingRowDoesNotStop(r1: Row, r2: Row, importRow: Row -> Option<Error>)
    requires importRow(r1).Some? && IsStandardError(importRow(r1).value) && importRow(r2).None?
    ensures ImportCsv(Validation(true, [], Some(",")), Stream([r1, r2], None), importRow)
      == Ok(Imported(1, 1, [OrderFailure(Field(r1, "id"), importRow(r1).value.message, r1)]))
  {
    var f := OrderFailure(Field(r1, "id"), importRow(r1).value.message, r1);
    assert [r1, r2][1..] == [r2];
    assert [] + [f] == [f];
    assert ImportOrder(Tally(0, []), r1, importRow) == Ok(Tally(0, [f]));
    assert ImportOrder(Tally(0, [f]), r2, importRow) == Ok(Tally(1, [f]));
    assert ImportRows(Tally(1, [f]), [r2][1..], importRow) == Ok(Tally(1, [f]));
    assert ImportRows(Tally(0, [f]), [r2], importRow) == Ok(Tally(1, [f]));
    assert ImportRows(Tally(0, []), [r1, r2], importRow) == Ok(Tally(1, [f]));
  }

  /** The importer object and its counters. */
  class Importer {
    const csvPath: string
    var importedCount: nat
    var failedOrders: seq<OrderFailure>

    constructor (csvPath: string)
      ensures this.csvPath == csvPath && importedCount == 0 && failedOrders == []
    {
      this.csvPath := csvPath;
      importedCount := 0;
      failedOrders := [];
    }

    /** `process_batch`: the batch's rows in order; an escaping error is returned. */
    method ProcessBatch(batch: seq<Row>, importRow: Row -> Option<Error>) returns (escaped: Option<Error>)
      modifies this
      ensures match ImportRows(Tally(old(importedCount), old(failedOrders)), batch, importRow)
        case Ok(t) => escaped.None? && importedCount == t.imported && failedOrders == t.failures
        case Err(e) => escaped == Some(e)
    {
      var i := 0;
      while i < |batch|
        invariant 0 <= i <= |batch|
        invariant ImportRows(Tally(old(importedCount), old(failedOrders)), batch, importRow)
               == ImportRows(Tally(importedCount, failedOrders), batch[i..], importRow)
      {
        assert batch[i..][0] == batch[i] && batch[i..][1..] == batch[i + 1..];
        var row := batch[i];
        match importRow(row) {
          case None =>
            importedCount := importedCount + 1;
          case Some(e) =>
            if !IsStandardError(e) {
              return Some(e);
            }
            failedOrders := failedOrders + [OrderFailure(Field(row, "id"), e.message, row)];
        }
        i := i + 1;
      }
      escaped := None;
    }

    /** The `CSV.foreach` loop of `call`: rows are gathered into batches of 1000 and each
        full batch is processed as it fills. Returns the error that escaped a batch, or the
        rows of the partial batch left over. */
    method ReadBatches(rows: seq<Row>, importRow: Row -> Option<Error>) returns (escaped: Option<Error>, batch: seq<Row>)
      requires importedCount == 0 && failedOrders == []
      modifies this
      ensures match ImportRows(Tally(0, []), rows[..FullBatchPrefix(|rows|)], importRow)
        case Ok(t) => escaped.None? && t == Tally(importedCount, failedOrders) && batch == rows[FullBatchPrefix(|rows|)..]
        case Err(e) => escaped == Some(e)
    {
      batch := [];
      var start, i := 0, 0;
      while i < |rows|
        invariant 0 <= start <= i <= |rows|
        invariant i - start < BatchSize && start % BatchSize == 0
        invariant batch == rows[start..i]
        invariant ImportRows(Tally(0, []), rows[..start], importRow) == Ok(Tally(importedCount, failedOrders))
        invariant start <= FullBatchPrefix(|rows|)
      {
        assert rows[start..i + 1] == rows[start..i] + [rows[i]];
        batch := batch + [rows[i]];
        i := i + 1;
        if |batch| >= BatchSize {
          assert rows[..i] == rows[..start] + batch;
          ImportRowsAppend(Tally(0, []), rows[..start], batch, importRow);
          escaped := ProcessBatch(batch, importRow);
          FullBatchPrefixReached(|rows|, i);
          if escaped.Some? {
            EscapeStopsFullBatches(rows, i, importRow);
            return;
          }
          batch, start := [], i;
        }
      }
      FullBatchPrefixReached(|rows|, start);
      escaped := None;
    }

    /** `call`: the batches, then the remaining partial batch once the file has been read to
        the end; a malformed line skips the partial batch. The counters end as the processed
        rows leave them, a malformed line included. */
    method Call(validation: Validation, stream: Stream, importRow: Row -> Option<Error>)
      returns (r: Result<ImportResult, Error>)
      requires importedCount == 0 && failedOrders == []
      modifies this
      ensures r == ImportCsv(validation, stream, importRow)
      ensures validation.valid && ImportRows(Tally(0, []), Processed(stream), importRow).Ok? ==>
        ImportRows(Tally(0, []), Processed(stream), importRow) == Ok(Tally(importedCount, failedOrders))
    {
      if !validation.valid {
        return Ok(Failed(JoinWith(validation.errors, ", ")));
      }
      var rows := stream.rows;
      var full := rows[..FullBatchPrefix(|rows|)];
      var escaped, batch := ReadBatches(rows, importRow);
      assert rows == full + rows[FullBatchPrefix(|rows|)..];
      ImportRowsAppend(Tally(0, []), full, rows[FullBatchPrefix(|rows|)..], importRow);
      if escaped.Some? {
        return Err(escaped.value);
      }
      if stream.malformed.Some? {
        return Ok(Failed(stream.malformed.value));
      }
      if |batch| > 0 {
        escaped := ProcessBatch(batch, importRow);
        if escaped.Some? {
          return Err(escaped.value);
        }
      } else {
        assert ImportRows(Tally(importedCount, failedOrders), batch, importRow) == Ok(Tally(importedCount, failedOrders));
      }
      r := Ok(Imported(importedCount, |failedOrders|, failedOrders));
    }
  }

  /** An error escaping from the rows before i escapes from all the full batches. */
  lemma EscapeStopsFullBatches(rows: seq<Row>, i: nat, importRow: Row -> Option<Error>)
    requires i <= FullBatchPrefix(|rows|)
    requires ImportRows(Tally(0, []), rows[..i], importRow).Err?
    ensures ImportRows(Tally(0, []), rows[..FullBatchPrefix(|rows|)], importRow) == ImportRows(Tally(0, []), rows[..i], importRow)
  {
    var full := rows[..FullBatchPrefix(|rows|)];
    assert full[..i] == rows[..i];
    ImportRowsAppend(Tally(0, []), full[..i], full[i..], importRow);
    assert full[..i] + full[i..] == full;
  }

  /** A multiple of the batch size within one batch of n, or equal to it, is the full-batch
      prefix of n. */
  lemma FullBatchPrefixReached(n: nat, k: nat)
    requires k % BatchSize == 0 && k <= n
    ensures n < k + BatchSize ==> k == FullBatchPrefix(n)
    ensures k <= FullBatchPrefix(n)
  {
  }
}

module MerchantsCsvImporter {
  import opened Common
  import opened CsvFiles
  import opened CsvRows

  /** The first data row is line 2, after the header. */
  const FirstDataLine: nat := 2

  /** `build_error`: the line, the row's "REFERENCE" column, the message and the row data. */
  datatype MerchantFailure = MerchantFailure(line: nat, reference: Option<string>, error: string, data: Row)

  /** The result hash: success with counts, `{ success: false, errors: }` for an invalid file,
      or `{ success: false, error: }` for a malformed one. */
  datatype ImportResult =
    | Imported(importedCount: nat, failedCount: nat, failures: seq<MerchantFailure>)
    | InvalidFile(errors: seq<string>)
    | Failed(error: string)

  datatype Tally = Tally(imported: nat, failures: seq<MerchantFailure>)

  /** `import_merchant(row, line)`. */
  function ImportMerchant(t: Tally, row: Row, line: nat, importRow: Row -> Option<Error>): Result<Tally, Error>
  {
    match importRow(row)
    case None => Ok(Tally(t.imported + 1, t.failures))
    case Some(e) =>
      if IsStandardError(e) then Ok(Tally(t.imported, t.failures + [MerchantFailure(line, Field(row, "REFERENCE"), e.message, row)]))
      else Err(e)
  }

  /** `csv.each.with_index(2)` over the rows that follow line `line - 1`. */
  function ImportRows(t: Tally, rows: seq<Row>, line: nat, importRow: Row -> Option<Error>): Result<Tally, Error>
    decreases |rows|
  {
    if |rows| == 0 then Ok(t)
    else
      match ImportMerchant(t, rows[0], line, importRow)
      case Err(e) => Err(e)
      case Ok(t') => ImportRows(t', rows[1..], line + 1, importRow)
  }

  /** The failures the rows produce, each with the line the row sits on. */
  function ExpectedFailures(rows: seq<Row>, line: nat, importRow: Row -> Option<Error>): (fs: seq<MerchantFailure>)
    ensures |fs| <= |rows|
    decreases |rows|
  {
    if |rows| == 0 then []
    else
      (match importRow(rows[0])
       case None => []
       case Some(e) => [MerchantFailure(line, Field(rows[0], "REFERENCE"), e.message, rows[0])])
      + ExpectedFailures(rows[1..], line + 1, importRow)
  }

  /** `f` reports the row on its line, with that row's reference, message and data. */
  predicate Reports(f: MerchantFailure, rows: seq<Row>, line: nat, importRow: Row -> Option<Error>)
  {
    && line <= f.line < line + |rows|
    && importRow(rows[f.line - line]).Some?
    && f == MerchantFailure(f.line, Field(rows[f.line - line], "REFERENCE"), importRow(rows[f.line - line]).value.message, rows[f.line - line])
  }

  /** Each failure reports a failing row on its own line. */
  predicate AllReport(fs: seq<MerchantFailure>, rows: seq<Row>, line: nat, importRow: Row -> Option<Error>)
  {
    forall j :: 0 <= j < |fs| ==> Reports(fs[j], rows, line, importRow)
  }

  /** The failures come in line order, at most one per line. */
  predicate LinesIncrease(fs: seq<MerchantFailure>)
  {
    forall j, k :: 0 <= j < k < |fs| ==> fs[j].line < fs[k].line
  }

  /** Every failing row has a failure on its line. */
  predicate AllFailingReported(fs: seq<MerchantFailure>, rows: seq<Row>, line: nat, importRow: Row -> Option<Error>)
  {
    forall i :: 0 <= i < |rows| && importRow(rows[i]).Some? ==> exists j :: 0 <= j < |fs| && fs[j].line == line + i
  }

  lemma {:induction false} FailuresReportTheirRows(rows: seq<Row>, line: nat, importRow: Row -> Option<Error>)
    ensures AllReport(ExpectedFailures(rows, line, importRow), rows, line, importRow)
    decreases |rows|
  {
    if |rows| > 0 {
      var rest := rows[1..];
      var tail := ExpectedFailures(rest, line + 1, importRow);
      FailuresReportTheirRows(rest, line + 1, importRow);
      var fs := ExpectedFailures(rows, line, importRow);
      var h := |fs| - |tail|;
      assert fs[h..] == tail;
      forall j | 0 <= j < |fs|
        ensures Reports(fs[j], rows, line, importRow)
      {
        if j >= h {
          assert fs[j] == tail[j - h];
          assert Reports(tail[j - h], rest, line + 1, importRow);
          assert rest[fs[j].line - (line + 1)] == rows[fs[j].line - line];
        }
      }
    }
  }

  lemma {:induction false} FailuresInLineOrder(rows: seq<Row>, line: nat, importRow: Row -> Option<Error>)
    ensures LinesIncrease(ExpectedFailures(rows, line, importRow))
    ensures forall j :: 0 <= j < |ExpectedFailures(rows, line, importRow)| ==> ExpectedFailures(rows, line, importRow)[j].line >= line
    decreases |rows|
  {
    if |rows| > 0 {
      var tail := ExpectedFailures(rows[1..], line + 1, importRow);
      FailuresInLineOrder(rows[1..], line + 1, importRow);
      var fs := ExpectedFailures(rows, line, importRow);
      if importRow(rows[0]).None? {
        assert fs == tail;
      } else {
        var f := MerchantFailure(line, Field(rows[0], "REFERENCE"), importRow(rows[0]).value.message, rows[0]);
        assert fs == [f] + tail;
        assert forall j :: 1 <= j < |fs| ==> fs[j] == tail[j - 1];
      }
    }
  }

  lemma {:induction false} FailingRowsReported(rows: seq<Row>, line: nat, importRow: Row -> Option<Error>)
    ensures AllFailingReported(ExpectedFailures(rows, line, importRow), rows, line, importRow)
    decreases |rows|
  {
    if |rows| > 0 {
      var rest := rows[1..];
      var tail := ExpectedFailures(rest, line + 1, importRow);
      FailingRowsReported(rest, line + 1, importRow);
      var fs := ExpectedFailures(rows, line, importRow);
      var h := |fs| - |tail|;
      assert fs[h..] == tail;
      forall i | 0 <= i < |rows| && importRow(rows[i]).Some?
        ensures exists j :: 0 <= j < |fs| && fs[j].line == line + i
      {
        if i == 0 {
          assert fs[0].line == line;
        } else {
          assert rest[i - 1] == rows[i];
          var j :| 0 <= j < |tail| && tail[j].line == line + 1 + (i - 1);
          assert fs[h + j] == tail[j];
        }
      }
    }
  }

  /** With no escaping error: every row is counted once, imported and failed add up to the
      rows, and each failure names the line of its row, counting the first data row as line
      2 and keeping row order. */
  lemma {:induction false} ImportRowsMeaning(t: Tally, rows: seq<Row>, line: nat, importRow: Row -> Option<Error>)
    ensures ImportRows(t, rows, line, importRow).Ok? <==>
      forall i :: 0 <= i < |rows| ==> importRow(rows[i]).None? || IsStandardError(importRow(rows[i]).value)
    ensures ImportRows(t, rows, line, importRow).Ok? ==>
      && ImportRows(t, rows, line, importRow).value.failures == t.failures + ExpectedFailures(rows, line, importRow)
      && ImportRows(t, rows, line, importRow).value.imported + |ExpectedFailures(rows, line, importRow)| == t.imported + |rows|
    decreases |rows|
  {
    if |rows| > 0 {
      var rest := rows[1..];
      assert forall i :: 0 <= i < |rest| ==> rest[i] == rows[i + 1];
      match ImportMerchant(t, rows[0], line, importRow)
      case Err(e) =>
      case Ok(t') =>
        ImportRowsMeaning(t', rest, line + 1, importRow);
        if !(forall i :: 0 <= i < |rows| ==> importRow(rows[i]).None? || IsStandardError(importRow(rows[i]).value)) {
          var i :| 0 <= i < |rows| && !(importRow(rows[i]).None? || IsStandardError(importRow(rows[i]).value));
          assert i > 0 && rest[i - 1] == rows[i];
        }
    }
  }

  /** `call(csv_path)`: `validation` is the validator's answer (or the error it raised), and
      `parsed` the rows `CSV.read` gives, or the message of a CSV::MalformedCSVError. */
  function ImportCsv(validation: Result<Validation, Error>, parsed: Result<seq<Row>, string>, importRow: Row -> Option<Error>)
    : Result<ImportResult, Error>
  {
    match validation
    case Err(e) => Err(e)
    case Ok(v) =>
      if !v.valid then Ok(InvalidFile(v.errors))
      else
        match parsed
        case Err(message) => Ok(Failed(message))
        case Ok(rows) =>
          match ImportRows(Tally(0, []), rows, FirstDataLine, importRow)
          case Err(e) => Err(e)
          case Ok(t) => Ok(Imported(t.imported, |t.failures|, t.failures))
  }

  /** An invalid file returns the validator's error list; a header-only file succeeds with
      zero counts; otherwise the counts add up to the rows, and the failures are exactly the
      failing rows, in line order, each carrying its own line, reference, message and data. */
  lemma CallMeaning(validation: Result<Validation, Error>, parsed: Result<seq<Row>, string>, importRow: Row -> Option<Error>)
    ensures validation.Ok? && !validation.value.valid ==> ImportCsv(validation, parsed, importRow) == Ok(InvalidFile(validation.value.errors))
    ensures validation.Ok? && validation.value.valid && parsed == Ok([]) ==> ImportCsv(validation, parsed, importRow) == Ok(Imported(0, 0, []))
    ensures var r := ImportCsv(validation, parsed, importRow);
      r.Ok? && r.value.Imported? ==>
        && parsed.Ok?
        && r.value.importedCount + r.value.failedCount == |parsed.value|
        && r.value.failures == ExpectedFailures(parsed.value, FirstDataLine, importRow)
        && AllReport(r.value.failures, parsed.value, FirstDataLine, importRow)
        && LinesIncrease(r.value.failures)
        && AllFailingReported(r.value.failures, parsed.value, FirstDataLine, importRow)
  {
    if validation.Ok? && validation.value.valid && parsed.Ok? {
      ImportRowsMeaning(Tally(0, []), parsed.value, FirstDataLine, importRow);
      FailuresReportTheirRows(parsed.value, FirstDataLine, importRow);
      FailuresInLineOrder(parsed.value, FirstDataLine, importRow);
      FailingRowsReported(parsed.value, FirstDataLine, importRow);
    }
  }

  /** The second data row failing is reported at line 3 with its reference. */
  lemma SecondRowFailsAtLine3(r1: Row, r2: Row, importRow: Row -> Option<Error>)
    requires importRow(r1).None? && importRow(r2).Some? && IsStandardError(importRow(r2).value)
    ensures ImportCsv(Ok(Validation(true, [], Some(","))), Ok([r1, r2]), importRow)
      == Ok(Imported(1, 1, [MerchantFailure(3, Field(r2, "REFERENCE"), importRow(r2).value.message, r2)]))
  {
    var f := MerchantFailure(3, Field(r2, "REFERENCE"), importRow(r2).value.message, r2);
    assert [r1, r2][1..] == [r2];
    assert ImportMerchant(Tally(0, []), r1, 2, importRow) == Ok(Tally(1, []));
    assert [] + [f] == [f];
    assert ImportMerchant(Tally(1, []), r2, 3, importRow) == Ok(Tally(1, [f]));
    assert ImportRows(Tally(1, [f]), [r2][1..], 4, importRow) == Ok(Tally(1, [f]));
    assert ImportRows(Tally(1, []), [r2], 3, importRow) == Ok(Tally(1, [f]));
    assert ImportRows(Tally(0, []), [r1, r2], 2, importRow) == Ok(Tally(1, [f]));
  }

  class Importer {
    const csvPath: string
    var importedCount: nat
    var failedMerchants: seq<MerchantFailure>

    constructor (csvPath: string)
      ensures this.csvPath == csvPath && importedCount == 0 && failedMerchants == []
    {
      this.csvPath := csvPath;
      importedCount := 0;
      failedMerchants := [];
    }

    /** `call`: every row in one transaction, numbered from line 2. */
    method Call(validation: Result<Validation, Error>, parsed: Result<seq<Row>, string>, importRow: Row -> Option<Error>)
      returns (r: Result<ImportResult, Error>)
      requires importedCount == 0 && failedMerchants == []
      modifies this
      ensures r == ImportCsv(validation, parsed, importRow)
    {
      if validation.Err? {
        return Err(validation.error);
      }
      if !validation.value.valid {
        return Ok(InvalidFile(validation.value.errors));
      }
      if parsed.Err? {
        return Ok(Failed(parsed.error));
      }
      var rows := parsed.value;
      var i := 0;
      while i < |rows|
        invariant 0 <= i <= |rows|
        invariant ImportRows(Tally(0, []), rows, FirstDataLine, importRow)
               == ImportRows(Tally(importedCount, failedMerchants), rows[i..], FirstDataLine + i, importRow)
      {
        assert rows[i..][0] == rows[i] && rows[i..][1..] == rows[i + 1..];
        var row := rows[i];
        var line := FirstDataLine + i;
        match importRow(row) {
          case None =>
            importedCount := importedCount + 1;
          case Some(e) =>
            if !IsStandardError(e) {
              return Err(e);
            }
            failedMerchants := failedMerchants + [MerchantFailure(line, Field(row, "REFERENCE"), e.message, row)];
        }
        i := i + 1;
      }
      r := Ok(Imported(importedCount, |failedMerchants|, failedMerchants));
    }
  }
}
