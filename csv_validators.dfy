/** What the CSV file validators share: the file as the validators see it, their result
    hash, and the header comparison. The CSV library is not modelled; what the validators
    learn from it arrives as parameters (see each `Validate`). */
module CsvFiles {
  import opened Common
  import opened Strings

  /** The file at the given path: absent, of size zero, or with a first line. */
  datatype CsvFile = Missing | Empty | Present

  /** The `{ valid:, errors:, separator: }` hash. */
  datatype Validation = Validation(valid: bool, errors: seq<string>, separator: Option<string>)

  function LowerAll(hs: seq<string>): (r: seq<string>)
    ensures |r| == |hs|
    ensures forall i :: 0 <= i < |hs| ==> r[i] == Lower(hs[i])
  {
    seq(|hs|, i requires 0 <= i < |hs| => Lower(hs[i]))
  }

  /** Ruby's `Array#-`: the elements of xs not in ys, in xs's order. */
  function Minus(xs: seq<string>, ys: seq<string>): seq<string>
  {
    if |xs| == 0 then []
    else (if xs[0] in ys then [] else [xs[0]]) + Minus(xs[1..], ys)
  }

  /** The headers `validate_headers` reports: the lower-cased required headers that no
      lower-cased file header equals. */
  function MissingHeaders(required: seq<string>, headers: seq<string>): seq<string>
  {
    Minus(LowerAll(required), LowerAll(headers))
  }

  /** `validate_headers`: at most one error, naming the missing headers joined by ", ". */
  function HeaderErrors(required: seq<string>, headers: seq<string>): seq<string>
  {
    var missing := MissingHeaders(required, headers);
    if |missing| == 0 then [] else ["Missing required headers: " + JoinWith(missing, ", ")]
  }

  /** `Array#-` keeps exactly the elements of xs that are not in ys, and keeps everything when
      ys shares nothing with xs. */
  lemma {:induction false} MinusExact(xs: seq<string>, ys: seq<string>)
    ensures forall x :: x in Minus(xs, ys) <==> x in xs && x !in ys
    ensures |Minus(xs, ys)| <= |xs|
    ensures (forall i :: 0 <= i < |xs| ==> xs[i] !in ys) ==> Minus(xs, ys) == xs
  {
    if |xs| > 0 {
      MinusExact(xs[1..], ys);
      assert xs == [xs[0]] + xs[1..];
    }
  }

  /** A required header is reported missing exactly when no header of the file matches it
      ignoring case; headers beyond the required ones do not matter, and no error is
      raised exactly when nothing is missing. */
  lemma HeadersMissingIff(required: seq<string>, headers: seq<string>, k: int)
    requires 0 <= k < |required|
    ensures Lower(required[k]) in MissingHeaders(required, headers) <==>
      forall j :: 0 <= j < |headers| ==> Lower(headers[j]) != Lower(required[k])
    ensures HeaderErrors(required, headers) == [] <==>
      forall i :: 0 <= i < |required| ==> exists j :: 0 <= j < |headers| && Lower(headers[j]) == Lower(required[i])
  {
    MinusExact(LowerAll(required), LowerAll(headers));
    assert LowerAll(required)[k] == Lower(required[k]);
    if Lower(required[k]) in LowerAll(headers) {
      var j :| 0 <= j < |headers| && LowerAll(headers)[j] == Lower(required[k]);
    }
    if HeaderErrors(required, headers) == [] {
      forall i | 0 <= i < |required|
        ensures exists j :: 0 <= j < |headers| && Lower(headers[j]) == Lower(required[i])
      {
        assert LowerAll(required)[i] in LowerAll(required);
        var j :| 0 <= j < |headers| && LowerAll(headers)[j] == Lower(required[i]);
      }
    } else {
      var x := MissingHeaders(required, headers)[0];
      assert x in LowerAll(required) && x !in LowerAll(headers);
      var i :| 0 <= i < |required| && LowerAll(required)[i] == x;
      forall j | 0 <= j < |headers| ensures Lower(headers[j]) != Lower(required[i]) {
        assert LowerAll(headers)[j] == Lower(headers[j]);
      }
    }
  }

  /** The prefix every rescued CSV::MalformedCSVError gets. */
  function InvalidFormat(message: string): string { "Invalid CSV format: " + message }
}

/** The orders CSV validator (orders/services/csv_validator.rb). */
module OrdersCsvValidator {
  import opened Common
  import opened Strings
  import opened CsvFiles

  const RequiredHeaders: seq<string> := ["id", "merchant_reference", "amount", "created_at"]
  const ValidSeparators: seq<string> := [",", ";", "\t"]

  /** `validate_separator`'s message. */
  const InvalidSeparatorMessage := "Invalid separator detected. Valid separators are: " + JoinWith(ValidSeparators, ", ")

  /** The message of `CSV::MalformedCSVError.new("Could not detect valid separator", 1)`. */
  const NoSeparatorMessage := "Could not detect valid separator in line 1."

  /** The first candidate that splits the first line into more than one field;
      `fieldCount(sep)` is the size of `CSV.parse_line(first_line, col_sep: sep)`, 0 when it
      is nil or the line is malformed for that separator. */
  function FirstSeparator(candidates: seq<string>, fieldCount: string -> nat): Option<string>
  {
    if |candidates| == 0 then None
    else if fieldCount(candidates[0]) > 1 then Some(candidates[0])
    else FirstSeparator(candidates[1..], fieldCount)
  }

  /** The detected separator is the first candidate giving more than one field; there is
      none exactly when every candidate gives at most one. */
  lemma {:induction false} FirstSeparatorMeaning(candidates: seq<string>, fieldCount: string -> nat)
    ensures FirstSeparator(candidates, fieldCount).None? <==>
      forall i :: 0 <= i < |candidates| ==> fieldCount(candidates[i]) <= 1
    ensures FirstSeparator(candidates, fieldCount).Some? ==>
      exists k :: 0 <= k < |candidates| && candidates[k] == FirstSeparator(candidates, fieldCount).value
        && fieldCount(candidates[k]) > 1
        && forall i :: 0 <= i < k ==> fieldCount(candidates[i]) <= 1
  {
    if |candidates| > 0 && fieldCount(candidates[0]) <= 1 {
      FirstSeparatorMeaning(candidates[1..], fieldCount);
      if FirstSeparator(candidates, fieldCount).Some? {
        var k :| 0 <= k < |candidates[1..]| && candidates[1..][k] == FirstSeparator(candidates, fieldCount).value
          && fieldCount(candidates[1..][k]) > 1 && forall i :: 0 <= i < k ==> fieldCount(candidates[1..][i]) <= 1;
        assert candidates[k + 1] == candidates[1..][k];
        forall i | 0 <= i < k + 1 ensures fieldCount(candidates[i]) <= 1 {
          if i > 0 { assert candidates[i] == candidates[1..][i - 1]; }
        }
      } else {
        forall i | 0 <= i < |candidates| ensures fieldCount(candidates[i]) <= 1 {
          if i > 0 { assert candidates[i] == candidates[1..][i - 1]; }
        }
      }
    }
  }

  /** `call` on the file: `fieldCount` stands for parsing its first line, and
      `readHeaders(sep)` for `CSV.read(csv_path, headers: true, col_sep: sep).headers`,
      which gives the header row or the message of a CSV::MalformedCSVError. */
  function Validate(csvPath: string, file: CsvFile, fieldCount: string -> nat,
                    readHeaders: string -> Result<seq<string>, string>): Validation
  {
    match file
    case Missing => Validation(false, ["CSV file not found: " + csvPath], None)
    case Empty => Validation(false, ["CSV file is empty"], None)
    case Present =>
      match FirstSeparator(ValidSeparators, fieldCount)
      case None => Validation(false, [InvalidFormat(NoSeparatorMessage)], None)
      case Some(separator) =>
        var separatorErrors := if separator in ValidSeparators then [] else [InvalidSeparatorMessage];
        if |separatorErrors| > 0 then Validation(false, separatorErrors, Some(separator))
        else
          match readHeaders(separator)
          case Err(message) => Validation(false, [InvalidFormat(message)], None)
          case Ok(headers) =>
            var errors := HeaderErrors(RequiredHeaders, headers);
            if |errors| > 0 then Validation(false, errors, Some(separator))
            else Validation(true, [], Some(separator))
  }

  /** The result is valid, with no errors, exactly when the file has content, some candidate
      splits its first line, the file reads, and every required header is there; a valid
      result carries the first such candidate. The separator check never fires: once the
      headers are read, the errors are exactly the missing-header message or none. */
  lemma ValidateMeaning(csvPath: string, file: CsvFile, fieldCount: string -> nat,
                        readHeaders: string -> Result<seq<string>, string>)
    ensures var v := Validate(csvPath, file, fieldCount, readHeaders);
      && (v.valid <==> v.errors == [])
      && (v.valid <==>
            && file == Present
            && FirstSeparator(ValidSeparators, fieldCount).Some?
            && readHeaders(FirstSeparator(ValidSeparators, fieldCount).value).Ok?
            && HeaderErrors(RequiredHeaders, readHeaders(FirstSeparator(ValidSeparators, fieldCount).value).value) == [])
      && (v.separator.Some? ==> v.separator == FirstSeparator(ValidSeparators, fieldCount) && v.separator.value in ValidSeparators)
    ensures (file == Present && FirstSeparator(ValidSeparators, fieldCount).Some?
             && readHeaders(FirstSeparator(ValidSeparators, fieldCount).value).Ok?) ==>
      Validate(csvPath, file, fieldCount, readHeaders).errors
        == HeaderErrors(RequiredHeaders, readHeaders(FirstSeparator(ValidSeparators, fieldCount).value).value)
  {
    FirstSeparatorMeaning(ValidSeparators, fieldCount);
  }

  /** The early answers: a missing or empty file, and a first line no candidate splits. */
  lemma EarlyAnswers(csvPath: string, fieldCount: string -> nat, readHeaders: string -> Result<seq<string>, string>)
    ensures Validate(csvPath, Missing, fieldCount, readHeaders) == Validation(false, ["CSV file not found: " + csvPath], None)
    ensures Validate(csvPath, Empty, fieldCount, readHeaders) == Validation(false, ["CSV file is empty"], None)
    ensures (forall i :: 0 <= i < |ValidSeparators| ==> fieldCount(ValidSeparators[i]) <= 1) ==>
      Validate(csvPath, Present, fieldCount, readHeaders)
        == Validation(false, [InvalidFormat(NoSeparatorMessage)], None)
  {
    FirstSeparatorMeaning(ValidSeparators, fieldCount);
  }

  /** A semicolon file: "," gives one field and ";" several, so ";" is chosen. */
  lemma SemicolonChosen(fieldCount: string -> nat)
    requires fieldCount(",") == 1 && fieldCount(";") == 4
    ensures FirstSeparator(ValidSeparators, fieldCount) == Some(";")
  {
    assert ValidSeparators[1..] == [";", "\t"];
  }

  /** The validator object; `@errors` is the field the separator and header checks append to. */
  class Validator {
    const csvPath: string
    var errors: seq<string>

    constructor (csvPath: string)
      ensures this.csvPath == csvPath && errors == []
    {
      this.csvPath := csvPath;
      errors := [];
    }

    /** `detect_separator`: the candidates in order, returning at the first that splits the
        line. */
    method DetectSeparator(fieldCount: string -> nat) returns (r: Option<string>)
      ensures r == FirstSeparator(ValidSeparators, fieldCount)
    {
      var i := 0;
      while i < |ValidSeparators|
        invariant 0 <= i <= |ValidSeparators|
        invariant FirstSeparator(ValidSeparators, fieldCount) == FirstSeparator(ValidSeparators[i..], fieldCount)
      {
        assert ValidSeparators[i..][1..] == ValidSeparators[i + 1..];
        if fieldCount(ValidSeparators[i]) > 1 {
          return Some(ValidSeparators[i]);
        }
        i := i + 1;
      }
      r := None;
    }

    method Call(file: CsvFile, fieldCount: string -> nat, readHeaders: string -> Result<seq<string>, string>)
      returns (r: Validation)
      requires errors == []
      modifies this
      ensures r == Validate(csvPath, file, fieldCount, readHeaders)
      ensures errors == (if r.separator.Some? then r.errors else [])
    {
      if file == Missing {
        return Validation(false, ["CSV file not found: " + csvPath], None);
      }
      if file == Empty {
        return Validation(false, ["CSV file is empty"], None);
      }
      var detected := DetectSeparator(fieldCount);
      if detected.None? {
        return Validation(false, [InvalidFormat(NoSeparatorMessage)], None);
      }
      var separator := detected.value;
      if separator !in ValidSeparators {
        errors := errors + [InvalidSeparatorMessage];
      }
      if |errors| > 0 {
        return Validation(false, errors, Some(separator));
      }
      var read := readHeaders(separator);
      if read.Err? {
        return Validation(false, [InvalidFormat(read.error)], None);
      }
      errors := errors + HeaderErrors(RequiredHeaders, read.value);
      if |errors| > 0 {
        return Validation(false, errors, Some(separator));
      }
      r := Validation(true, [], Some(separator));
    }
  }
}

/** The merchants CSV validator (merchants/services/csv_validator.rb). */
module MerchantsCsvValidator {
  import opened Common
  import opened Strings
  import opened CsvFiles

  const RequiredHeaders: seq<string> := ["ID", "REFERENCE", "EMAIL", "LIVE_ON", "DISBURSEMENT_FREQUENCY", "MINIMUM_MONTHLY_FEE"]

  /** The third candidate is written in single quotes: a backslash followed by `t`, not a tab. */
  const BackslashT: string := ['\\', 't']
  const ValidSeparators: seq<string> := [",", ";", BackslashT]

  const InvalidSeparatorMessage := "Invalid separator detected. Valid separators are: " + JoinWith(ValidSeparators, ", ")

  /** The message of the ArgumentError raised when `raise CSV::MalformedCSVError, msg`
      calls an initializer that needs a line number too. */
  const WrongArguments := "wrong number of arguments (given 1, expected 2)"

  lemma ThirdCandidateIsNotTab()
    ensures |ValidSeparators[2]| == 2 && ValidSeparators[2][0] == '\\' && ValidSeparators[2][1] == 't'
    ensures "\t" !in ValidSeparators
  {
    assert "\t" != BackslashT;
  }

  /** The index `max_by` picks: the first candidate with the largest count. */
  function MaxByIndex(candidates: seq<string>, count: string -> nat): (k: nat)
    requires |candidates| > 0
    ensures k < |candidates|
    decreases |candidates|
  {
    if |candidates| == 1 then 0
    else
      var k := MaxByIndex(candidates[..|candidates| - 1], count);
      if count(candidates[|candidates| - 1]) > count(candidates[k]) then |candidates| - 1 else k
  }

  /** `max_by` picks a candidate whose count no other candidate exceeds, and every candidate
      before it counts strictly less; so ties go to the earliest candidate. */
  lemma {:induction false} MaxByIndexMeaning(candidates: seq<string>, count: string -> nat)
    requires |candidates| > 0
    ensures var k := MaxByIndex(candidates, count);
      && (forall i :: 0 <= i < |candidates| ==> count(candidates[i]) <= count(candidates[k]))
      && (forall i :: 0 <= i < k ==> count(candidates[i]) < count(candidates[k]))
    decreases |candidates|
  {
    if |candidates| > 1 {
      var init := candidates[..|candidates| - 1];
      MaxByIndexMeaning(init, count);
      var k := MaxByIndex(init, count);
      assert forall i :: 0 <= i < |init| ==> init[i] == candidates[i];
    }
  }

  /** `detect_separator` on a file with a first line: `count(sep)` stands for
      `first_line.count(sep)`. */
  function DetectSeparator(count: string -> nat): string
  {
    ValidSeparators[MaxByIndex(ValidSeparators, count)]
  }

  /** `call` on the file, with `count` for the first line's counts and `readHeaders` as for
      the orders validator. An empty file makes `readline` fail; the rescue then raises
      CSV::MalformedCSVError with one argument, which itself fails with an ArgumentError
      that `call` does not rescue. */
  function Validate(csvPath: string, file: CsvFile, count: string -> nat,
                    readHeaders: string -> Result<seq<string>, string>): Result<Validation, Error>
  {
    match file
    case Missing => Ok(Validation(false, ["CSV file not found: " + csvPath], None))
    case Empty => Err(Error(ArgumentError, WrongArguments))
    case Present =>
      var separator := DetectSeparator(count);
      var separatorErrors := if separator in ValidSeparators then [] else [InvalidSeparatorMessage];
      if |separatorErrors| > 0 then Ok(Validation(false, separatorErrors, Some(separator)))
      else
        match readHeaders(separator)
        case Err(message) => Ok(Validation(false, [InvalidFormat(message)], None))
        case Ok(headers) =>
          var errors := HeaderErrors(RequiredHeaders, headers);
          if |errors| > 0 then Ok(Validation(false, errors, Some(separator)))
          else Ok(Validation(true, [], Some(separator)))
  }

  /** Only an empty file raises. Otherwise the result is valid, with no errors, exactly when
      the file is there, reads with the detected separator and has every required header
      ignoring case; the detected separator is the first most frequent candidate and is
      always one of the candidates, so the separator check never fires: once the headers are
      read, the errors are exactly the missing-header message or none. */
  lemma ValidateMeaning(csvPath: string, file: CsvFile, count: string -> nat,
                        readHeaders: string -> Result<seq<string>, string>)
    ensures Validate(csvPath, file, count, readHeaders).Err? <==> file == Empty
    ensures Validate(csvPath, file, count, readHeaders).Ok? ==>
      var v := Validate(csvPath, file, count, readHeaders).value;
      var sep := DetectSeparator(count);
      && (v.valid <==> v.errors == [])
      && (v.valid <==> file == Present && readHeaders(sep).Ok? && HeaderErrors(RequiredHeaders, readHeaders(sep).value) == [])
      && (v.separator.Some? ==> v.separator == Some(sep))
    ensures file == Present && readHeaders(DetectSeparator(count)).Ok? ==>
      Validate(csvPath, file, count, readHeaders).value.errors
        == HeaderErrors(RequiredHeaders, readHeaders(DetectSeparator(count)).value)
    ensures DetectSeparator(count) in ValidSeparators
    ensures forall i :: 0 <= i < |ValidSeparators| ==> count(ValidSeparators[i]) <= count(DetectSeparator(count))
  {
    MaxByIndexMeaning(ValidSeparators, count);
  }

  /** A line with no candidate in it falls back to ","; a tie between "," and ";" goes to ",". */
  lemma SeparatorExamples(count: string -> nat)
    ensures (count(",") == 0 && count(";") == 0 && count(BackslashT) == 0) ==> DetectSeparator(count) == ","
    ensures (count(",") == 3 && count(";") == 3 && count(BackslashT) <= 3) ==> DetectSeparator(count) == ","
    ensures (count(",") == 0 && count(";") == 5 && count(BackslashT) <= 1) ==> DetectSeparator(count) == ";"
  {
    var vs := ValidSeparators;
    assert vs[..2] == [",", ";"] && vs[2] == BackslashT && |vs| == 3;
    assert vs[..2][..1] == [","];
    assert MaxByIndex([","], count) == 0;
    var k2 := MaxByIndex([",", ";"], count);
    assert k2 == if count(";") > count(",") then 1 else 0;
    assert MaxByIndex(vs, count) == if count(BackslashT) > count(vs[k2]) then 2 else k2;
  }

  class Validator {
    const csvPath: string
    var errors: seq<string>

    constructor (csvPath: string)
      ensures this.csvPath == csvPath && errors == []
    {
      this.csvPath := csvPath;
      errors := [];
    }

    method Call(file: CsvFile, count: string -> nat, readHeaders: string -> Result<seq<string>, string>)
      returns (r: Result<Validation, Error>)
      requires errors == []
      modifies this
      ensures r == Validate(csvPath, file, count, readHeaders)
      ensures r.Ok? ==> errors == (if r.value.separator.Some? then r.value.errors else [])
    {
      if file == Missing {
        return Ok(Validation(false, ["CSV file not found: " + csvPath], None));
      }
      if file == Empty {
        return Err(Error(ArgumentError, WrongArguments));
      }
      var separator := DetectSeparator(count);
      if separator !in ValidSeparators {
        errors := errors + [InvalidSeparatorMessage];
      }
      if |errors| > 0 {
        return Ok(Validation(false, errors, Some(separator)));
      }
      var read := readHeaders(separator);
      if read.Err? {
        return Ok(Validation(false, [InvalidFormat(read.error)], None));
      }
      errors := errors + HeaderErrors(RequiredHeaders, read.value);
      assert errors == HeaderErrors(RequiredHeaders, read.value);
      if |errors| > 0 {
        return Ok(Validation(false, errors, Some(separator)));
      }
      r := Ok(Validation(true, [], Some(separator)));
    }
  }
}
