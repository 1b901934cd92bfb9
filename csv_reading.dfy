/**
 * `CsvReader.readFile`: read a CSV file line by line into a `DataAnalyzer`,
 * isolating the failure of any one line.
 *
 * The file is a `FileInput` value: either it cannot be opened, or it is the
 * sequence of lines `readLine` returns, possibly with the `readLine` call
 * that throws an `IOException`. What the reader writes to the error stream
 * is returned as a sequence of `Diagnostic`s.
 */
module CsvReading {
  import opened Wrappers
  import opened StringTrim
  import opened NumberParsing
  import opened CalendarDates
  import opened SalesRecords
  import opened DataAnalysis

  // ---------------------------------------------------------------------
  // String.split(",")
  // ---------------------------------------------------------------------

  /** Every piece between commas, empty pieces included: `split` before trailing empties are removed. */
  function SplitAll(s: string): (parts: seq<string>)
    ensures |parts| >= 1
    ensures forall i :: 0 <= i < |parts| ==> ',' !in parts[i]
  {
    if |s| == 0 then [""]
    else
      var rest := SplitAll(s[1..]);
      if s[0] == ',' then [""] + rest else [[s[0]] + rest[0]] + rest[1..]
  }

  /** `String.join(",", parts)`. */
  function Join(parts: seq<string>): string
    requires |parts| >= 1
  {
    if |parts| == 1 then parts[0] else parts[0] + "," + Join(parts[1..])
  }

  /** Splitting loses nothing: joining the pieces with commas gives the line back. */
  lemma {:induction false} JoinSplitAll(s: string)
    ensures Join(SplitAll(s)) == s
  {
    if |s| > 0 {
      var rest := SplitAll(s[1..]);
      JoinSplitAll(s[1..]);
      var parts := SplitAll(s);
      if s[0] == ',' {
        assert parts[1..] == rest;
        assert s == "," + s[1..];
      } else if |rest| == 1 {
        assert s == [s[0]] + s[1..];
      } else {
        assert parts[1..] == rest[1..];
        assert s == [s[0]] + s[1..];
      }
    }
  }

  /** A comma-free piece followed by a comma splits off as the first field. */
  lemma {:induction false} SplitAllCons(x: string, y: string)
    requires ',' !in x
    ensures SplitAll(x + "," + y) == [x] + SplitAll(y)
  {
    if |x| == 0 {
      assert x + "," + y == "," + y;
      assert ("," + y)[1..] == y;
    } else {
      assert (x + "," + y)[1..] == x[1..] + "," + y;
      SplitAllCons(x[1..], y);
      assert [x[0]] + x[1..] == x;
    }
  }

  lemma {:induction false} SplitAllNoComma(x: string)
    requires ',' !in x
    ensures SplitAll(x) == [x]
  {
    if |x| > 0 {
      SplitAllNoComma(x[1..]);
      assert [x[0]] + x[1..] == x;
    }
  }

  /** Splitting undoes joining when no piece holds a comma. */
  lemma {:induction false} SplitAllJoin(parts: seq<string>)
    requires |parts| >= 1 && forall i :: 0 <= i < |parts| ==> ',' !in parts[i]
    ensures SplitAll(Join(parts)) == parts
  {
    if |parts| == 1 {
      SplitAllNoComma(parts[0]);
    } else {
      SplitAllJoin(parts[1..]);
      SplitAllCons(parts[0], Join(parts[1..]));
    }
  }

  /** Remove the empty pieces at the end. */
  function DropTrailingEmpty(parts: seq<string>): (kept: seq<string>)
    ensures |kept| <= |parts| && kept == parts[..|kept|]
    ensures kept == [] || kept[|kept| - 1] != ""
    ensures forall i :: |kept| <= i < |parts| ==> parts[i] == ""
  {
    if |parts| > 0 && parts[|parts| - 1] == "" then DropTrailingEmpty(parts[..|parts| - 1]) else parts
  }

  /**
   * `line.split(",")`: a line without a comma is the one field; otherwise
   * the pieces between commas with the trailing empty ones removed.
   */
  function SplitFields(line: string): seq<string> {
    if ',' !in line then [line] else DropTrailingEmpty(SplitAll(line))
  }

  /**
   * What `split` returns: the line itself when it has no comma; otherwise
   * comma-free pieces that, followed by only empty pieces, are all the
   * pieces between commas, the last of them non-empty.
   */
  lemma SplitFieldsShape(line: string)
    ensures ',' !in line ==> SplitFields(line) == [line]
    ensures forall i :: 0 <= i < |SplitFields(line)| ==> ',' !in SplitFields(line)[i]
    ensures ',' in line ==> SplitFields(line) == [] || SplitFields(line)[|SplitFields(line)| - 1] != ""
    ensures ',' in line ==>
      var parts, fields := SplitAll(line), SplitFields(line);
      |fields| <= |parts| && fields == parts[..|fields|] && (forall i :: |fields| <= i < |parts| ==> parts[i] == "")
  {
  }

  /** The fields, padded back with the removed empty pieces and joined, give the line. */
  lemma SplitFieldsRecovers(line: string)
    ensures Join(SplitAll(line)) == line
    ensures SplitFields(line) == SplitAll(line)[..|SplitFields(line)|]
  {
    JoinSplitAll(line);
    if ',' !in line {
      SplitAllNoComma(line);
    }
  }

  /** Joining one more piece adds a comma and that piece at the end. */
  lemma {:induction false} JoinSnoc(parts: seq<string>, p: string)
    requires |parts| >= 1
    ensures Join(parts + [p]) == Join(parts) + "," + p
  {
    if |parts| > 1 {
      assert (parts + [p])[1..] == parts[1..] + [p];
      JoinSnoc(parts[1..], p);
    }
  }

  /** A trailing comma adds no field: comma-free fields, the last non-empty, joined and followed by ',' split back to themselves. */
  lemma SplitTrailingComma(fields: seq<string>)
    requires |fields| >= 1 && forall i :: 0 <= i < |fields| ==> ',' !in fields[i]
    requires fields[|fields| - 1] != ""
    ensures SplitFields(Join(fields) + ",") == fields
  {
    var parts := fields + [""];
    JoinSnoc(fields, "");
    assert Join(fields) + "," + "" == Join(fields) + ",";
    SplitAllJoin(parts);
    var line := Join(fields) + ",";
    assert ',' in line by {
      assert line[|line| - 1] == ',';
    }
    assert parts[..|parts| - 1] == fields;
  }

  /** The trailing-comma line of the reader tests has three fields. */
  lemma SplitTrailingCommaExample()
    ensures SplitFields("2024-01-15,Mouse,10,") == ["2024-01-15", "Mouse", "10"]
  {
    var fields := ["2024-01-15", "Mouse", "10"];
    assert ',' !in fields[0] && ',' !in fields[1] && ',' !in fields[2];
    assert Join(fields[1..]) == "Mouse,10";
    assert Join(fields) + "," == "2024-01-15,Mouse,10,";
    SplitTrailingComma(fields);
  }

  // ---------------------------------------------------------------------
  // The input file and what the reader reports
  // ---------------------------------------------------------------------

  /** The `readLine` call number `at` (0 is the header) throws an IOException with this message. */
  datatype ReadFailure = ReadFailure(at: nat, message: string)

  datatype FileInput =
    | Missing(message: string)
    | Opened(lines: seq<string>, failure: Option<ReadFailure>)

  /** One line the reader writes to the error stream. */
  datatype Diagnostic =
    | LineFailed(lineNumber: int, error: RecordError)
    | FileNotFound(path: string, message: string)
    | ReadError(message: string)

  const LINE_PREFIX: string := "Error processing line "
  const NOT_FOUND_PREFIX: string := "File not found at "
  const READ_PREFIX: string := "Error reading file: "

  /** The text of a diagnostic. */
  function Text(d: Diagnostic): (text: string)
    ensures d.LineFailed? ==> |text| > |LINE_PREFIX| && text[..|LINE_PREFIX|] == LINE_PREFIX
    ensures d.FileNotFound? ==>
      |text| > |NOT_FOUND_PREFIX| + |d.path| && text[..|NOT_FOUND_PREFIX| + |d.path|] == NOT_FOUND_PREFIX + d.path
    ensures d.ReadError? ==> text == READ_PREFIX + d.message
  {
    match d
    case LineFailed(n, e) => LINE_PREFIX + IntToString(n) + ": " + Message(e)
    case FileNotFound(path, message) => NOT_FOUND_PREFIX + path + "\n" + message
    case ReadError(message) => READ_PREFIX + message
  }

  /** A parser from split fields to a record, such as `fromCsvFields`. */
  type FieldsParser = seq<string> -> Result<SalesRecord, RecordError>

  /** The record parser the reader calls: the one as written, or the validating one. */
  function ParseFields(fields: seq<string>, checked: bool): Result<SalesRecord, RecordError> {
    if checked then FromCsvFieldsChecked(fields) else FromCsvFields(fields)
  }

  function Parser(checked: bool): FieldsParser {
    fields => ParseFields(fields, checked)
  }

  /** How one data line is turned into a record. */
  function ParseLine(line: string, checked: bool): Result<SalesRecord, RecordError> {
    ParseFields(SplitFields(line), checked)
  }

  /** A line `readFile` skips: by `TrimEmptyIff`, one whose `trim()` is empty. */
  predicate IsBlank(line: string) {
    forall i :: 0 <= i < |line| ==> IsTrimmed(line[i])
  }

  lemma BlankIffTrimEmpty(line: string)
    ensures IsBlank(line) <==> Trim(line) == ""
  {
    TrimEmptyIff(line);
  }

  /** The data lines that are not blank, in order. */
  function NonBlank(ls: seq<string>): (kept: seq<string>)
    ensures |kept| <= |ls|
  {
    if |ls| == 0 then []
    else NonBlank(ls[..|ls| - 1]) + (if IsBlank(ls[|ls| - 1]) then [] else [ls[|ls| - 1]])
  }

  /** The record one line contributes: none for a blank line or a failed parse. */
  function LineRecords(line: string, parse: FieldsParser): (rs: seq<SalesRecord>)
    ensures |rs| <= 1
  {
    if !IsBlank(line) && parse(SplitFields(line)).Success? then [parse(SplitFields(line)).value] else []
  }

  /** The diagnostic one line contributes: one for a non-blank line whose parse fails. */
  function LineReport(line: string, lineNumber: int, parse: FieldsParser): (ds: seq<Diagnostic>)
    ensures |ds| <= 1
    ensures |LineRecords(line, parse)| + |ds| == if IsBlank(line) then 0 else 1
  {
    if !IsBlank(line) && parse(SplitFields(line)).Failure?
    then [LineFailed(lineNumber, parse(SplitFields(line)).error)]
    else []
  }

  /** The records the lines produce, in order. */
  function RecordsOf(ls: seq<string>, parse: FieldsParser): seq<SalesRecord> {
    if |ls| == 0 then []
    else RecordsOf(ls[..|ls| - 1], parse) + LineRecords(ls[|ls| - 1], parse)
  }

  /** One diagnostic per non-blank line that fails, numbered by counting non-blank lines after the header. */
  function LineDiagnostics(ls: seq<string>, parse: FieldsParser): seq<Diagnostic> {
    if |ls| == 0 then []
    else LineDiagnostics(ls[..|ls| - 1], parse) + LineReport(ls[|ls| - 1], 1 + |NonBlank(ls)|, parse)
  }

  /** The lines `readLine` delivers after the header, up to the end or the call that throws. */
  function DataLines(lines: seq<string>, failure: Option<ReadFailure>): (data: seq<string>)
    ensures |lines| <= 1 ==> data == []
    ensures failure.None? && |lines| >= 1 ==> data == lines[1..]
  {
    var stop := if failure.Some? && failure.value.at < |lines| then failure.value.at else |lines|;
    if stop <= 1 then [] else lines[1..stop]
  }

  /**
   * The IOException that ends the read, when the throwing call is reached:
   * the calls are numbered 0 (the header) up to the one that returns null,
   * which is call |lines|, or call 1 for an empty file.
   */
  function ReadFailureMessage(lines: seq<string>, failure: Option<ReadFailure>): Option<string> {
    if failure.Some? && (failure.value.at <= |lines| || failure.value.at == 1)
    then Some(failure.value.message)
    else None
  }

  function RecordsIn(input: FileInput, checked: bool): seq<SalesRecord> {
    match input
    case Missing(_) => []
    case Opened(lines, failure) => RecordsOf(DataLines(lines, failure), Parser(checked))
  }

  function FailuresIn(input: FileInput, checked: bool): nat {
    match input
    case Missing(_) => 0
    case Opened(lines, failure) => |LineDiagnostics(DataLines(lines, failure), Parser(checked))|
  }

  /** Everything the reader writes to the error stream for a file that opened. */
  function OpenedDiagnostics(lines: seq<string>, failure: Option<ReadFailure>, parse: FieldsParser): seq<Diagnostic> {
    LineDiagnostics(DataLines(lines, failure), parse) +
      (match ReadFailureMessage(lines, failure) case Some(m) => [ReadError(m)] case None => [])
  }

  /** Everything written to the error stream, in order. */
  function DiagnosticsOf(path: string, input: FileInput, checked: bool): seq<Diagnostic> {
    match input
    case Missing(message) => [FileNotFound(path, message)]
    case Opened(lines, failure) => OpenedDiagnostics(lines, failure, Parser(checked))
  }

  lemma NonBlankStep(ls: seq<string>, line: string)
    ensures NonBlank(ls + [line]) == NonBlank(ls) + (if IsBlank(line) then [] else [line])
  {
    var all := ls + [line];
    assert all[..|all| - 1] == ls;
  }

  lemma RecordsStep(ls: seq<string>, line: string, parse: FieldsParser)
    ensures RecordsOf(ls + [line], parse) == RecordsOf(ls, parse) + LineRecords(line, parse)
  {
    var all := ls + [line];
    assert all[..|all| - 1] == ls;
  }

  lemma DiagnosticsStep(ls: seq<string>, line: string, parse: FieldsParser)
    ensures LineDiagnostics(ls + [line], parse) ==
      LineDiagnostics(ls, parse) + LineReport(line, 1 + |NonBlank(ls + [line])|, parse)
  {
    var all := ls + [line];
    assert all[..|all| - 1] == ls;
  }

  lemma AppendAssoc<T>(a: seq<T>, b: seq<T>, c: seq<T>)
    ensures (a + b) + c == a + (b + c)
  {
  }

  /** One more line extends the records processed so far by that line's record. */
  lemma ExtendProcessed(start: seq<SalesRecord>, seen: seq<string>, line: string, next: seq<string>,
                        parse: FieldsParser, before: seq<SalesRecord>, after: seq<SalesRecord>)
    requires next == seen + [line]
    requires before == start + RecordsOf(seen, parse)
    requires after == before + LineRecords(line, parse)
    ensures after == start + RecordsOf(next, parse)
  {
    RecordsStep(seen, line, parse);
    AppendAssoc(start, RecordsOf(seen, parse), LineRecords(line, parse));
  }

  /** One more non-blank line is counted and extends the diagnostics by its report. */
  lemma ExtendDiagnostics(seen: seq<string>, line: string, next: seq<string>, parse: FieldsParser,
                          before: seq<Diagnostic>, reported: seq<Diagnostic>, lineNumber: int)
    requires next == seen + [line]
    requires !IsBlank(line)
    requires before == LineDiagnostics(seen, parse)
    requires lineNumber == 2 + |NonBlank(seen)|
    requires reported == LineReport(line, lineNumber, parse)
    ensures lineNumber == 1 + |NonBlank(next)|
    ensures before + reported == LineDiagnostics(next, parse)
  {
    NonBlankStep(seen, line);
    DiagnosticsStep(seen, line, parse);
  }

  /** A blank line changes none of the three specification functions. */
  lemma BlankStep(seen: seq<string>, line: string, next: seq<string>, parse: FieldsParser)
    requires next == seen + [line]
    requires IsBlank(line)
    ensures NonBlank(next) == NonBlank(seen)
    ensures RecordsOf(next, parse) == RecordsOf(seen, parse)
    ensures LineDiagnostics(next, parse) == LineDiagnostics(seen, parse)
  {
    NonBlankStep(seen, line);
    RecordsStep(seen, line, parse);
    DiagnosticsStep(seen, line, parse);
    assert RecordsOf(seen, parse) + [] == RecordsOf(seen, parse);
    assert LineDiagnostics(seen, parse) + [] == LineDiagnostics(seen, parse);
  }

  lemma SliceSnoc(lines: seq<string>, k: nat)
    requires 1 <= k < |lines|
    ensures lines[1..k + 1] == lines[1..k] + [lines[k]]
  {
  }

  /**
   * `readFile(filePath, analyzer)`. The header line is read and dropped;
   * each later line that is not blank is split, parsed and either processed
   * or counted as a failure with a numbered diagnostic. `checked` selects
   * the validating record constructor instead of the one as written.
   */
  method ReadFile(path: string, input: FileInput, analyzer: DataAnalyzer, checked: bool) returns (diagnostics: seq<Diagnostic>)
    requires analyzer.Valid()
    modifies analyzer
    ensures analyzer.Valid()
    ensures analyzer.processed == old(analyzer.processed) + RecordsIn(input, checked)
    ensures analyzer.failedRecords == old(analyzer.failedRecords) + FailuresIn(input, checked)
    ensures diagnostics == DiagnosticsOf(path, input, checked)
  {
    match input
    case Missing(message) =>
      diagnostics := [FileNotFound(path, message)];
    case Opened(lines, failure) =>
      diagnostics := ReadLines(lines, failure, analyzer, Parser(checked));
  }

  /**
   * One non-blank line: split it, parse the fields, and either process the
   * record or count the failure and report it under `lineNumber`. Every
   * failure the parser can produce is one of the three exception kinds
   * the loop catches.
   */
  method ProcessLine(line: string, lineNumber: int, analyzer: DataAnalyzer, parse: FieldsParser)
    returns (reported: seq<Diagnostic>)
    requires !IsBlank(line)
    requires analyzer.Valid()
    modifies analyzer
    ensures analyzer.Valid()
    ensures analyzer.processed == old(analyzer.processed) + LineRecords(line, parse)
    ensures reported == LineReport(line, lineNumber, parse)
    ensures analyzer.failedRecords == old(analyzer.failedRecords) + |reported|
  {
    var fields := SplitFields(line);
    match parse(fields)
    case Success(record) =>
      analyzer.ProcessRecord(record);
      reported := [];
    case Failure(e) =>
      analyzer.RecordError();
      reported := [LineFailed(lineNumber, e)];
  }

  /** The body of the try block: the header, then the line loop until the end or an IOException. */
  method ReadLines(lines: seq<string>, failure: Option<ReadFailure>, analyzer: DataAnalyzer, parse: FieldsParser)
    returns (diagnostics: seq<Diagnostic>)
    requires analyzer.Valid()
    modifies analyzer
    ensures analyzer.Valid()
    ensures analyzer.processed == old(analyzer.processed) + RecordsOf(DataLines(lines, failure), parse)
    ensures analyzer.failedRecords == old(analyzer.failedRecords) + |LineDiagnostics(DataLines(lines, failure), parse)|
    ensures diagnostics == OpenedDiagnostics(lines, failure, parse)
  {
    if failure.Some? && failure.value.at == 0 {
      diagnostics := [ReadError(failure.value.message)];
      return;
    }
    if |lines| == 0 {
      diagnostics := [];
      if failure.Some? && failure.value.at == 1 {
        diagnostics := [ReadError(failure.value.message)];
      }
      return;
    }
    var k;
    diagnostics, k := LineLoop(lines, failure, analyzer, parse);
    assert DataLines(lines, failure) == lines[1..k];
    if failure.Some? && failure.value.at == k {
      diagnostics := diagnostics + [ReadError(failure.value.message)];
    }
  }

  /**
   * The `while` loop over the data lines: `k` is the number of the next
   * `readLine` call. It ends at the last line or at the call that throws.
   */
  method LineLoop(lines: seq<string>, failure: Option<ReadFailure>, analyzer: DataAnalyzer, parse: FieldsParser)
    returns (diagnostics: seq<Diagnostic>, k: nat)
    requires |lines| >= 1 && (failure.Some? ==> failure.value.at >= 1)
    requires analyzer.Valid()
    modifies analyzer
    ensures 1 <= k <= |lines|
    ensures k == |lines| || (failure.Some? && failure.value.at == k)
    ensures failure.Some? ==> failure.value.at >= k
    ensures analyzer.Valid()
    ensures analyzer.processed == old(analyzer.processed) + RecordsOf(lines[1..k], parse)
    ensures diagnostics == LineDiagnostics(lines[1..k], parse)
    ensures analyzer.failedRecords == old(analyzer.failedRecords) + |diagnostics|
  {
    diagnostics := [];
    k := 1;
    var lineCount := 1;
    ghost var seen: seq<string> := [];
    while k < |lines| && !(failure.Some? && failure.value.at == k)
      invariant 1 <= k <= |lines| && seen == lines[1..k]
      invariant failure.Some? ==> failure.value.at >= k
      invariant lineCount == 1 + |NonBlank(seen)|
      invariant diagnostics == LineDiagnostics(seen, parse)
      invariant analyzer.Valid()
      invariant analyzer.processed == old(analyzer.processed) + RecordsOf(seen, parse)
      invariant analyzer.failedRecords == old(analyzer.failedRecords) + |diagnostics|
    {
      var line := lines[k];
      if !IsBlank(line) {
        lineCount := lineCount + 1;
        ghost var before := analyzer.processed;
        var reported := ProcessLine(line, lineCount, analyzer, parse);
        ExtendProcessed(old(analyzer.processed), seen, line, seen + [line], parse, before, analyzer.processed);
        ExtendDiagnostics(seen, line, seen + [line], parse, diagnostics, reported, lineCount);
        diagnostics := diagnostics + reported;
      } else {
        BlankStep(seen, line, seen + [line], parse);
      }
      SliceSnoc(lines, k);
      seen := seen + [line];
      k := k + 1;
    }
  }

  // ---------------------------------------------------------------------
  // Properties of the line loop
  // ---------------------------------------------------------------------

  /** Every non-blank data line yields exactly one record or one failure. */
  lemma {:induction false} RecordsPlusFailures(ls: seq<string>, parse: FieldsParser)
    ensures |RecordsOf(ls, parse)| + |LineDiagnostics(ls, parse)| == |NonBlank(ls)|
  {
    if |ls| > 0 {
      RecordsPlusFailures(ls[..|ls| - 1], parse);
    }
  }

  /**
   * The line numbers in the diagnostics are strictly increasing, start
   * after the header's 1, and never exceed 1 + the number of non-blank lines.
   */
  lemma {:induction false} DiagnosticLineNumbers(ls: seq<string>, parse: FieldsParser)
    ensures forall i :: 0 <= i < |LineDiagnostics(ls, parse)| ==>
      LineDiagnostics(ls, parse)[i].LineFailed? &&
      2 <= LineDiagnostics(ls, parse)[i].lineNumber <= 1 + |NonBlank(ls)|
    ensures forall i, j :: 0 <= i < j < |LineDiagnostics(ls, parse)| ==>
      LineDiagnostics(ls, parse)[i].lineNumber < LineDiagnostics(ls, parse)[j].lineNumber
  {
    if |ls| > 0 {
      var prefix := ls[..|ls| - 1];
      DiagnosticLineNumbers(prefix, parse);
      assert |NonBlank(prefix)| <= |NonBlank(ls)|;
    }
  }

  /** Only non-blank lines are kept. */
  lemma {:induction false} NonBlankKeepsNonBlank(ls: seq<string>)
    ensures forall i :: 0 <= i < |NonBlank(ls)| ==> !IsBlank(NonBlank(ls)[i])
  {
    if |ls| > 0 {
      NonBlankKeepsNonBlank(ls[..|ls| - 1]);
    }
  }

  /** Lines that are all non-blank are kept as they are. */
  lemma {:induction false} NonBlankOfNonBlank(ls: seq<string>)
    requires forall i :: 0 <= i < |ls| ==> !IsBlank(ls[i])
    ensures NonBlank(ls) == ls
  {
    if |ls| > 0 {
      var prefix := ls[..|ls| - 1];
      NonBlankOfNonBlank(prefix);
      NonBlankStep(prefix, ls[|ls| - 1]);
      assert prefix + [ls[|ls| - 1]] == ls;
    }
  }

  /** Filtering twice keeps what filtering once kept. */
  lemma {:induction false} NonBlankIdempotent(ls: seq<string>)
    ensures NonBlank(NonBlank(ls)) == NonBlank(ls)
  {
    if |ls| > 0 {
      var prefix, line := ls[..|ls| - 1], ls[|ls| - 1];
      assert prefix + [line] == ls;
      NonBlankIdempotent(prefix);
      NonBlankStep(prefix, line);
      if IsBlank(line) {
        assert NonBlank(ls) == NonBlank(prefix);
      } else {
        assert NonBlank(ls) == NonBlank(prefix) + [line];
        NonBlankStep(NonBlank(prefix), line);
      }
    }
  }

  /** Blank lines are ignored: the records are those of the non-blank lines alone. */
  lemma {:induction false} BlankLinesIgnoredRecords(ls: seq<string>, parse: FieldsParser)
    ensures RecordsOf(NonBlank(ls), parse) == RecordsOf(ls, parse)
  {
    if |ls| > 0 {
      var prefix, line := ls[..|ls| - 1], ls[|ls| - 1];
      assert prefix + [line] == ls;
      BlankLinesIgnoredRecords(prefix, parse);
      var kept := NonBlank(prefix);
      if IsBlank(line) {
        BlankStep(prefix, line, ls, parse);
      } else {
        NonBlankStep(prefix, line);
        assert NonBlank(ls) == kept + [line];
        RecordsStep(prefix, line, parse);
        RecordsStep(kept, line, parse);
      }
    }
  }

  /** Blank lines are ignored: the diagnostics, line numbers included, are those of the non-blank lines alone. */
  lemma {:induction false} BlankLinesIgnoredDiagnostics(ls: seq<string>, parse: FieldsParser)
    ensures LineDiagnostics(NonBlank(ls), parse) == LineDiagnostics(ls, parse)
  {
    if |ls| > 0 {
      var prefix, line := ls[..|ls| - 1], ls[|ls| - 1];
      assert prefix + [line] == ls;
      BlankLinesIgnoredDiagnostics(prefix, parse);
      var kept := NonBlank(prefix);
      if IsBlank(line) {
        BlankStep(prefix, line, ls, parse);
      } else {
        NonBlankDiagnosticsStep(prefix, line, parse);
      }
    }
  }

  /** A non-blank line keeps the diagnostics of the kept lines equal to those of all lines. */
  lemma NonBlankDiagnosticsStep(prefix: seq<string>, line: string, parse: FieldsParser)
    requires !IsBlank(line)
    requires LineDiagnostics(NonBlank(prefix), parse) == LineDiagnostics(prefix, parse)
    ensures LineDiagnostics(NonBlank(prefix + [line]), parse) == LineDiagnostics(prefix + [line], parse)
  {
    var kept := NonBlank(prefix);
    NonBlankStep(prefix, line);
    assert |NonBlank(kept + [line])| == |NonBlank(prefix + [line])| by {
      NonBlankStep(kept, line);
      NonBlankIdempotent(prefix);
    }
    DiagnosticsStep(prefix, line, parse);
    DiagnosticsStep(kept, line, parse);
  }

  /** An empty or header-only file changes nothing and reports nothing. */
  lemma HeaderOnlyChangesNothing(path: string, lines: seq<string>, checked: bool)
    requires |lines| <= 1
    ensures RecordsIn(Opened(lines, None), checked) == []
    ensures FailuresIn(Opened(lines, None), checked) == 0
    ensures DiagnosticsOf(path, Opened(lines, None), checked) == []
  {
  }

  lemma SplitTwoFieldsExample()
    ensures SplitFields("2024-01-15,Mouse") == ["2024-01-15", "Mouse"]
  {
    var two := ["2024-01-15", "Mouse"];
    assert "2024-01-15,Mouse" == Join(two);
    assert "2024-01-15,Mouse"[10] == ',';
    SplitAllJoin(two);
  }

  /** A line with too few fields is a failure under either parser. */
  lemma MissingFieldsFail(checked: bool)
    ensures ParseLine("2024-01-15,Mouse", checked) == Failure(IndexOutOfBounds(2, 2))
  {
    SplitTwoFieldsExample();
    FromCsvFieldsMissingFieldsExample();
  }

  /** A trailing comma drops the price field, so the line fails under either parser. */
  lemma TrailingCommaFails(checked: bool)
    ensures ParseLine("2024-01-15,Mouse,10,", checked) == Failure(IndexOutOfBounds(3, 3))
  {
    SplitTrailingCommaExample();
    FromCsvFieldsThreeFieldsExample();
  }
}
