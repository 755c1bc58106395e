/** Running a submission's tests one process per test, or all in one process whose reports are read
    back line by line: two ways to the same verdicts. */
module Judging {
  import opened Results
  import opened Comparator
  import opened Options
  import opened Text
  import opened Errors

  const MAX_TEST_OUTPUT := 64 * 1024

  // What is judged: the expected value of each test, and how to compare.
  datatype Problem = Problem(expected: seq<Json>, compare: Config)

  /** The wrapper's report on one test: an output, or an error with its traceback. */
  datatype Report = Report(output: Json, error: string, traceback: string)

  predicate MentionsOom(s: string) {
    Mentions(s, "outofmemory")
  }

  function Compared(tr: TestResult, expected: Json, output: Json, cfg: Config): TestResult {
    var passed := Matches(expected, output, Tolerance(cfg), cfg.orderInsensitive);
    tr.(passed := passed, ok := passed, errorType := if passed then tr.errorType else WrongAnswerType)
  }

  // -- one process per test ----------------------------------------------------------------------------

  /** What came of running one test: the input could not be encoded, the run failed, or it ended with
      so many characters of standard output and a report, if one could be read. */
  datatype TestRun =
    | NotEncoded(message: string)
    | Failed(error: ExecError)
    | Ended(stdoutLength: nat, report: Option<Report>)

  predicate HasKind(e: ExecError, kind: ErrorKind) {
    e.Execution? && e.kind == kind
  }

  predicate TimedOut(e: ExecError) {
    HasKind(e, TimeKind) || e.Deadline? || Mentions(e.text, "deadline exceeded") || Mentions(e.text, "timed out")
  }

  predicate OutOfMemory(e: ExecError) {
    HasKind(e, MemoryKind) || Mentions(e.text, "memory limit exceeded")
  }

  /** What an error says of time and memory: its kind, the deadline, or one of the phrases in any case. */
  lemma ErrorSays(e: ExecError)
    ensures TimedOut(e) <==>
      HasKind(e, TimeKind) || e.Deadline? || Occurs("deadline exceeded", ToLower(e.text)) || Occurs("timed out", ToLower(e.text))
    ensures OutOfMemory(e) <==> HasKind(e, MemoryKind) || Occurs("memory limit exceeded", ToLower(e.text))
  {
    MentionsIff(e.text, "deadline exceeded");
    MentionsIff(e.text, "timed out");
    MentionsIff(e.text, "memory limit exceeded");
  }

  lemma OomSays(s: string)
    ensures MentionsOom(s) <==> Occurs("outofmemory", ToLower(s))
  {
    MentionsIff(s, "outofmemory");
  }

  function PerTestReport(p: Problem, i: nat, r: Report): TestResult
    requires i < |p.expected|
  {
    if r.error != "" then
      MarkFailed(Fresh(i + 1),
                 if MentionsOom(r.error) || MentionsOom(r.traceback) then MemoryLimitExceeded else RuntimeError)
    else Compared(Fresh(i + 1), p.expected[i], r.output, p.compare)
  }

  function PerTestResult(p: Problem, i: nat, run: TestRun): TestResult
    requires i < |p.expected|
  {
    match run
    case NotEncoded(message) => MarkFailed(Fresh(i + 1), RuntimeError).(error := Text(message))
    case Failed(e) =>
      MarkFailed(Fresh(i + 1), if TimedOut(e) then TimeLimitExceeded
                               else if OutOfMemory(e) then MemoryLimitExceeded else RuntimeError)
    case Ended(length, report) =>
      if length > MAX_TEST_OUTPUT then MarkFailed(Fresh(i + 1), WrongAnswer).(error := OutputLimitExceeded)
      else if report.None? then MarkFailed(Fresh(i + 1), RuntimeError)
      else PerTestReport(p, i, report.value)
  }

  function InternalAfter(run: TestRun, before: InternalError): InternalError {
    match run
    case NotEncoded(_) => before
    case Failed(e) => if TimedOut(e) || OutOfMemory(e) then before else WrapperError
    case Ended(length, report) => if length <= MAX_TEST_OUTPUT && report.None? then JudgeError else before
  }

  /** The internal-error mark after the first `k` runs: each one that raises it overwrites it. */
  function InternalOf(runs: seq<TestRun>, k: nat): InternalError
    requires k <= |runs|
  {
    if k == 0 then NoInternalError else InternalAfter(runs[k - 1], InternalOf(runs, k - 1))
  }

  /** The wrapper's report, if the run ended with one and without printing too much. */
  function Readable(run: TestRun): Option<Report> {
    match run
    case Ended(length, report) => if length <= MAX_TEST_OUTPUT then report else None
    case _ => None
  }

  /** A test passes exactly when its run ended with a readable report of no error and the right output;
      it is out of time exactly when the run says so; and a fault of the judge is noted exactly when the
      run failed for no reason of its program's, or ended within its limit with nothing to read. */
  method JudgeRun(p: Problem, i: nat, run: TestRun, before: InternalError) returns (tr: TestResult, after: InternalError)
    requires i < |p.expected|
    ensures tr == PerTestResult(p, i, run) && after == InternalAfter(run, before)
    ensures tr.test == i + 1
    ensures tr.passed <==>
      && Readable(run).Some? && Readable(run).value.error == ""
      && Matches(p.expected[i], Readable(run).value.output, Tolerance(p.compare), p.compare.orderInsensitive)
    ensures tr.errorType == Timeout <==> run.Failed? && TimedOut(run.error)
    ensures tr.errorType == MemoryLimitType <==>
      || (run.Failed? && !TimedOut(run.error) && OutOfMemory(run.error))
      || (Readable(run).Some? && Readable(run).value.error != ""
          && (MentionsOom(Readable(run).value.error) || MentionsOom(Readable(run).value.traceback)))
    ensures tr.errorType == WrongAnswerType <==>
      || (run.Ended? && run.stdoutLength > MAX_TEST_OUTPUT)
      || (Readable(run).Some? && Readable(run).value.error == ""
          && !Matches(p.expected[i], Readable(run).value.output, Tolerance(p.compare), p.compare.orderInsensitive))
    ensures tr.errorType == Runtime <==>
      || run.NotEncoded? || (run.Failed? && !TimedOut(run.error) && !OutOfMemory(run.error))
      || (run.Ended? && run.stdoutLength <= MAX_TEST_OUTPUT && run.report.None?)
      || (Readable(run).Some? && Readable(run).value.error != ""
          && !MentionsOom(Readable(run).value.error) && !MentionsOom(Readable(run).value.traceback))
    ensures after != before ==> !tr.passed && tr.errorType == Runtime
    ensures after != before ==>
      run.Failed? || (run.Ended? && run.stdoutLength <= MAX_TEST_OUTPUT && Readable(run).None?)
    ensures after == WrapperError <== run.Failed? && tr.errorType == Runtime
    ensures after == JudgeError <== run.Ended? && run.stdoutLength <= MAX_TEST_OUTPUT && Readable(run).None?
  {
    tr, after := Fresh(i + 1), before;
    match run {
      case NotEncoded(message) =>
        tr := MarkFailed(tr, RuntimeError);
        tr := tr.(error := Text(message));
      case Failed(e) =>
        if TimedOut(e) {
          tr := MarkFailed(tr, TimeLimitExceeded);
        } else if OutOfMemory(e) {
          tr := MarkFailed(tr, MemoryLimitExceeded);
        } else {
          tr, after := MarkFailed(tr, RuntimeError), WrapperError;
        }
      case Ended(length, report) =>
        if length > MAX_TEST_OUTPUT {
          tr := MarkFailed(tr, WrongAnswer);
          tr := tr.(error := OutputLimitExceeded);
        } else if report.None? {
          tr, after := MarkFailed(tr, RuntimeError), JudgeError;
        } else if report.value.error != "" {
          var reason := RuntimeError;
          if MentionsOom(report.value.error) || MentionsOom(report.value.traceback) {
            reason := MemoryLimitExceeded;
          }
          tr := MarkFailed(tr, reason);
        } else {
          tr := JudgeOutput(tr, p.expected[i], report.value.output, p.compare);
        }
    }
  }

  method JudgeOutput(fresh_: TestResult, expected: Json, output: Json, cfg: Config) returns (tr: TestResult)
    ensures tr == Compared(fresh_, expected, output, cfg)
  {
    var same := Comparator.Compare(expected, output, cfg);
    tr := fresh_.(passed := same, ok := same);
    if !same {
      tr := tr.(errorType := WrongAnswerType);
    }
  }

  method AppendRun(result: SubmissionResult, p: Problem, i: nat, run: TestRun)
    requires result.Valid() && i < |p.expected|
    modifies result
    ensures result.Valid() && result.details == old(result.details) + [Normalize(PerTestResult(p, i, run))]
    ensures result.internalError == InternalAfter(run, old(result.internalError))
  {
    var tr, internalError := JudgeRun(p, i, run, result.internalError);
    result.internalError := internalError;
    result.AddTestResult(tr);
  }

  /** One result per test, in order, each depending on that test's run alone. */
  method RunPerTest(p: Problem, runs: seq<TestRun>) returns (result: SubmissionResult)
    requires |runs| == |p.expected|
    ensures fresh(result) && result.Valid()
    ensures |result.details| == |runs|
    ensures forall i | 0 <= i < |runs| :: result.details[i] == Normalize(PerTestResult(p, i, runs[i]))
    ensures result.internalError == InternalOf(runs, |runs|)
    ensures result.Summarized() == PerTestSummary(p, runs)
  {
    result := new SubmissionResult();
    ghost var all := LoopDetails(p, runs);
    for i := 0 to |runs|
      invariant result.Valid() && fresh(result) && result.details == all[..i]
      invariant result.internalError == InternalOf(runs, i)
    {
      AppendRun(result, p, i, runs[i]);
      assert all[..i + 1] == all[..i] + [all[i]];
    }
    assert all[..|runs|] == all;
    result.UpdateStatus();
  }

  function LoopDetails(p: Problem, runs: seq<TestRun>): (details: seq<TestResult>)
    requires |runs| == |p.expected|
    ensures |details| == |runs|
  {
    seq(|runs|, i requires 0 <= i < |runs| => Normalize(PerTestResult(p, i, runs[i])))
  }

  function PerTestSummary(p: Problem, runs: seq<TestRun>): Summary
    requires |runs| == |p.expected|
  {
    Summary(StatusOf(LoopDetails(p, runs), Accepted), InternalOf(runs, |runs|), "")
  }

  // -- one process for all tests ------------------------------------------------------------------------

  /** A line of the wrapper's error stream decoded as a batch report. */
  datatype Record = Record(test: int, report: Report, fatal: string)

  /** White space that Go's TrimSpace removes. */
  predicate IsSpace(c: char) {
    || c == ' ' || '\t' <= c <= '\r' || c == '\U{0085}' || c == '\U{00A0}' || c == '\U{1680}'
    || '\U{2000}' <= c <= '\U{200A}' || c == '\U{2028}' || c == '\U{2029}' || c == '\U{202F}' || c == '\U{205F}'
    || c == '\U{3000}'
  }

  /** The record on a line, if the line is one: it must look like a JSON object and decode. */
  function RecordOn(line: string, decode: string -> Option<Record>): Option<Record> {
    var text := Trim(line, IsSpace);
    if text == "" || text[0] != '{' then None else decode(text)
  }

  // The JSON library is a parameter: `decode` gives the record a text stands for, if any.
  type Decoder = string -> Option<Record>

  predicate IsFatal(line: string, decode: Decoder) {
    var r := RecordOn(line, decode);
    r.Some? && r.value.fatal != ""
  }

  predicate Counts(line: string, decode: Decoder, tests: nat) {
    var r := RecordOn(line, decode);
    r.Some? && 1 <= r.value.test <= tests
  }

  predicate InRange(rs: seq<Record>, tests: nat) {
    forall i | 0 <= i < |rs| :: 1 <= rs[i].test <= tests
  }

  /** The records that count, up to the first fatal one. */
  function Records(lines: seq<string>, decode: Decoder, tests: nat): (rs: seq<Record>)
    ensures InRange(rs, tests)
  {
    if lines == [] || IsFatal(lines[0], decode) then []
    else if Counts(lines[0], decode, tests) then [RecordOn(lines[0], decode).value] + Records(lines[1..], decode, tests)
    else Records(lines[1..], decode, tests)
  }

  predicate HasFatal(lines: seq<string>, decode: Decoder) {
    exists i :: 0 <= i < |lines| && IsFatal(lines[i], decode)
  }

  function BatchResult(p: Problem, r: Record): TestResult
    requires 1 <= r.test <= |p.expected|
  {
    if r.report.error != "" then
      MarkFailed(Fresh(r.test), if MentionsOom(r.report.error) then MemoryLimitExceeded else RuntimeError)
    else Compared(Fresh(r.test), p.expected[r.test - 1], r.report.output, p.compare)
  }

  function BatchResults(p: Problem, rs: seq<Record>): (results: seq<TestResult>)
    requires InRange(rs, |p.expected|)
    ensures |results| == |rs|
  {
    if rs == [] then [] else [Normalize(BatchResult(p, rs[0]))] + BatchResults(p, rs[1..])
  }

  function MissingResults(tests: nat, processed: nat, reason: Reason): (results: seq<TestResult>)
    ensures |results| == if processed <= tests then tests - processed else 0
  {
    seq(if processed <= tests then tests - processed else 0,
        i requires 0 <= i < tests - processed => MarkFailed(Fresh(processed + i + 1), reason))
  }

  function SplitLines(text: string): (lines: seq<string>)
    ensures lines != []
    ensures forall i | 0 <= i < |lines| :: '\n' !in lines[i]
  {
    if text == "" then [""]
    else
      var rest := SplitLines(text[1..]);
      if text[0] == '\n' then [""] + rest else [[text[0]] + rest[0]] + rest[1..]
  }

  function Joined(lines: seq<string>): string {
    if |lines| == 0 then ""
    else if |lines| == 1 then lines[0]
    else lines[0] + "\n" + Joined(lines[1..])
  }

  /** `lines`, of which none holds an end of line, make up `text`. */
  predicate LinesOf(lines: seq<string>, text: string) {
    lines != [] && (forall i | 0 <= i < |lines| :: '\n' !in lines[i]) && Joined(lines) == text
  }

  lemma {:induction false} SplitJoins(text: string)
    ensures LinesOf(SplitLines(text), text)
  {
    if text == "" {
    } else {
      SplitJoins(text[1..]);
      var rest := SplitLines(text[1..]);
      if text[0] == '\n' {
        assert ([""] + rest)[1..] == rest && text == "" + "\n" + text[1..];
      } else {
        FirstLineGrows(text[0], rest);
        assert text == [text[0]] + text[1..];
      }
    }
  }

  lemma JoinFirst(first: string, rest: seq<string>)
    ensures Joined([first] + rest) == if rest == [] then first else first + "\n" + Joined(rest)
  {
    assert ([first] + rest)[1..] == rest;
  }

  lemma PushIn(c: char, x: string, y: string, z: string)
    ensures [c] + (x + y + z) == ([c] + x) + y + z
  {
  }

  lemma FirstLineGrows(c: char, lines: seq<string>)
    requires lines != []
    ensures Joined([[c] + lines[0]] + lines[1..]) == [c] + Joined(lines)
  {
    var first, rest := lines[0], lines[1..];
    assert lines == [first] + rest;
    JoinFirst(first, rest);
    JoinFirst([c] + first, rest);
    PushIn(c, first, "\n", Joined(rest));
  }

  lemma {:induction false} JoinSplits(lines: seq<string>)
    requires lines != [] && forall i | 0 <= i < |lines| :: '\n' !in lines[i]
    ensures SplitLines(Joined(lines)) == lines
    decreases |lines|, |lines[0]|
  {
    var text := Joined(lines);
    if lines[0] == "" {
      if |lines| == 1 {
        assert lines == [""];
      } else {
        assert text[0] == '\n' && text[1..] == Joined(lines[1..]);
        JoinSplits(lines[1..]);
        assert lines == [""] + lines[1..];
      }
    } else {
      var c, shorter := lines[0][0], [lines[0][1..]] + lines[1..];
      assert lines[0] == [c] + lines[0][1..] && c in lines[0];
      assert shorter[1..] == lines[1..] && lines == [[c] + shorter[0]] + shorter[1..];
      forall i | 0 <= i < |shorter| ensures '\n' !in shorter[i] {
        assert i > 0 ==> shorter[i] == lines[i];
      }
      FirstLineGrows(c, shorter);
      assert text[0] == c && text[1..] == Joined(shorter);
      JoinSplits(shorter);
    }
  }

  /** Splitting is the one way to take a text apart into its lines. */
  lemma OnlySplit(lines: seq<string>, text: string)
    ensures LinesOf(lines, text) <==> lines == SplitLines(text)
  {
    SplitJoins(text);
    if LinesOf(lines, text) {
      JoinSplits(lines);
    }
  }

  lemma {:induction false} RecordsSplit(xs: seq<string>, ys: seq<string>, decode: Decoder, tests: nat)
    requires !HasFatal(xs, decode)
    ensures Records(xs + ys, decode, tests) == Records(xs, decode, tests) + Records(ys, decode, tests)
  {
    if xs == [] {
      assert xs + ys == ys;
    } else {
      assert (xs + ys)[1..] == xs[1..] + ys;
      assert forall i | 0 <= i < |xs[1..]| :: xs[1..][i] == xs[i + 1];
      RecordsSplit(xs[1..], ys, decode, tests);
    }
  }

  /** Lines that are no records, wherever they stand among the others, change nothing. */
  lemma NoiseIsIgnored(xs: seq<string>, noise: string, ys: seq<string>, decode: Decoder, tests: nat)
    requires !Counts(noise, decode, tests) && !IsFatal(noise, decode)
    ensures Records(xs + [noise] + ys, decode, tests) == Records(xs + ys, decode, tests)
  {
    if HasFatal(xs, decode) {
      FatalEndsRecords(xs, [noise] + ys, decode, tests);
      FatalEndsRecords(xs, ys, decode, tests);
    } else {
      RecordsSplit(xs, [noise] + ys, decode, tests);
      RecordsSplit(xs, ys, decode, tests);
      assert ([noise] + ys)[1..] == ys;
    }
    assert xs + [noise] + ys == xs + ([noise] + ys);
  }

  lemma {:induction false} FatalEndsRecords(xs: seq<string>, ys: seq<string>, decode: Decoder, tests: nat)
    requires HasFatal(xs, decode)
    ensures Records(xs + ys, decode, tests) == Records(xs, decode, tests)
  {
    if IsFatal(xs[0], decode) {
    } else {
      assert (xs + ys)[1..] == xs[1..] + ys;
      var i :| 0 <= i < |xs| && IsFatal(xs[i], decode);
      assert xs[1..][i - 1] == xs[i];
      FatalEndsRecords(xs[1..], ys, decode, tests);
    }
  }

  method JudgeRecord(p: Problem, out: Record) returns (tr: TestResult)
    requires 1 <= out.test <= |p.expected|
    ensures tr == BatchResult(p, out)
    ensures var r := out.report;
      var same := Matches(p.expected[out.test - 1], r.output, Tolerance(p.compare), p.compare.orderInsensitive);
      && tr.test == out.test
      && (tr.passed <==> r.error == "" && same)
      && (tr.errorType == WrongAnswerType <==> r.error == "" && !same)
      && (tr.errorType == Runtime <==> r.error != "" && !MentionsOom(r.error))
      && (tr.errorType == MemoryLimitType <==> MentionsOom(r.error))
      && tr.errorType != Timeout
  {
    tr := Fresh(out.test);
    if out.report.error != "" {
      var reason := RuntimeError;
      if MentionsOom(out.report.error) {
        reason := MemoryLimitExceeded;
      }
      tr := MarkFailed(tr, reason);
    } else {
      tr := JudgeOutput(tr, p.expected[out.test - 1], out.report.output, p.compare);
    }
  }

  lemma {:induction false} BatchResultsSnoc(p: Problem, rs: seq<Record>, r: Record)
    requires InRange(rs, |p.expected|)
    requires 1 <= r.test <= |p.expected|
    ensures BatchResults(p, rs + [r]) == BatchResults(p, rs) + [Normalize(BatchResult(p, r))]
  {
    if rs == [] {
      assert [r][1..] == [];
    } else {
      assert (rs + [r])[1..] == rs[1..] + [r];
      BatchResultsSnoc(p, rs[1..], r);
    }
  }

  lemma {:induction false} BatchResultsAt(p: Problem, rs: seq<Record>, i: nat)
    requires InRange(rs, |p.expected|) && i < |rs|
    ensures BatchResults(p, rs)[i] == Normalize(BatchResult(p, rs[i]))
  {
    if i == 0 {
    } else {
      BatchResultsAt(p, rs[1..], i - 1);
    }
  }

  /** The records found on the first `n` lines, followed by those on the rest, are all there are. */
  ghost predicate ReadSoFar(lines: seq<string>, n: nat, decode: Decoder, tests: nat, kept: seq<Record>)
    requires n <= |lines|
  {
    Records(lines, decode, tests) == kept + Records(lines[n..], decode, tests)
  }

  lemma ReadOneLine(lines: seq<string>, n: nat, decode: Decoder, tests: nat, kept: seq<Record>)
    requires n < |lines| && ReadSoFar(lines, n, decode, tests, kept)
    ensures IsFatal(lines[n], decode) ==> Records(lines, decode, tests) == kept
    ensures !IsFatal(lines[n], decode) && !Counts(lines[n], decode, tests) ==> ReadSoFar(lines, n + 1, decode, tests, kept)
    ensures !IsFatal(lines[n], decode) && Counts(lines[n], decode, tests) ==>
              ReadSoFar(lines, n + 1, decode, tests, kept + [RecordOn(lines[n], decode).value])
  {
    assert lines[n..][0] == lines[n] && lines[n..][1..] == lines[n + 1..];
    if !IsFatal(lines[n], decode) && Counts(lines[n], decode, tests) {
      var r := RecordOn(lines[n], decode).value;
      assert kept + ([r] + Records(lines[n + 1..], decode, tests)) == kept + [r] + Records(lines[n + 1..], decode, tests);
    }
  }

  function LineResults(p: Problem, line: string, decode: Decoder): seq<TestResult> {
    if IsFatal(line, decode) || !Counts(line, decode, |p.expected|) then []
    else [Normalize(BatchResult(p, RecordOn(line, decode).value))]
  }

  method AppendLine(result: SubmissionResult, p: Problem, line: string, decode: Decoder) returns (counted: bool, fatal: bool)
    requires result.Valid()
    modifies result
    ensures result.Valid() && result.internalError == old(result.internalError)
    ensures fatal <==> IsFatal(line, decode)
    ensures !fatal ==> (counted <==> Counts(line, decode, |p.expected|))
    ensures result.details == old(result.details) + LineResults(p, line, decode)
  {
    var record := RecordOn(line, decode);
    if record.None? {
      return false, false;
    }
    var out := record.value;
    if out.fatal != "" {
      return false, true;
    }
    if out.test <= 0 || out.test > |p.expected| {
      return false, false;
    }
    var tr := JudgeRecord(p, out);
    result.AddTestResult(tr);
    return true, false;
  }

  /** The first `n` lines held the records `kept` and nothing fatal, and gave the results `added`. */
  ghost predicate ReadLines(p: Problem, lines: seq<string>, n: nat, decode: Decoder, kept: seq<Record>, added: seq<TestResult>)
    requires n <= |lines|
  {
    && ReadSoFar(lines, n, decode, |p.expected|, kept) && InRange(kept, |p.expected|)
    && added == BatchResults(p, kept)
    && forall i | 0 <= i < n :: !IsFatal(lines[i], decode)
  }

  lemma ReadNextLine(p: Problem, lines: seq<string>, n: nat, decode: Decoder, kept: seq<Record>, added: seq<TestResult>)
    requires n < |lines| && ReadLines(p, lines, n, decode, kept, added) && !IsFatal(lines[n], decode)
    ensures var more := if Counts(lines[n], decode, |p.expected|) then [RecordOn(lines[n], decode).value] else [];
      ReadLines(p, lines, n + 1, decode, kept + more, added + LineResults(p, lines[n], decode))
  {
    ReadOneLine(lines, n, decode, |p.expected|, kept);
    if Counts(lines[n], decode, |p.expected|) {
      BatchResultsSnoc(p, kept, RecordOn(lines[n], decode).value);
    } else {
      assert kept + [] == kept && added + [] == added;
    }
  }

  // At a fatal line, or at the end, all that counts has been read.
  lemma ReadToTheEnd(p: Problem, lines: seq<string>, n: nat, decode: Decoder, kept: seq<Record>, added: seq<TestResult>)
    requires n <= |lines| && ReadLines(p, lines, n, decode, kept, added)
    requires n < |lines| ==> IsFatal(lines[n], decode)
    ensures Records(lines, decode, |p.expected|) == kept && added == BatchResults(p, kept)
    ensures HasFatal(lines, decode) <==> n < |lines|
  {
    if n < |lines| {
      ReadOneLine(lines, n, decode, |p.expected|, kept);
    } else {
      assert lines[|lines|..] == [] && kept + [] == kept;
    }
  }

  /** One line: it is fatal, or what has been read so far grows by it. */
  method AppendNextLine(result: SubmissionResult, p: Problem, lines: seq<string>, n: nat, decode: Decoder,
                        ghost was: seq<TestResult>, ghost kept: seq<Record>, ghost added: seq<TestResult>)
    returns (counted: bool, fatal: bool, ghost nowKept: seq<Record>, ghost nowAdded: seq<TestResult>)
    requires result.Valid() && n < |lines| && ReadLines(p, lines, n, decode, kept, added) && result.details == was + added
    modifies result
    ensures result.Valid() && result.internalError == old(result.internalError)
    ensures result.details == was + nowAdded
    ensures !fatal ==> |nowKept| == |kept| + if counted then 1 else 0
    ensures fatal <==> IsFatal(lines[n], decode)
    ensures if fatal then nowKept == kept && nowAdded == added else ReadLines(p, lines, n + 1, decode, nowKept, nowAdded)
  {
    counted, fatal := AppendLine(result, p, lines[n], decode);
    nowKept, nowAdded := kept, added;
    if !fatal {
      ReadNextLine(p, lines, n, decode, kept, added);
      nowKept := kept + if counted then [RecordOn(lines[n], decode).value] else [];
      nowAdded := added + LineResults(p, lines[n], decode);
    }
  }

  /** Reads the reports back, adding a result for each; stops at a fatal one. */
  method AppendBatchedResults(result: SubmissionResult, p: Problem, stderr: string, decode: Decoder)
    returns (processed: nat, fatal: bool)
    requires result.Valid()
    modifies result
    ensures result.Valid() && result.internalError == old(result.internalError)
    ensures processed == |Records(SplitLines(stderr), decode, |p.expected|)|
    ensures result.details == old(result.details) + BatchResults(p, Records(SplitLines(stderr), decode, |p.expected|))
    ensures fatal <==> HasFatal(SplitLines(stderr), decode)
    ensures forall lines | LinesOf(lines, stderr) ::
      && processed == |Records(lines, decode, |p.expected|)|
      && result.details == old(result.details) + BatchResults(p, Records(lines, decode, |p.expected|))
      && (fatal <==> HasFatal(lines, decode))
  {
    forall lines | LinesOf(lines, stderr) ensures lines == SplitLines(stderr) {
      OnlySplit(lines, stderr);
    }
    var lines := SplitLines(stderr);
    ghost var was := result.details;
    processed := 0;
    ghost var kept: seq<Record>, added: seq<TestResult> := [], [];
    NothingRead(p, lines, decode);
    assert was + added == was;
    for n := 0 to |lines|
      invariant result.Valid() && result.internalError == old(result.internalError)
      invariant |kept| == processed && ReadLines(p, lines, n, decode, kept, added)
      invariant result.details == was + added
    {
      var counted;
      counted, fatal, kept, added := AppendNextLine(result, p, lines, n, decode, was, kept, added);
      if fatal {
        ReadToTheEnd(p, lines, n, decode, kept, added);
        return processed, true;
      }
      if counted {
        processed := processed + 1;
      }
    }
    ReadToTheEnd(p, lines, |lines|, decode, kept, added);
    fatal := false;
  }

  lemma NothingRead(p: Problem, lines: seq<string>, decode: Decoder)
    ensures ReadLines(p, lines, 0, decode, [], [])
  {
    assert lines[0..] == lines;
    assert [] + Records(lines, decode, |p.expected|) == Records(lines, decode, |p.expected|);
  }

  method AppendMissingBatchedResults(result: SubmissionResult, tests: nat, processed: nat, reason: Reason)
    requires result.Valid()
    modifies result
    ensures result.Valid() && result.internalError == old(result.internalError)
    ensures result.details == old(result.details) + MissingResults(tests, processed, reason)
  {
    var i := processed;
    ghost var missing := MissingResults(tests, processed, reason);
    while i < tests
      invariant processed <= i && (i <= tests || i == processed)
      invariant result.Valid() && result.internalError == old(result.internalError)
      invariant i - processed <= |missing| && result.details == old(result.details) + missing[..i - processed]
    {
      var tr := MarkFailed(Fresh(i + 1), reason);
      result.AddTestResult(tr);
      assert missing[..i + 1 - processed] == missing[..i - processed] + [tr];
      i := i + 1;
    }
    assert missing[..i - processed] == missing;
  }

  datatype Exit = Clean | WaitError(text: string) | ExitCode(code: int)

  predicate RanOutOfTime(exit: Exit) {
    exit.WaitError? && (Mentions(exit.text, "timed out") || Mentions(exit.text, "deadline exceeded"))
  }

  lemma ExitSays(exit: Exit)
    ensures RanOutOfTime(exit) <==>
      exit.WaitError? && (Occurs("timed out", ToLower(exit.text)) || Occurs("deadline exceeded", ToLower(exit.text)))
  {
    if exit.WaitError? {
      MentionsIff(exit.text, "timed out");
      MentionsIff(exit.text, "deadline exceeded");
    }
  }

  /** Why tests without a report failed; empty when every test has been reported. */
  function RemainingReason(exit: Exit, fatal: bool, processed: nat, tests: nat): Reason {
    if RanOutOfTime(exit) then TimeLimitExceeded
    else if exit != Clean || fatal || processed < tests then RuntimeError
    else NoError
  }

  /** Nothing is left to explain exactly when the process ended well, no record was fatal and every test
      was reported; the time is to blame exactly when the process ran out of it. */
  method ExplainRemaining(exit: Exit, fatal: bool, processed: nat, tests: nat, before: InternalError)
    returns (reason: Reason, internalError: InternalError)
    ensures reason == RemainingReason(exit, fatal, processed, tests)
    ensures internalError == if exit == Clean && fatal then JudgeError
                             else if reason == RuntimeError then WrapperError else before
    ensures reason == NoError <==> exit == Clean && !fatal && processed >= tests
    ensures reason == TimeLimitExceeded <==> RanOutOfTime(exit)
    ensures reason == NoError || reason == TimeLimitExceeded <==> reason != RuntimeError
    ensures reason == NoError ==> internalError == before
  {
    reason, internalError := NoError, before;
    if exit != Clean {
      if RanOutOfTime(exit) {
        reason := TimeLimitExceeded;
      } else {
        reason, internalError := RuntimeError, WrapperError;
      }
    } else if fatal {
      reason, internalError := RuntimeError, JudgeError;
    } else if processed < tests {
      reason, internalError := RuntimeError, WrapperError;
    }
  }

  /** The batch run: the reports read back, then a failure for every test from the first unreported
      position on. */
  method RunBatched(p: Problem, stderr: string, exit: Exit, decode: Decoder) returns (result: SubmissionResult)
    ensures fresh(result) && result.Valid()
    ensures result.details == BatchRun(p, stderr, exit, decode)
    ensures result.Summarized() == BatchSummary(p, stderr, exit, decode)
    ensures forall lines | LinesOf(lines, stderr) ::
      var rs, n := Records(lines, decode, |p.expected|), |p.expected|;
      && result.details == BatchDetails(p, rs, RemainingReason(exit, HasFatal(lines, decode), |rs|, n))
      && (result.internalError == JudgeError <==> exit == Clean && HasFatal(lines, decode))
      && (result.internalError == WrapperError <==>
            !RanOutOfTime(exit) && (exit != Clean || (!HasFatal(lines, decode) && |rs| < n)))
  {
    forall lines | LinesOf(lines, stderr) ensures lines == SplitLines(stderr) {
      OnlySplit(lines, stderr);
    }
    result := new SubmissionResult();
    var processed, fatal := AppendBatchedResults(result, p, stderr, decode);
    ghost var rs := Records(SplitLines(stderr), decode, |p.expected|);
    assert processed == |rs| && result.details == BatchResults(p, rs);
    AppendRemaining(result, |p.expected|, processed, exit, fatal);
    result.UpdateStatus();
  }

  method AppendRemaining(result: SubmissionResult, tests: nat, processed: nat, exit: Exit, fatal: bool)
    requires result.Valid()
    modifies result
    ensures result.Valid()
    ensures result.details == old(result.details) + RemainingResults(tests, processed, RemainingReason(exit, fatal, processed, tests))
    ensures result.internalError == BatchInternal(exit, fatal, processed, tests, old(result.internalError))
  {
    var remainingReason, internalError := ExplainRemaining(exit, fatal, processed, tests, result.internalError);
    result.internalError := internalError;
    if remainingReason != NoError {
      AppendMissingBatchedResults(result, tests, processed, remainingReason);
    }
  }

  function BatchInternal(exit: Exit, fatal: bool, processed: nat, tests: nat, before: InternalError): InternalError {
    if exit == Clean && fatal then JudgeError
    else if RemainingReason(exit, fatal, processed, tests) == RuntimeError then WrapperError else before
  }

  function RemainingResults(tests: nat, processed: nat, reason: Reason): seq<TestResult> {
    if reason == NoError then [] else MissingResults(tests, processed, reason)
  }

  /** All results of a batch run, from the text of its error stream and the way it ended. */
  function BatchRun(p: Problem, stderr: string, exit: Exit, decode: Decoder): seq<TestResult> {
    var rs := Records(SplitLines(stderr), decode, |p.expected|);
    BatchDetails(p, rs, RemainingReason(exit, HasFatal(SplitLines(stderr), decode), |rs|, |p.expected|))
  }

  function BatchSummary(p: Problem, stderr: string, exit: Exit, decode: Decoder): Summary {
    var lines, n := SplitLines(stderr), |p.expected|;
    Summary(StatusOf(BatchRun(p, stderr, exit, decode), Accepted),
            BatchInternal(exit, HasFatal(lines, decode), |Records(lines, decode, n)|, n, NoInternalError), "")
  }

  function BatchDetails(p: Problem, rs: seq<Record>, reason: Reason): seq<TestResult>
    requires InRange(rs, |p.expected|)
  {
    BatchResults(p, rs) + RemainingResults(|p.expected|, |rs|, reason)
  }

  // -- the two agree --------------------------------------------------------------------------------------

  /** One result for each test, in order. */
  predicate CoversTests(details: seq<TestResult>, tests: nat) {
    |details| == tests && forall i | 0 <= i < tests :: details[i].test == i + 1
  }

  /** The wrapper reported on the tests from the first on, once each, in order. */
  predicate InOrder(rs: seq<Record>, tests: nat) {
    |rs| <= tests && forall i | 0 <= i < |rs| :: rs[i].test == i + 1
  }

  /** The batch run accounts for every test exactly once, exactly when the reports came in order. */
  lemma CoverageIffInOrder(p: Problem, rs: seq<Record>, exit: Exit, fatal: bool)
    requires InRange(rs, |p.expected|)
    ensures CoversTests(BatchDetails(p, rs, RemainingReason(exit, fatal, |rs|, |p.expected|)), |p.expected|) <==>
            InOrder(rs, |p.expected|)
  {
    var reason := RemainingReason(exit, fatal, |rs|, |p.expected|);
    var details := BatchDetails(p, rs, reason);
    DetailsByPosition(p, rs, reason);
    assert forall i | 0 <= i < |rs| :: details[i].test == rs[i].test;
  }

  /** The reported tests come first, as reported; then the rest, as failures. */
  lemma DetailsByPosition(p: Problem, rs: seq<Record>, reason: Reason)
    requires InRange(rs, |p.expected|)
    ensures var details := BatchDetails(p, rs, reason);
            && |rs| <= |details|
            && (reason != NoError && |rs| <= |p.expected| ==> |details| == |p.expected|)
            && (reason == NoError || |rs| > |p.expected| ==> |details| == |rs|)
            && (forall i | 0 <= i < |rs| :: details[i] == Normalize(BatchResult(p, rs[i])))
            && (forall i | |rs| <= i < |details| :: details[i] == MarkFailed(Fresh(i + 1), reason))
  {
    forall i | 0 <= i < |rs| ensures BatchResults(p, rs)[i] == Normalize(BatchResult(p, rs[i])) {
      BatchResultsAt(p, rs, i);
    }
  }

  /** The one thing a report can say that the two paths read differently. */
  predicate OomOnlyInTraceback(r: Report) {
    r.error != "" && !MentionsOom(r.error) && MentionsOom(r.traceback)
  }

  /** For a test whose own process ended with the very report the batch wrapper gave, the two verdicts
      agree unless its output was over-long or only its traceback mentions memory. */
  lemma VerdictsAgreeIff(p: Problem, i: nat, record: Record, stdoutLength: nat)
    requires i < |p.expected| && record.test == i + 1
    ensures Normalize(BatchResult(p, record)) == Normalize(PerTestResult(p, i, Ended(stdoutLength, Some(record.report)))) <==>
            stdoutLength <= MAX_TEST_OUTPUT && !OomOnlyInTraceback(record.report)
  {
    if stdoutLength > MAX_TEST_OUTPUT {
    }
  }

  /** The batch result against the per-test loop: whatever noise surrounds the reports and however the
      process ended, if the wrapper got as far as k tests then the first k results are the loop's, and
      every other test failed for the reason found. */
  lemma BatchRefinesLoop(p: Problem, rs: seq<Record>, runs: seq<TestRun>, exit: Exit, fatal: bool)
    requires |runs| == |p.expected| && InOrder(rs, |p.expected|)
    requires forall i | 0 <= i < |rs| ::
      runs[i].Ended? && runs[i].report == Some(rs[i].report)
      && runs[i].stdoutLength <= MAX_TEST_OUTPUT && !OomOnlyInTraceback(rs[i].report)
    ensures var reason := RemainingReason(exit, fatal, |rs|, |p.expected|);
            var details := BatchDetails(p, rs, reason);
            && CoversTests(details, |p.expected|)
            && (forall i | 0 <= i < |rs| :: details[i] == Normalize(PerTestResult(p, i, runs[i])))
            && (forall i | |rs| <= i < |p.expected| :: !details[i].passed && details[i].error == reason && reason != NoError)
  {
    var reason := RemainingReason(exit, fatal, |rs|, |p.expected|);
    CoverageIffInOrder(p, rs, exit, fatal);
    DetailsByPosition(p, rs, reason);
    forall i | 0 <= i < |rs|
      ensures Normalize(BatchResult(p, rs[i])) == Normalize(PerTestResult(p, i, runs[i]))
    {
      VerdictsAgreeIff(p, i, rs[i], runs[i].stdoutLength);
    }
  }

  /** When the wrapper gets through all tests, the batch gives the very results of the loop, and so the
      same status, count and first failure. */
  lemma CompleteBatchIsTheLoop(p: Problem, rs: seq<Record>, runs: seq<TestRun>, exit: Exit, fatal: bool)
    requires |runs| == |p.expected| == |rs| && InOrder(rs, |p.expected|)
    requires forall i | 0 <= i < |rs| ::
      runs[i].Ended? && runs[i].report == Some(rs[i].report)
      && runs[i].stdoutLength <= MAX_TEST_OUTPUT && !OomOnlyInTraceback(rs[i].report)
    ensures BatchDetails(p, rs, RemainingReason(exit, fatal, |rs|, |p.expected|)) == LoopDetails(p, runs)
  {
    BatchRefinesLoop(p, rs, runs, exit, fatal);
  }
}
