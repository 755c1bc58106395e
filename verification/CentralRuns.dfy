/** What happens when the judge itself runs a submission's tests, and what the result says of it. */
module CentralRuns {
  import opened Options
  import opened Errors
  import opened Results
  import opened Comparator
  import opened Judging

  datatype Case = Case(expected: Json, run: TestRun)

  /** A program that reads standard input: its test is no text, its run failed, or it printed something. */
  datatype StdinRun = Malformed | Broken(error: ExecError) | Printed(tooMuch: bool, same: bool)

  /** Nothing was run; the compiler failed; or the tests were run, one by one, in a batch, or on standard
      input. */
  datatype CentralRun =
    | NotSetUp(error: ExecError)
    | NotCompiled(error: ExecError)
    | PerTest(cases: seq<Case>, compare: Config)
    | Batch(problem: Problem, stderr: string, exit: Exit, decode: Decoder)
    | Stdin(tests: seq<StdinRun>)

  function ProblemOf(cases: seq<Case>, compare: Config): Problem {
    Problem(seq(|cases|, i requires 0 <= i < |cases| => cases[i].expected), compare)
  }

  function RunsOf(cases: seq<Case>): seq<TestRun> {
    seq(|cases|, i requires 0 <= i < |cases| => cases[i].run)
  }

  // -- what the result says -----------------------------------------------------------------------------

  /** The result made up for a run without a readable one: a wrapper failure, unless there was some
      output, or the error says that compiling, the time or the memory was the trouble. */
  function FallbackSummary(error: Option<ExecError>, hasOutput: bool): Summary {
    if hasOutput then Summary(RuntimeErrorStatus, JudgeError, "")
    else
      match error
      case Some(Execution(CompileKind, _, _)) => Summary(CompilationErrorStatus, NoInternalError, "")
      case Some(Execution(TimeKind, _, _)) => Summary(TimeLimit, NoInternalError, "")
      case Some(Execution(MemoryKind, _, _)) => Summary(MemoryLimit, NoInternalError, "")
      case _ => Summary(RuntimeErrorStatus, WrapperError, "")
  }

  function StdinResult(i: nat, run: StdinRun): TestResult {
    match run
    case Malformed => MarkFailed(Fresh(i + 1), RuntimeError)
    case Broken(e) =>
      MarkFailed(Fresh(i + 1), if TimedOut(e) then TimeLimitExceeded
                               else if OutOfMemory(e) then MemoryLimitExceeded else RuntimeError)
    case Printed(tooMuch, same) =>
      if tooMuch || !same then MarkFailed(Fresh(i + 1), WrongAnswer) else Fresh(i + 1).(passed := true, ok := true)
  }

  function StdinDetails(tests: seq<StdinRun>): seq<TestResult> {
    seq(|tests|, i requires 0 <= i < |tests| => Normalize(StdinResult(i, tests[i])))
  }

  /** The result a run leaves, unless nothing was run. */
  function SummaryOf(run: CentralRun): Option<Summary> {
    match run
    case NotSetUp(_) => None
    case NotCompiled(e) => Some(FallbackSummary(Some(e), false).(stderr := e.text))
    case PerTest(cases, compare) => Some(PerTestSummary(ProblemOf(cases, compare), RunsOf(cases)))
    case Batch(p, stderr, exit, decode) => Some(BatchSummary(p, stderr, exit, decode))
    case Stdin(tests) => Some(Summary(StatusOf(StdinDetails(tests), Accepted), NoInternalError, ""))
  }

  predicate BadSummary(r: Summary) {
    r.status == TimeLimit || r.status == MemoryLimit || r.internalError == WrapperError
  }

  /** What is made up for a run without a readable result. */
  lemma FallbackSays(error: Option<ExecError>, hasOutput: bool)
    ensures var r := FallbackSummary(error, hasOutput);
      var kind := if error.Some? && error.value.Execution? then Some(error.value.kind) else None;
      && (r.internalError == JudgeError <==> hasOutput)
      && (r.status == CompilationErrorStatus <==> !hasOutput && kind == Some(CompileKind))
      && (r.status == TimeLimit <==> !hasOutput && kind == Some(TimeKind))
      && (r.status == MemoryLimit <==> !hasOutput && kind == Some(MemoryKind))
      && (r.internalError == WrapperError <==>
            !hasOutput && kind != Some(CompileKind) && kind != Some(TimeKind) && kind != Some(MemoryKind))
      && (hasOutput || r.internalError == WrapperError ==> r.status == RuntimeErrorStatus)
  {
  }

  /** What a program reading standard input is given. */
  lemma StdinVerdict(i: nat, run: StdinRun)
    ensures var tr := Normalize(StdinResult(i, run));
      && tr.test == i + 1
      && (tr.passed <==> run.Printed? && run.same && !run.tooMuch)
      && (tr.errorType == WrongAnswerType <==> run.Printed? && (run.tooMuch || !run.same))
      && (tr.errorType == Timeout <==> run.Broken? && TimedOut(run.error))
      && (tr.errorType == MemoryLimitType <==> run.Broken? && !TimedOut(run.error) && OutOfMemory(run.error))
      && (tr.errorType == Runtime <==> run.Malformed? || (run.Broken? && !StdinOver(run)))
  {
  }

  // -- what happened --------------------------------------------------------------------------------------

  predicate OverTime(run: TestRun) {
    run.Failed? && TimedOut(run.error)
  }

  predicate ReportsOom(r: Report) {
    r.error != "" && (MentionsOom(r.error) || MentionsOom(r.traceback))
  }

  predicate OverMemory(run: TestRun) {
    || (run.Failed? && !TimedOut(run.error) && OutOfMemory(run.error))
    || (Readable(run).Some? && ReportsOom(Readable(run).value))
  }

  /** The run failed, and not for its time or its memory. */
  predicate Broke(run: TestRun) {
    run.Failed? && !TimedOut(run.error) && !OutOfMemory(run.error)
  }

  /** The run ended within its limit and left nothing that can be read. */
  predicate Unread(run: TestRun) {
    run.Ended? && run.stdoutLength <= MAX_TEST_OUTPUT && run.report.None?
  }

  predicate SomeRun(runs: seq<TestRun>, what: TestRun -> bool) {
    exists i :: 0 <= i < |runs| && what(runs[i])
  }

  predicate StdinOver(run: StdinRun) {
    run.Broken? && (TimedOut(run.error) || OutOfMemory(run.error))
  }

  /** The wrapper of a batch failed: it ended badly though in time, or well but without having said why it
      did not report on all tests. */
  predicate WrapperBroke(exit: Exit, fatal: bool, processed: nat, tests: nat) {
    !RanOutOfTime(exit) && (exit != Clean || (!fatal && processed < tests))
  }

  // -- the two compared -----------------------------------------------------------------------------------

  lemma PerTestTypes(p: Problem, i: nat, run: TestRun)
    requires i < |p.expected|
    ensures var tr := Normalize(PerTestResult(p, i, run));
      && (tr.errorType == Timeout <==> OverTime(run))
      && (tr.errorType == MemoryLimitType <==> OverMemory(run))
  {
  }

  // -- what the status says -------------------------------------------------------------------------------

  predicate RightOutput(p: Problem, i: nat, r: Report)
    requires i < |p.expected|
  {
    r.error == "" && Matches(p.expected[i], r.output, Tolerance(p.compare), p.compare.orderInsensitive)
  }

  predicate Succeeds(p: Problem, i: nat, run: TestRun)
    requires i < |p.expected|
  {
    Readable(run).Some? && RightOutput(p, i, Readable(run).value)
  }

  /** The input could not be encoded, the run broke, nothing could be read, or an error without memory was
      reported. */
  predicate Crashes(run: TestRun) {
    || run.NotEncoded? || Broke(run) || Unread(run)
    || (Readable(run).Some? && Readable(run).value.error != "" && !ReportsOom(Readable(run).value))
  }

  lemma PerTestVerdict(p: Problem, i: nat, run: TestRun)
    requires i < |p.expected|
    ensures var tr := Normalize(PerTestResult(p, i, run));
      && (tr.passed <==> Succeeds(p, i, run))
      && (tr.errorType == Runtime <==> Crashes(run))
      && (tr.errorType == Timeout <==> OverTime(run))
      && (tr.errorType == MemoryLimitType <==> OverMemory(run))
  {
  }

  /** The status of a submission run test by test, said of the runs. */
  lemma PerTestStatus(p: Problem, runs: seq<TestRun>)
    requires |runs| == |p.expected| > 0
    ensures var status := PerTestSummary(p, runs).status;
      && (status == Accepted <==> forall i | 0 <= i < |runs| :: Succeeds(p, i, runs[i]))
      && (status == TimeLimit <==> SomeRun(runs, OverTime))
      && (status == MemoryLimit <==> SomeRun(runs, OverMemory) && !SomeRun(runs, OverTime))
      && (status == RuntimeErrorStatus <==>
            SomeRun(runs, Crashes) && !SomeRun(runs, OverTime) && !SomeRun(runs, OverMemory))
      && (status == WrongAnswerStatus <==>
            && (exists i :: 0 <= i < |runs| && !Succeeds(p, i, runs[i]))
            && !SomeRun(runs, Crashes) && !SomeRun(runs, OverTime) && !SomeRun(runs, OverMemory))
  {
    var details := LoopDetails(p, runs);
    forall i | 0 <= i < |runs|
      ensures details[i].passed <==> Succeeds(p, i, runs[i])
      ensures details[i].errorType == Runtime <==> Crashes(runs[i])
      ensures details[i].errorType == Timeout <==> OverTime(runs[i])
      ensures details[i].errorType == MemoryLimitType <==> OverMemory(runs[i])
    {
      PerTestVerdict(p, i, runs[i]);
    }
    TypeIffRun(details, Timeout, runs, OverTime);
    TypeIffRun(details, MemoryLimitType, runs, OverMemory);
    TypeIffRun(details, Runtime, runs, Crashes);
    StatusRanks(details, Accepted);
    StatusIsOneOf(details);
  }

  lemma StatusIsOneOf(details: seq<TestResult>)
    requires details != [] && AllNormal(details)
    ensures var status := StatusOf(details, Accepted);
      status == Accepted || status == TimeLimit || status == MemoryLimit || status == RuntimeErrorStatus
      || status == WrongAnswerStatus
  {
  }

  lemma BatchVerdict(p: Problem, r: Record)
    requires 1 <= r.test <= |p.expected|
    ensures var tr := Normalize(BatchResult(p, r));
      && tr.test == r.test
      && (tr.passed <==> RightOutput(p, r.test - 1, r.report))
      && (tr.errorType == Runtime <==> r.report.error != "" && !MentionsOom(r.report.error))
      && (tr.errorType == MemoryLimitType <==> MentionsOom(r.report.error))
      && tr.errorType != Timeout
  {
  }

  /** The status of a batch whose process ended well with every test reported, said of the reports. */
  lemma CompleteBatchStatus(p: Problem, rs: seq<Record>)
    requires InRange(rs, |p.expected|) && rs != []
    ensures var status := StatusOf(BatchDetails(p, rs, NoError), Accepted);
      && (status == Accepted <==> forall i | 0 <= i < |rs| :: RightOutput(p, rs[i].test - 1, rs[i].report))
      && status != TimeLimit
      && (status == MemoryLimit <==> ErrorMentionsOom(rs))
      && (status == RuntimeErrorStatus <==> SomeReportFails(rs) && !ErrorMentionsOom(rs))
      && (status == WrongAnswerStatus <==>
            && (exists i :: 0 <= i < |rs| && !RightOutput(p, rs[i].test - 1, rs[i].report))
            && !SomeReportFails(rs) && !ErrorMentionsOom(rs))
  {
    var details := BatchDetails(p, rs, NoError);
    DetailsByPosition(p, rs, NoError);
    forall i | 0 <= i < |rs|
      ensures details[i].passed <==> RightOutput(p, rs[i].test - 1, rs[i].report)
      ensures details[i].errorType == Runtime <==> rs[i].report.error != "" && !MentionsOom(rs[i].report.error)
      ensures details[i].errorType == MemoryLimitType <==> MentionsOom(rs[i].report.error)
      ensures details[i].errorType != Timeout
      ensures Normal(details[i])
    {
      BatchVerdict(p, rs[i]);
    }
    ReportTypes(p, rs, details);
    StatusRanks(details, Accepted);
    StatusIsOneOf(details);
  }

  predicate SomeReportFails(rs: seq<Record>) {
    exists i :: 0 <= i < |rs| && rs[i].report.error != "" && !MentionsOom(rs[i].report.error)
  }

  lemma ReportTypes(p: Problem, rs: seq<Record>, details: seq<TestResult>)
    requires |details| == |rs|
    requires forall i | 0 <= i < |rs| ::
      && (details[i].errorType == Runtime <==> rs[i].report.error != "" && !MentionsOom(rs[i].report.error))
      && (details[i].errorType == MemoryLimitType <==> MentionsOom(rs[i].report.error))
    ensures SomeType(details, Runtime) <==> SomeReportFails(rs)
    ensures SomeType(details, MemoryLimitType) <==> ErrorMentionsOom(rs)
  {
    if i :| 0 <= i < |rs| && rs[i].report.error != "" && !MentionsOom(rs[i].report.error) {
      assert details[i].errorType == Runtime;
    }
    if i :| 0 <= i < |rs| && MentionsOom(rs[i].report.error) {
      assert details[i].errorType == MemoryLimitType;
    }
  }

  lemma StatusShows(details: seq<TestResult>)
    requires AllNormal(details)
    ensures StatusOf(details, Accepted) == TimeLimit <==> SomeType(details, Timeout)
    ensures StatusOf(details, Accepted) == MemoryLimit <==> SomeType(details, MemoryLimitType) && !SomeType(details, Timeout)
    ensures StatusOf(details, Accepted) != CompilationErrorStatus
  {
    if details != [] {
      StatusRanks(details, Accepted);
    }
  }

  /** Some run broke, and no later one left unreadable output. */
  predicate BrokeLast(runs: seq<TestRun>, k: nat)
    requires k <= |runs|
  {
    exists i :: 0 <= i < k && Broke(runs[i]) && forall j | i < j < k :: !Unread(runs[j])
  }

  lemma {:induction false} MarkIsLast(runs: seq<TestRun>, k: nat)
    requires k <= |runs|
    ensures InternalOf(runs, k) == WrapperError <==> BrokeLast(runs, k)
  {
    if k == 0 {
    } else {
      MarkIsLast(runs, k - 1);
      var last := runs[k - 1];
      if Broke(last) {
        assert BrokeLast(runs, k);
      } else if BrokeLast(runs, k - 1) && !Unread(last) {
        var i :| 0 <= i < k - 1 && Broke(runs[i]) && forall j | i < j < k - 1 :: !Unread(runs[j]);
        assert forall j | i < j < k :: !Unread(runs[j]);
      }
    }
  }

  /** The result of a run test by test is bad exactly when some run or report says time or memory, or some
      run broke and no later one left unreadable output, which would have replaced its mark. */
  lemma PerTestIsBadIff(cases: seq<Case>, compare: Config)
    ensures var runs := RunsOf(cases);
      BadSummary(SummaryOf(PerTest(cases, compare)).value) <==>
      SomeRun(runs, OverTime) || SomeRun(runs, OverMemory) || BrokeLast(runs, |runs|)
  {
    var p, runs := ProblemOf(cases, compare), RunsOf(cases);
    var details := LoopDetails(p, runs);
    forall i | 0 <= i < |runs|
      ensures details[i].errorType == Timeout <==> OverTime(runs[i])
      ensures details[i].errorType == MemoryLimitType <==> OverMemory(runs[i])
    {
      PerTestTypes(p, i, runs[i]);
    }
    StatusShows(details);
    MarkIsLast(runs, |runs|);
    TypeIffRun(details, Timeout, runs, OverTime);
    TypeIffRun(details, MemoryLimitType, runs, OverMemory);
  }

  lemma TypeIffRun(details: seq<TestResult>, e: ErrorType, runs: seq<TestRun>, what: TestRun -> bool)
    requires |details| == |runs| && forall i | 0 <= i < |runs| :: details[i].errorType == e <==> what(runs[i])
    ensures SomeType(details, e) <==> SomeRun(runs, what)
  {
    if i :| 0 <= i < |details| && details[i].errorType == e {
      assert what(runs[i]);
    }
    if i :| 0 <= i < |runs| && what(runs[i]) {
      assert details[i].errorType == e;
    }
  }

  predicate ErrorMentionsOom(rs: seq<Record>) {
    exists i :: 0 <= i < |rs| && MentionsOom(rs[i].report.error)
  }

  predicate SomeReportOom(rs: seq<Record>) {
    exists i :: 0 <= i < |rs| && ReportsOom(rs[i].report)
  }

  lemma BatchResultTypes(p: Problem, r: Record)
    requires 1 <= r.test <= |p.expected|
    ensures var tr := Normalize(BatchResult(p, r));
      tr.errorType != Timeout && (tr.errorType == MemoryLimitType <==> MentionsOom(r.report.error))
  {
  }

  lemma BatchTypes(p: Problem, rs: seq<Record>, reason: Reason)
    requires InRange(rs, |p.expected|) && (reason == NoError || reason == RuntimeError || reason == TimeLimitExceeded)
    ensures var details := BatchDetails(p, rs, reason);
      && AllNormal(details)
      && (SomeType(details, Timeout) <==> reason == TimeLimitExceeded && |rs| < |p.expected|)
      && (SomeType(details, MemoryLimitType) <==> ErrorMentionsOom(rs))
  {
    var details := BatchDetails(p, rs, reason);
    DetailsByPosition(p, rs, reason);
    forall i | 0 <= i < |rs|
      ensures details[i].errorType != Timeout
      ensures details[i].errorType == MemoryLimitType <==> MentionsOom(rs[i].report.error)
      ensures Normal(details[i])
    {
      BatchResultTypes(p, rs[i]);
    }
    assert forall i | |rs| <= i < |details| :: details[i] == MarkFailed(Fresh(i + 1), reason) && Normal(details[i]);
    if reason == TimeLimitExceeded && |rs| < |p.expected| {
      assert details[|rs|].errorType == Timeout;
    }
    if i :| 0 <= i < |rs| && MentionsOom(rs[i].report.error) {
      assert details[i].errorType == MemoryLimitType;
    }
  }

  /** The result of a batch is bad exactly when a reported error mentions memory, or the time ran out
      before all tests were reported, or the wrapper broke. */
  lemma BatchIsBadIff(p: Problem, stderr: string, exit: Exit, decode: Decoder)
    ensures var lines, n := SplitLines(stderr), |p.expected|;
      var rs := Records(lines, decode, n);
      BadSummary(BatchSummary(p, stderr, exit, decode)) <==>
      ErrorMentionsOom(rs) || (RanOutOfTime(exit) && |rs| < n) || WrapperBroke(exit, HasFatal(lines, decode), |rs|, n)
  {
    var lines, n := SplitLines(stderr), |p.expected|;
    var rs, fatal := Records(lines, decode, n), HasFatal(lines, decode);
    var reason := RemainingReason(exit, fatal, |rs|, n);
    BatchTypes(p, rs, reason);
    StatusShows(BatchDetails(p, rs, reason));
  }

  lemma StdinIsBadIff(tests: seq<StdinRun>)
    ensures BadSummary(SummaryOf(Stdin(tests)).value) <==> exists i :: 0 <= i < |tests| && StdinOver(tests[i])
  {
    var details := StdinDetails(tests);
    StatusShows(details);
    forall i | 0 <= i < |tests|
      ensures details[i].errorType == Timeout || details[i].errorType == MemoryLimitType <==> StdinOver(tests[i])
    {
    }
  }

  lemma OnlyCompilersFailToCompile(run: CentralRun)
    requires SummaryOf(run).Some? && SummaryOf(run).value.status == CompilationErrorStatus
    ensures run.NotCompiled?
  {
    match run
    case NotCompiled(_) =>
    case PerTest(cases, compare) => StatusShows(LoopDetails(ProblemOf(cases, compare), RunsOf(cases)));
    case Batch(p, stderr, exit, decode) =>
      var lines := SplitLines(stderr);
      var rs := Records(lines, decode, |p.expected|);
      BatchTypes(p, rs, RemainingReason(exit, HasFatal(lines, decode), |rs|, |p.expected|));
      StatusShows(BatchRun(p, stderr, exit, decode));
    case Stdin(tests) => StatusShows(StdinDetails(tests));
  }
}
