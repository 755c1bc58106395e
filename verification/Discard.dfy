/** When a container must not go back to the pool. `ShouldDiscard` is the decision the code takes;
    `Poisonous` goes by what happened in the container. */
module Discard {
  import opened Options
  import opened Text
  import opened Errors
  import opened CentralRuns
  import Comparator
  import Judging
  import Results

  // What the legacy path's wrapper printed: nothing, text that is no result, or a result.
  datatype Output = Nothing | Unreadable | Printed(summary: Results.Summary)

  /** Running one submission or one request in a container. Central: the strategy returns error, result and
      cleanup flag together. Legacy: the output is only parsed after the decision was taken, and cleanup is
      reported by a deferred call. */
  datatype Outcome =
    | Central(run: CentralRun, cleanupFailed: bool)
    | Legacy(error: Option<ExecError>, output: Output, cleanupFailed: bool)

  const CONTAINER_FAILURES: seq<string> := [
    "deadline exceeded", "timed out", "memory limit exceeded", "possibly oom",
    "container unhealthy", "stopped container", "no such container"]

  predicate LooksLikeContainerFailure(message: string) {
    exists i | 0 <= i < |CONTAINER_FAILURES| :: Mentions(message, CONTAINER_FAILURES[i])
  }

  // -- the decision in the code -----------------------------------------------------------------------

  predicate IsPoisonousExecutionError(error: ExecError) {
    match error
    case Execution(kind, message, _) => if kind.CompileKind? then LooksLikeContainerFailure(message) else true
    case Deadline(text) => LooksLikeContainerFailure(text)
    case Other(text) => LooksLikeContainerFailure(text)
  }

  predicate ShouldDiscard(error: Option<ExecError>, result: Option<Results.Summary>, cleanupFailed: bool) {
    if cleanupFailed then true
    else if error.Some? then IsPoisonousExecutionError(error.value)
    else if result.None? then false
    else
      || result.value.status == Results.TimeLimit || result.value.status == Results.MemoryLimit
      || result.value.internalError == Results.WrapperError
      || (result.value.status == Results.CompilationErrorStatus && LooksLikeContainerFailure(result.value.stderr))
  }

  /** The error the strategy returns in place of a result. */
  function SetupError(run: CentralRun): Option<ExecError> {
    match run
    case NotSetUp(error) => Some(error)
    case _ => None
  }

  /** Whether the outcome raises the discard flag, deferred cleanup included. */
  predicate RaisesDiscard(o: Outcome) {
    match o
    case Central(run, cleanupFailed) => ShouldDiscard(SetupError(run), SummaryOf(run), cleanupFailed)
    case Legacy(error, _, cleanupFailed) => ShouldDiscard(error, None, false) || cleanupFailed
  }

  // -- what happened ------------------------------------------------------------------------------------

  /** The result stored with the submission. After an error the central path stores none. */
  function Recorded(o: Outcome): Option<Results.Summary> {
    match o
    case Central(run, _) => SummaryOf(run)
    case Legacy(error, output, _) =>
      match output
      case Printed(summary) => Some(summary)
      case Unreadable => Some(FallbackSummary(error, true))
      case Nothing => if error.Some? then Some(FallbackSummary(error, false)) else None
  }

  // What an error amounts to: the result made up for it where it is stored.
  predicate BadError(error: ExecError) {
    BadSummary(FallbackSummary(Some(error), false))
  }

  /** Something was stopped for its time or its memory, or failed for reasons of the judge's own. */
  predicate Troubled(run: CentralRun) {
    match run
    case NotSetUp(error) => BadError(error)
    case NotCompiled(error) => BadError(error)
    case PerTest(cases, _) =>
      var runs := RunsOf(cases);
      SomeRun(runs, OverTime) || SomeRun(runs, OverMemory) || SomeRun(runs, Broke)
    case Batch(p, stderr, exit, decode) =>
      var lines, n := Judging.SplitLines(stderr), |p.expected|;
      var rs := Judging.Records(lines, decode, n);
      || Judging.RanOutOfTime(exit) || SomeReportOom(rs)
      || WrapperBroke(exit, Judging.HasFatal(lines, decode), |rs|, n)
    case Stdin(tests) => exists i :: 0 <= i < |tests| && StdinOver(tests[i])
  }

  predicate Stopped(error: Option<ExecError>) {
    match error
    case Some(Execution(kind, _, _)) => kind.TimeKind? || kind.MemoryKind?
    case _ => false
  }

  /** A timeout, a memory overrun, a wrapper failure or a failed cleanup. On the central path that is said of
      the runs themselves; on the legacy path, of the error and of what is recorded. */
  predicate Poisonous(o: Outcome) {
    || o.cleanupFailed
    || match o
       case Central(run, _) => Troubled(run)
       case Legacy(error, _, _) => Stopped(error) || (Recorded(o).Some? && BadSummary(Recorded(o).value))
  }

  // -- where the two differ -----------------------------------------------------------------------------

  /** An error the decision does not know: no execution error, or the compiler's, with none of the phrases. */
  predicate UnknownError(error: ExecError) {
    match error
    case Execution(kind, message, _) => kind.CompileKind? && !LooksLikeContainerFailure(message)
    case Deadline(text) => !LooksLikeContainerFailure(text)
    case Other(text) => !LooksLikeContainerFailure(text)
  }

  /** Where the decision is blind. Before anything ran: to unknown errors. Test by test: to a run that broke,
      if a later one left unreadable output and none ran out of time or memory. In a batch: to the time
      running out once all tests are reported, and to memory that a traceback alone mentions. On the legacy
      path: to unknown errors, and to every result. */
  predicate Overlooked(o: Outcome) {
    && !o.cleanupFailed
    && match o
       case Legacy(error, _, _) => error.None? || UnknownError(error.value)
       case Central(NotSetUp(error), _) => UnknownError(error)
       case Central(PerTest(cases, _), _) =>
         var runs := RunsOf(cases);
         !SomeRun(runs, OverTime) && !SomeRun(runs, OverMemory) && AllBreaksFollowed(runs)
       case Central(Batch(p, stderr, exit, decode), _) =>
         var lines, n := Judging.SplitLines(stderr), |p.expected|;
         var rs := Judging.Records(lines, decode, n);
         && !ErrorMentionsOom(rs)
         && if Judging.RanOutOfTime(exit) then n <= |rs|
            else exit == Judging.Clean && (Judging.HasFatal(lines, decode) || n <= |rs|)
       case _ => false
  }

  /** Each run that broke is followed by one with unreadable output. */
  predicate AllBreaksFollowed(runs: seq<Judging.TestRun>) {
    forall i | 0 <= i < |runs| && Broke(runs[i]) :: exists j :: i < j < |runs| && Unread(runs[j])
  }

  /** When the flag goes up on the central path, said of what happened. */
  predicate Noticed(run: CentralRun) {
    match run
    case NotSetUp(error) => !UnknownError(error)
    case NotCompiled(error) => BadError(error) || (HasCompileKind(error) && LooksLikeContainerFailure(error.text))
    case PerTest(cases, _) =>
      var runs := RunsOf(cases);
      SomeRun(runs, OverTime) || SomeRun(runs, OverMemory) || BrokeLast(runs, |runs|)
    case Batch(p, stderr, exit, decode) =>
      var lines, n := Judging.SplitLines(stderr), |p.expected|;
      var rs := Judging.Records(lines, decode, n);
      || ErrorMentionsOom(rs) || (Judging.RanOutOfTime(exit) && |rs| < n)
      || WrapperBroke(exit, Judging.HasFatal(lines, decode), |rs|, n)
    case Stdin(tests) => exists i :: 0 <= i < |tests| && StdinOver(tests[i])
  }

  predicate HasCompileKind(error: ExecError) {
    error.Execution? && error.kind.CompileKind?
  }

  lemma CentralFlagIff(run: CentralRun, cleanupFailed: bool)
    ensures RaisesDiscard(Central(run, cleanupFailed)) <==> cleanupFailed || Noticed(run)
  {
    match run
    case NotSetUp(_) =>
    case NotCompiled(_) =>
    case PerTest(cases, compare) =>
      PerTestIsBadIff(cases, compare);
      CannotBeCompileError(run);
    case Batch(p, stderr, exit, decode) =>
      BatchIsBadIff(p, stderr, exit, decode);
      CannotBeCompileError(run);
    case Stdin(tests) =>
      StdinIsBadIff(tests);
      CannotBeCompileError(run);
  }

  /** When the flag goes up on the legacy path: failed cleanup or a known error, whatever was printed. */
  lemma LegacyFlagIff(error: Option<ExecError>, output: Output, cleanupFailed: bool)
    ensures RaisesDiscard(Legacy(error, output, cleanupFailed)) <==>
            cleanupFailed || (error.Some? && !UnknownError(error.value))
  {
  }

  /** The seven phrases. */
  lemma FailurePhrases(message: string)
    ensures LooksLikeContainerFailure(message) <==>
      || Mentions(message, "deadline exceeded") || Mentions(message, "timed out")
      || Mentions(message, "memory limit exceeded") || Mentions(message, "possibly oom")
      || Mentions(message, "container unhealthy") || Mentions(message, "stopped container")
      || Mentions(message, "no such container")
  {
    var phrases := CONTAINER_FAILURES;
    assert phrases[0] == "deadline exceeded" && phrases[1] == "timed out" && phrases[2] == "memory limit exceeded";
    assert phrases[3] == "possibly oom" && phrases[4] == "container unhealthy" && phrases[5] == "stopped container";
    assert phrases[6] == "no such container" && |phrases| == 7;
  }

  lemma CannotBeCompileError(run: CentralRun)
    requires !run.NotSetUp? && !run.NotCompiled?
    ensures SummaryOf(run).value.status != Results.CompilationErrorStatus
  {
    if SummaryOf(run).value.status == Results.CompilationErrorStatus {
      OnlyCompilersFailToCompile(run);
    }
  }

  lemma BreaksFollowedIff(runs: seq<Judging.TestRun>)
    ensures BrokeLast(runs, |runs|) <==> !AllBreaksFollowed(runs)
  {
  }

  lemma OomMentionedIsReported(rs: seq<Judging.Record>)
    requires ErrorMentionsOom(rs)
    ensures SomeReportOom(rs)
  {
    var i :| 0 <= i < |rs| && Judging.MentionsOom(rs[i].report.error);
    assert rs[i].report.error != "";
    assert ReportsOom(rs[i].report);
  }

  /** A poisonous outcome goes without the discard flag exactly in the blind spots. */
  lemma PoisonIsOverlookedIff(o: Outcome)
    requires Poisonous(o)
    ensures !RaisesDiscard(o) <==> Overlooked(o)
  {
    if o.Central? {
      CentralFlagIff(o.run, o.cleanupFailed);
      match o.run
      case PerTest(cases, _) => BreaksFollowedIff(RunsOf(cases));
      case _ =>
    }
  }

  lemma MentionsNeeds(s: string, part: string, c: char)
    requires Mentions(s, part) && c in part
    ensures c in ToLower(s)
  {
    ContainsMeansOccurs(ToLower(s), part);
    var a, b :| ToLower(s) == a + part + b;
  }

  // Every fixed phrase has an m or an n.
  lemma FailuresNeedMOrN(message: string)
    requires 'm' !in ToLower(message) && 'n' !in ToLower(message)
    ensures !LooksLikeContainerFailure(message)
  {
    if i :| 0 <= i < |CONTAINER_FAILURES| && Mentions(message, CONTAINER_FAILURES[i]) {
      var phrase := CONTAINER_FAILURES[i];
      assert 'm' in phrase || 'n' in phrase by {
        assert "deadline exceeded"[6] == 'n' && "timed out"[2] == 'm' && "memory limit exceeded"[0] == 'm';
        assert "possibly oom"[11] == 'm' && "container unhealthy"[2] == 'n' && "stopped container"[10] == 'n';
        assert "no such container"[0] == 'n';
      }
      MentionsNeeds(message, phrase, if 'm' in phrase then 'm' else 'n');
    }
  }

  // An exec the container engine could not start.
  const FAILED_EXEC := "failed to start exec: EOF"

  predicate FromExec(o: Outcome, error: ExecError) {
    o == Legacy(Some(error), Nothing, false) || o == Central(NotSetUp(error), false)
  }

  /** On both paths the engine may break off when an exec is to be started in the container. That is a
      wrapper failure where it is recorded, and the container is not discarded. */
  lemma FailedExecIsOverlooked(o: Outcome)
    requires FromExec(o, Other(FAILED_EXEC))
    ensures Poisonous(o) && Overlooked(o) && !RaisesDiscard(o)
    ensures o.Legacy? ==> Recorded(o).Some? && Recorded(o).value.internalError == Results.WrapperError
  {
    FailedExecIsUnknown();
    PoisonIsOverlookedIff(o);
  }

  lemma FailedExecIsUnknown()
    ensures UnknownError(Other(FAILED_EXEC))
  {
    assert forall i | 0 <= i < |FAILED_EXEC| :: FAILED_EXEC[i] !in "mnMN";
    FailuresNeedMOrN(FAILED_EXEC);
  }

  /** A batch that runs out of time with all its tests reported, and no report of memory, is accepted or
      refused by its reports, and its container is not discarded. */
  lemma LateTimeoutIsOverlooked(p: Judging.Problem, stderr: string, exit: Judging.Exit, decode: Judging.Decoder)
    requires Judging.RanOutOfTime(exit)
    requires var rs := Judging.Records(Judging.SplitLines(stderr), decode, |p.expected|);
      |p.expected| <= |rs| && !SomeReportOom(rs)
    ensures var o := Central(Batch(p, stderr, exit, decode), false); Poisonous(o) && Overlooked(o) && !RaisesDiscard(o)
  {
    var rs := Judging.Records(Judging.SplitLines(stderr), decode, |p.expected|);
    if ErrorMentionsOom(rs) {
      OomMentionedIsReported(rs);
    }
    PoisonIsOverlookedIff(Central(Batch(p, stderr, exit, decode), false));
  }

  /** One test, reported on the only line, and then the deadline. */
  lemma SomeTimeoutIsLate() returns (o: Outcome)
    ensures o.Central? && o.run.Batch? && |o.run.problem.expected| == 1
    ensures Poisonous(o) && Overlooked(o) && !RaisesDiscard(o)
  {
    var p := Judging.Problem([Comparator.Null], Comparator.Config("", 0.0, false));
    var record := Judging.Record(1, Judging.Report(Comparator.Null, "", ""), "");
    var decode: Judging.Decoder := (text: string) => Some(record);
    var exit := Judging.WaitError("timed out");
    ContainsMeansOccurs(ToLower("timed out"), "timed out");
    assert ToLower("timed out") == "" + "timed out" + "";
    OneRecord(record, decode);
    LateTimeoutIsOverlooked(p, "{", exit, decode);
    o := Central(Batch(p, "{", exit, decode), false);
  }

  lemma OneRecord(record: Judging.Record, decode: Judging.Decoder)
    requires decode("{") == Some(record) && record.fatal == "" && record.test == 1
    ensures Judging.Records(Judging.SplitLines("{"), decode, 1) == [record]
  {
    assert "{"[1..] == "" && Judging.SplitLines("") == [""];
    assert ['{'] + "" == "{" && [""][1..] == [];
    assert Judging.SplitLines("{") == ["{"];
    TrimRemoves("", "{", "", Judging.IsSpace);
    assert "" + "{" + "" == "{";
    assert ["{"][1..] == [];
  }

  /** Two tests one by one: for the first the engine fails in a way that is not known, and the second
      leaves unreadable output, so its mark replaces the first's. */
  lemma ReplacedMarkIsOverlooked(text: string, compare: Comparator.Config) returns (o: Outcome)
    requires !LooksLikeContainerFailure(text)
    ensures o == Central(PerTest([
      Case(Comparator.Null, Judging.Failed(Other(text))), Case(Comparator.Null, Judging.Ended(0, None))], compare), false)
    ensures Poisonous(o) && Overlooked(o) && !RaisesDiscard(o)
  {
    var broke, unread := Judging.Failed(Other(text)), Judging.Ended(0, None);
    o := Central(PerTest([Case(Comparator.Null, broke), Case(Comparator.Null, unread)], compare), false);
    UnknownIsNeither(text);
    var runs := RunsOf(o.run.cases);
    assert runs == [broke, unread];
    OneBreakFollowed(runs);
    PoisonIsOverlookedIff(o);
  }

  lemma OneBreakFollowed(runs: seq<Judging.TestRun>)
    requires |runs| == 2 && Broke(runs[0]) && Unread(runs[1])
    ensures SomeRun(runs, Broke) && !SomeRun(runs, OverTime) && !SomeRun(runs, OverMemory) && AllBreaksFollowed(runs)
  {
  }

  // The phrases of time and memory are among those looked for.
  lemma UnknownIsNeither(text: string)
    requires !LooksLikeContainerFailure(text)
    ensures !Judging.TimedOut(Other(text)) && !Judging.OutOfMemory(Other(text))
  {
    var phrases := CONTAINER_FAILURES;
    assert !Mentions(text, phrases[0]) && !Mentions(text, phrases[1]) && !Mentions(text, phrases[2]);
  }

  /** Of all that is recorded with a submission as a timeout, a memory overrun or a wrapper failure, the
      central path notices everything, and it is the only one to. */
  lemma OnlyCentralNoticesAllRecorded(central: bool)
    ensures (forall o: Outcome | o.Central? == central && Recorded(o).Some? && BadSummary(Recorded(o).value) :: RaisesDiscard(o))
       <==> central
  {
    if !central {
      FailedExecIsOverlooked(Legacy(Some(Other(FAILED_EXEC)), Nothing, false));
    }
  }

  // A run that goes well.
  const ALL_WELL := Central(PerTest([], Comparator.Config("", 0.0, false)), false)
}
