/** A submission's result while it is being built: per-test records and the running summary. */
module Results {

  /** The short message of a test: one of the fixed texts, or free text. */
  datatype Reason =
    | NoError
    | TimeLimitExceeded
    | MemoryLimitExceeded
    | RuntimeError
    | CompilationError
    | WrongAnswer
    | OutputLimitExceeded
    | Text(text: string)

  datatype ErrorType = NoErrorType | Timeout | Runtime | WrongAnswerType | MemoryLimitType

  datatype Status = Accepted | WrongAnswerStatus | RuntimeErrorStatus | TimeLimit | MemoryLimit | CompilationErrorStatus

  datatype InternalError = NoInternalError | JudgeError | WrapperError

  datatype TestResult = TestResult(test: int, passed: bool, ok: bool, error: Reason, errorType: ErrorType)

  /** What a result says of the run as a whole; texts kept for display are left out, but for what the
      compiler wrote. */
  datatype Summary = Summary(status: Status, internalError: InternalError, stderr: string)

  function Fresh(test: int): TestResult {
    TestResult(test, false, false, NoError, NoErrorType)
  }

  function MarkFailed(tr: TestResult, reason: Reason): (r: TestResult)
    ensures r.test == tr.test && !r.passed && !r.ok && r.error == reason && r.errorType != NoErrorType
    ensures r.errorType == Timeout <==> reason == TimeLimitExceeded
    ensures r.errorType == MemoryLimitType <==> reason == MemoryLimitExceeded
    ensures r.errorType == Runtime <==> reason == RuntimeError || reason == CompilationError
  {
    tr.(passed := false, ok := false, error := reason, errorType :=
      match reason
      case TimeLimitExceeded => Timeout
      case MemoryLimitExceeded => MemoryLimitType
      case RuntimeError => Runtime
      case CompilationError => Runtime
      case _ => WrongAnswerType)
  }

  function Normalize(tr: TestResult): (r: TestResult)
    ensures Normal(r) && r.test == tr.test && r.error == tr.error
    ensures Normal(tr) ==> r == tr
    ensures r.passed <==> tr.passed || tr.ok
    ensures !r.passed && tr.errorType != NoErrorType ==> r.errorType == tr.errorType
    ensures !r.passed && tr.errorType == NoErrorType ==>
              if tr.error == CompilationError then r.errorType == WrongAnswerType else r == MarkFailed(tr, tr.error)
  {
    if tr.passed || tr.ok then tr.(passed := true, ok := true, errorType := NoErrorType)
    else if tr.errorType != NoErrorType then tr
    else tr.(errorType :=
      match tr.error
      case TimeLimitExceeded => Timeout
      case MemoryLimitExceeded => MemoryLimitType
      case RuntimeError => Runtime
      case _ => WrongAnswerType)
  }

  predicate Normal(tr: TestResult) {
    tr.ok == tr.passed && (tr.passed <==> tr.errorType == NoErrorType)
  }

  predicate AllNormal(details: seq<TestResult>) {
    forall i | 0 <= i < |details| :: Normal(details[i])
  }

  // -- the summary as a function of the records --------------------------------------------------------

  function CountPassed(details: seq<TestResult>): nat {
    if details == [] then 0
    else CountPassed(details[..|details| - 1]) + if details[|details| - 1].passed then 1 else 0
  }

  predicate Has(details: seq<TestResult>, e: ErrorType) {
    details != [] && (Has(details[..|details| - 1], e) || details[|details| - 1].errorType == e)
  }

  function FirstFailed(details: seq<TestResult>): int {
    if details == [] then -1
    else
      var first := FirstFailed(details[..|details| - 1]);
      var last := details[|details| - 1];
      if first == -1 && !last.passed then last.test else first
  }

  function StatusOf(details: seq<TestResult>, before: Status): Status {
    if Has(details, Timeout) then TimeLimit
    else if Has(details, MemoryLimitType) then MemoryLimit
    else if Has(details, Runtime) then RuntimeErrorStatus
    else if details == [] then before
    else if CountPassed(details) == |details| then Accepted
    else WrongAnswerStatus
  }

  predicate AllPassed(details: seq<TestResult>) {
    forall i | 0 <= i < |details| :: details[i].passed
  }

  lemma {:induction false} CountPassedIsAll(details: seq<TestResult>)
    ensures CountPassed(details) <= |details|
    ensures CountPassed(details) == |details| <==> AllPassed(details)
  {
    if details == [] {
    } else {
      var front := details[..|details| - 1];
      CountPassedIsAll(front);
      assert details == front + [details[|details| - 1]];
    }
  }

  ghost predicate SomeType(details: seq<TestResult>, e: ErrorType) {
    exists i :: 0 <= i < |details| && details[i].errorType == e
  }

  lemma {:induction false} HasMeansSome(details: seq<TestResult>, e: ErrorType)
    ensures Has(details, e) <==> SomeType(details, e)
  {
    if details == [] {
    } else {
      var front := details[..|details| - 1];
      HasMeansSome(front, e);
      assert forall i | 0 <= i < |front| :: front[i] == details[i];
    }
  }

  /** A non-empty result is accepted exactly when every test passed; one timeout outranks everything,
      then memory, then a runtime error. */
  lemma StatusRanks(details: seq<TestResult>, before: Status)
    requires details != [] && AllNormal(details)
    ensures StatusOf(details, before) == Accepted <==> AllPassed(details)
    ensures StatusOf(details, before) == TimeLimit <==> SomeType(details, Timeout)
    ensures StatusOf(details, before) == MemoryLimit <==>
            SomeType(details, MemoryLimitType) && !SomeType(details, Timeout)
    ensures StatusOf(details, before) == RuntimeErrorStatus <==>
            SomeType(details, Runtime) && !SomeType(details, Timeout) && !SomeType(details, MemoryLimitType)
    ensures StatusOf(details, before) == WrongAnswerStatus <==>
            !AllPassed(details) && forall i | 0 <= i < |details| :: details[i].passed || details[i].errorType == WrongAnswerType
  {
    CountPassedIsAll(details);
    HasMeansSome(details, Timeout);
    HasMeansSome(details, MemoryLimitType);
    HasMeansSome(details, Runtime);
  }

  /** -1 if every test passed, and otherwise the number of the first test that did not. */
  lemma {:induction false} FirstFailedMeans(details: seq<TestResult>)
    requires forall i | 0 <= i < |details| :: details[i].test > 0
    ensures FirstFailed(details) == -1 <==> AllPassed(details)
    ensures FirstFailed(details) != -1 ==>
              exists i :: 0 <= i < |details| && !details[i].passed && details[i].test == FirstFailed(details)
                          && AllPassed(details[..i])
  {
    if details == [] {
    } else {
      var front := details[..|details| - 1];
      FirstFailedMeans(front);
      assert details == front + [details[|details| - 1]];
      if FirstFailed(front) != -1 {
        var i :| 0 <= i < |front| && !front[i].passed && front[i].test == FirstFailed(front) && AllPassed(front[..i]);
        assert details[i] == front[i] && details[..i] == front[..i];
      } else {
        assert details[..|front|] == front;
      }
    }
  }

  // -- the object ----------------------------------------------------------------------------------------

  class SubmissionResult {
    var details: seq<TestResult>
    var total: nat
    var passed: nat
    var firstFailedTest: int
    var status: Status
    var internalError: InternalError

    /** The counters and the first failure are those of the records so far. */
    ghost predicate Counted()
      reads this
    {
      && AllNormal(details) && (forall i | 0 <= i < |details| :: details[i].test > 0)
      && total == |details| && passed == CountPassed(details)
      && firstFailedTest == FirstFailed(details)
    }

    ghost predicate Valid()
      reads this
    {
      Counted() && status == StatusOf(details, Accepted)
    }

    function Summarized(): Summary
      reads this
    {
      Summary(status, internalError, "")
    }

    constructor ()
      ensures Valid() && details == [] && internalError == NoInternalError
    {
      details, total, passed, firstFailedTest := [], 0, 0, -1;
      status, internalError := Accepted, NoInternalError;
    }

    method AddTestResult(tr: TestResult)
      requires Valid() && tr.test > 0
      modifies this`details, this`total, this`passed, this`firstFailedTest, this`status
      ensures Valid() && details == old(details) + [Normalize(tr)]
    {
      var n := Normalize(tr);
      ghost var before := details;
      details := details + [n];
      assert details[..|details| - 1] == before;
      total := total + 1;
      if n.passed {
        passed := passed + 1;
      }
      if !n.passed && firstFailedTest == -1 {
        firstFailedTest := n.test;
      }
      UpdateStatus();
    }

    method UpdateStatus()
      requires Counted()
      modifies this`status
      ensures Counted() && status == StatusOf(details, old(status))
      ensures details != [] || old(status) == Accepted ==> Valid()
    {
      var hasRuntimeError, hasMemoryLimitError := false, false;
      for i := 0 to |details|
        invariant !Has(details[..i], Timeout) && status == old(status)
        invariant hasMemoryLimitError <==> Has(details[..i], MemoryLimitType)
        invariant hasRuntimeError <==> Has(details[..i], Runtime)
      {
        assert details[..i + 1][..i] == details[..i];
        match details[i].errorType {
          case Timeout =>
            HasMeansSome(details, Timeout);
            status := TimeLimit;
            return;
          case MemoryLimitType => hasMemoryLimitError := true;
          case Runtime => hasRuntimeError := true;
          case _ =>
        }
      }
      assert details[..|details|] == details;
      if hasMemoryLimitError {
        status := MemoryLimit;
      } else if hasRuntimeError {
        status := RuntimeErrorStatus;
      } else if total > 0 && passed == total {
        status := Accepted;
      } else if total > 0 {
        status := WrongAnswerStatus;
      }
    }
  }
}
