# Verification of the online judge

This project models the parts of the online judge where a mistake would change a verdict, lose a
submission, or break a promise to a student, and proves what those parts guarantee. Code that computes
is modelled by functions, code that updates objects by classes and methods proved against functions, and
protocols that run concurrently by state machines whose every interleaving is considered.

| modules | what they model |
|---|---|
| `Matching`, `Comparator` | the comparison of a program's output with the expected value; first-fit matching over a grid |
| `Judge`, `Leases`, `Progress`, `Resolution`, `CentralRuns`, `Discard`, `JudgeProcess` | the submission workers, their two queues and the pool of containers |
| `Judging`, `Streams`, `Results` | running tests one process per test or all in one batch, and the result object both fill |
| `Attempts`, `AttemptService`, `StartRace` | the life of an assessment attempt, and concurrent starts |
| `Quota` | the fixed-window submission quota |
| `TypeGrammar`, `TypeMap` | the type grammar of problem signatures and its translation to eight languages |
| `BulkRegister`, `Slug` | bulk registration of students, and the short names of colleges |
| `Text`, `Errors`, `Options` | strings as the standard libraries treat them, the executor's errors |

`dafny verify dfyconfig.toml` checks everything.

## What was found

Proving exactly when a property holds brought out the places where the code does less, or more, than a
reader would expect.

- First-fit matching is symmetric at every tolerance, since it computes the one stable pairing there is
  (`Comparator.MatchesIsSymmetric`). It misses a possible pairing only when the order is ignored at a
  positive tolerance, and then it does so for every such tolerance (`Comparator.ExactConfigurations`).
- Widening a tolerance can turn an accepted answer into a refused one. Whichever two tolerances they are,
  that is so exactly when the order is ignored (`Comparator.WideningIsSafeIff`).
- The comparator's mode setting is never consulted; only the tolerance and the order flag are.
- A submission whose problem cannot be fetched, because it was deleted while the submission waited, or its
  id is none of the database's, or its document does not decode (a fractional time limit is stored but not
  read), is put back into the queue each time it is delivered. Nothing fails and nothing is counted
  (`Progress.UnfetchableGoesRound`). As long as nobody repairs the document it is never resolved
  (`Resolution.StuckForEver`), and the work of the judge is bounded exactly when there is no such submission
  (`Progress.BoundedWorkIff`).
- A submission whose id is not one of the database's is acknowledged without anything having been recorded
  (`Judge.SomeAckIsUnrecorded`, `Judge.AckedIsAttemptedIff`).
- A container can go back to the pool after a timeout, a memory overrun or a wrapper failure. Exactly when is
  said by `Discard.PoisonIsOverlookedIff`, and that it happens by `Leases.OverlookedContainerReturns`: the
  engine could not start an exec (`Discard.FailedExecIsOverlooked`); a batch ran out of time once all its
  tests were reported (`Discard.LateTimeoutIsOverlooked`); a run broke and a later test left unreadable output,
  whose mark replaces the first (`Discard.ReplacedMarkIsOverlooked`); only a traceback in a batch mentions
  memory; or the legacy path recorded it, where no result is looked at.
- The batched and the per-test path agree on a report unless the output was over-long or only the
  traceback mentions memory (`Judging.VerdictsAgreeIff`).
- At exactly the instant of expiry an attempt may still be submitted as a whole, while a problem may not
  (`Attempts.ServicesDisagreeAtExpiryOnly`).
- A challenged attempt can become active again (`Attempts.ChallengedYetActive`), in one way only
  (`Attempts.ChallengeRuleBreaksIff`).
- Bulk registration can refuse a row as a duplicate of a row that is itself refused, so that nobody is
  registered under that email or that USN (`BulkRegister.RefusedForNobody`, `BulkRegister.UsnRefusedForNobody`,
  and exactly when: `BulkRegister.DuplicateEmailIsTakenIff`, `BulkRegister.DuplicateUsnIsTakenIff`).
- A matrix and an array of arrays translate alike except around an empty element type
  (`TypeMap.MatrixIsArrayOfArraysIff`); what a tree, a linked list or a graph holds is lost in translation
  (`TypeMap.TranslationsAgreeIff`). Go's `void` becomes `Object`, as its table entry is empty.

## Model

| member | source | states |
|---|---|---|
| `Comparator.Compare` | judge-service-go/pkg/comparator/comparator.go:10-16 | A negative tolerance counts as zero; in every configuration what is accepted is exactly what is related in its mode, null to the empty list, objects field by field, and lists in order or by a pairing in which nobody passes over an earlier element |
| `Comparator.CompareValue` | judge-service-go/pkg/comparator/comparator.go:18-80 | The recursion, dispatching on the expected side, decides that relation |
| `Comparator.CompareSlicesUnordered` | judge-service-go/pkg/comparator/comparator.go:89-108 | The double loop over the `used` array computes first-fit matching on the grid of matching elements |
| `Matching.GreedyIffStable` | judge-service-go/pkg/comparator/comparator.go:89-108 | First-fit succeeds exactly when a stable pairing exists: one in which no free earlier column was passed over |
| `Matching.GreedyIsSymmetric` | judge-service-go/pkg/comparator/comparator.go:89-108 | First-fit succeeds from one list exactly when it does from the other |
| `Matching.GreedyIsComplete` | judge-service-go/pkg/comparator/comparator.go:89-108 | Exchange argument: when matching behaves like an equivalence, first-fit never takes a column a later row cannot do without |
| `Matching.GreedyIffPairing` | judge-service-go/pkg/comparator/comparator.go:89-108 | Then first-fit succeeds exactly when some bijection pairs matching elements |
| `Matching.DiagonalIsFound` | judge-service-go/pkg/comparator/comparator.go:68-76 | If equal positions match, first-fit succeeds |
| `Matching.InjectionIsOnto` | judge-service-go/pkg/comparator/comparator.go:65-67 | With equal lengths a pairing that uses no column twice uses every column |
| `Comparator.MatchesIsSound` | judge-service-go/pkg/comparator/comparator.go:18-108 | At every tolerance and depth an acceptance has a one-to-one pairing behind it |
| `Comparator.MatchesIsComplete` | judge-service-go/pkg/comparator/comparator.go:18-108 | Exact or in order, values that are the same are never told apart |
| `Comparator.MatchesIffSame` | judge-service-go/pkg/comparator/comparator.go:18-108 | Exact or in order, the comparator accepts exactly the pairs that are the same, bijections at every nesting depth included |
| `Comparator.UnorderedMeansStablePairing` | judge-service-go/pkg/comparator/comparator.go:63-69 | At any tolerance, acceptance without order means exactly equal lengths and a stable pairing |
| `Comparator.MatchesIffRelated` | judge-service-go/pkg/comparator/comparator.go:18-108 | At every tolerance, in both modes and at every depth the comparison is a relation said without any matching: equal keys with related fields in the same mode, and stable pairings of lists |
| `Comparator.SameIsReflexive` | judge-service-go/pkg/comparator/comparator.go:18-80 | The independent relation relates every value to itself |
| `Comparator.SameIsSymmetric` | judge-service-go/pkg/comparator/comparator.go:18-80 | The independent relation is symmetric at every tolerance |
| `Comparator.SameIsTransitive` | judge-service-go/pkg/comparator/comparator.go:18-80 | The independent relation is transitive at tolerance 0, null and the empty list being the same |
| `Comparator.MatchesIsReflexive` | judge-service-go/pkg/comparator/comparator.go:18-80 | Every value passes against itself, at every tolerance, in both modes |
| `Comparator.MatchesIsSymmetric` | judge-service-go/pkg/comparator/comparator.go:18-108 | The verdict does not depend on which value is called expected, at every tolerance, in both modes |
| `Comparator.ExactMatchesIsTransitive` | judge-service-go/pkg/comparator/comparator.go:18-80 | At tolerance 0 acceptance is transitive in both modes |
| `Comparator.OrderedImpliesUnordered` | judge-service-go/pkg/comparator/comparator.go:68-76 | What passes in order passes without, at every tolerance and depth |
| `Comparator.VerdictSurvivesRearranging` | judge-service-go/pkg/comparator/comparator.go:18-108 | The exact verdict survives replacing either value by one that is the same: permuted lists, null for the empty list, at any depth |
| `Comparator.VerdictSurvivesPermuting` | judge-service-go/pkg/comparator/comparator.go:89-108 | Permuting either of two lists never changes the exact verdict |
| `Comparator.FirstFitRefusesARearrangement` | judge-service-go/pkg/comparator/comparator.go:82-108 | For every positive tolerance there are two lists that are the same, even exactly, and are refused |
| `Comparator.ExactConfigurations` | judge-service-go/pkg/comparator/comparator.go:10-16 | A configuration recognises all values that are the same exactly when its tolerance is zero or it keeps order |
| `Comparator.WideningIsSafeIff` | judge-service-go/pkg/comparator/comparator.go:82-108 | For any two tolerances, what passes at the smaller always passes at the larger exactly when order is kept |
| `Comparator.WideningLosesARearrangement` | judge-service-go/pkg/comparator/comparator.go:89-108 | Without order, two lists that pass at every tolerance below u are refused at u |
| `Comparator.WideningKeepsOrdered` | judge-service-go/pkg/comparator/comparator.go:71-76 | In order, acceptance is monotone in the tolerance at every depth |
| `Judge.StepLosesNothing` | judge-service-go/main.go:988-1159 | No step, crashes included, leaves a published submission without a copy unless it was rejected or acknowledged for good |
| `Judge.NoSubmissionIsLost` | judge-service-go/main.go:988-1159 | The same in every reachable state, over all runs with crashes, failed publishes, starvation and unavailable databases |
| `Judge.AttemptsPrecedeAcks` | judge-service-go/main.go:1036-1043 | Every step keeps: what is acknowledged for good, or about to be, had its outcome sent to the database exactly when its id is one of the database's |
| `Judge.AckedIsAttemptedIff` | judge-service-go/main.go:883-887 | In every reachable state an acknowledged submission's outcome was sent to the database, result or failure, exactly when its id is one |
| `Judge.SomeAckIsUnrecorded` | judge-service-go/main.go:883-887 | Every submission with any other id can be run and acknowledged, and nothing of it is recorded |
| `Judge.RepublishCountsIff` | judge-service-go/main.go:1045-1060 | A republish adds one copy to the retry queue, with a raised count exactly when the message could be encoded |
| `Judge.RetriesAreBounded` | judge-service-go/main.go:1036-1060 | No copy in either queue or in flight ever carries more retries than the maximum |
| `JudgeProcess.Process.ProcessSubmission` | judge-service-go/main.go:988-1159 | Everything done with a delivery is a run of the state machine, and how it ends, whether a lease is handed out and ended, whether a result is stored, and whether the container is discarded, are each decided by the message and the environment as stated, in both directions |
| `JudgeProcess.Process.Execute` | judge-service-go/main.go:1005-1159 | From a problem in hand: run exactly if problem, language and type are good and a container came; rejected, acknowledged, requeued or retried exactly as stated, with a container and without |
| `JudgeProcess.Process.Lease` | judge-service-go/main.go:1070-1159 | With a container in time: one lease handed out and ended, the run stored, refused or put back, and the container discarded exactly if it is spent or marked |
| `JudgeProcess.Process.Wait` | judge-service-go/main.go:1035-1069 | With none: no lease, and the retry or the end of it |
| `JudgeProcess.Process.RunWithContainer` | judge-service-go/main.go:1070-1159 | From a container in hand to its deferred return: exactly one lease ended on every exit path |
| `JudgeProcess.Process.TakeContainer` | judge-service-go/main.go:1070-1078 | The container is in use and has one more use counted; it is spent exactly if that reaches the maximum |
| `JudgeProcess.Process.EndLease` | judge-service-go/main.go:1079-1081 | The deferred calls end the lease once, after the delivery is settled |
| `JudgeProcess.Process.RunCentral` | judge-service-go/main.go:1083-1112 | Rejected on an execution or encoding error and otherwise stored, then acknowledged; the discard flag only goes up |
| `JudgeProcess.Process.RunLegacy` | judge-service-go/main.go:1114-1158 | Requeued without a workspace, rejected without files, otherwise stored, then acknowledged; the flag depends on the error alone |
| `JudgeProcess.Process.RetryOrGiveUp` | judge-service-go/main.go:1035-1069 | With no container: marked failed at the maximum, otherwise republished, with a count raised by one if the message can be encoded, or requeued if publishing fails |
| `JudgeProcess.Process.RepublishAndAck` | judge-service-go/main.go:1045-1068 | The copy is in the retry queue before the delivery is acknowledged |
| `JudgeProcess.Process.StoreAndAck` | judge-service-go/main.go:1108-1111 | The store is attempted before the delivery is acknowledged, with the container still held |
| `JudgeProcess.Process.RejectRun` | judge-service-go/main.go:1094-1095 | The rejection of a run, with the container still held |
| `JudgeProcess.Process.RejectDelivery` | judge-service-go/main.go:991-996 | A rejection is the state machine's rejection step |
| `JudgeProcess.Process.RequeueDelivery` | judge-service-go/main.go:998-1003 | A requeue puts the unchanged message back into the main queue and frees the slot |
| `JudgeProcess.Process.AckDelivery` | judge-service-go/main.go:1067-1068 | An acknowledgement is the state machine's own step, apart from the publish before it |
| `JudgeProcess.Process.FinishWithContainer` | judge-service-go/main.go:828-836 | Removed if marked and available otherwise, and the lease is over |
| `Leases.PoolStaysPartitioned` | judge-service-go/pkg/pool/pool.go:72-175 | Available, in-use and removed containers partition those created, through every step |
| `Leases.ContainersStayHeldOnce` | judge-service-go/pkg/pool/pool.go:72-129 | The containers in use are those some slot holds, and no two slots hold the same one |
| `Leases.OnlyFitContainersReturn` | judge-service-go/main.go:1070-1100 | A held container that is worn out, or was poisoned outside the blind spots, has its discard flag up, so none becomes available again |
| `Leases.AvailableIsFit` | judge-service-go/main.go:1070-1100 | In every reachable state an available container has been used less often than allowed, and a run in its last use went over time or memory, broke, or was not cleaned up after, exactly when that fell into a blind spot |
| `Leases.OverlookedContainerReturns` | judge-service-go/main.go:1083-1158 | On either path, from every reachable state with an unmarked container in use, such an outcome leads to that container being available |
| `Leases.SomeContainerIsUnmarked` | judge-service-go/main.go:1070-1081 | Such states exist in every configuration that uses a container twice |
| `Leases.SomeContainerIsOverlooked` | judge-service-go/pkg/executor/executor.go:422-430 | So containers are available again after an exec that could not be started, and after a batch that ran out of time |
| `Leases.LedgerStaysBalanced` | judge-service-go/main.go:1079-1081 | Each lease handed out has ended once, was lost in a crash, or is the one still running |
| `Leases.LeasesAreSound` | judge-service-go/main.go:1070-1126 | All four in every reachable state, across all interleavings of queue workers and HTTP requests |
| `Leases.QuietMeansAllReturned` | judge-service-go/main.go:560-564 | With no lease running and no crash before, releases and discards match the leases handed out one for one |
| `CentralRuns.MarkIsLast` | judge-service-go/central_runner.go:183-211 | After any number of tests the internal-error mark is the wrapper's exactly when some run broke and no later one left unreadable output |
| `CentralRuns.PerTestIsBadIff` | judge-service-go/central_runner.go:130-256 | A per-test result shows time, memory or a wrapper failure exactly when some run or report says time or memory, or the last mark is the wrapper's |
| `CentralRuns.BatchIsBadIff` | judge-service-go/central_runner.go:313-370 | A batch's result does exactly when a reported error mentions memory, the time ran out before all tests were reported, or the wrapper broke in time |
| `CentralRuns.StdinIsBadIff` | judge-service-go/stdin_runner.go:64-166 | A standard-input result does exactly when some run went over time or memory |
| `Discard.CentralFlagIff` | judge-service-go/main.go:1083-1100 | When the flag goes up on the central path, said of cleanup, the error, the runs, or the batch's exit and records |
| `Discard.LegacyFlagIff` | judge-service-go/main.go:1120-1154 | When the flag goes up on the legacy path: failed cleanup or a known error, whatever was printed |
| `Discard.FailurePhrases` | judge-service-go/main.go:724-733 | The phrases that make a message look like a container failure |
| `CentralRuns.FallbackSays` | judge-service-go/main.go:652-681 | What is made up for a run without a readable result, said of its error and output |
| `CentralRuns.StdinVerdict` | judge-service-go/stdin_runner.go:76-157 | The verdict and error type of a test on standard input |
| `Discard.PoisonIsOverlookedIff` | judge-service-go/main.go:652-733 | When runs went over time or memory, or broke, or cleanup failed, the flag stays down exactly in the blind spots: errors of no known kind with none of the phrases; marks replaced by a later unreadable output; time that runs out after the last report, or memory mentioned by a traceback alone; and all results on the legacy path |
| `Discard.FailedExecIsOverlooked` | judge-service-go/pkg/executor/executor.go:422-430 | On both paths an exec that cannot be started is a wrapper failure and does not discard its container |
| `Discard.LateTimeoutIsOverlooked` | judge-service-go/central_runner.go:342-365 | No batch that runs out of time with all tests reported and no memory error discards its container |
| `Discard.SomeTimeoutIsLate` | judge-service-go/central_runner.go:342-365 | Such a batch exists: one test, one line, and the deadline |
| `Discard.ReplacedMarkIsOverlooked` | judge-service-go/central_runner.go:184-211 | After a run that broke in an unknown way and one with unreadable output the container is not discarded |
| `Discard.OnlyCentralNoticesAllRecorded` | judge-service-go/main.go:1083-1158 | Of what is stored with submissions, the central path notices every timeout, memory overrun and wrapper failure, and only that path does |
| `Progress.WorkLowersEffort` | judge-service-go/main.go:1035-1069 | Every step that handles a delivery, but for putting back one whose problem cannot be fetched, lowers a measure built from the retries left |
| `Progress.FaultEffort` | judge-service-go/main.go:999-1003 | A fault raises the measure by at most one message's worth per slot |
| `Progress.BackgroundKeepsEffort` | judge-service-go/main.go:1306-1331 | Requests and pool maintenance leave the measure alone |
| `Progress.RunFitsBudget` | judge-service-go/main.go:988-1159 | While the problems of all submissions can be fetched, the work in any run is paid for by its submissions and faults, however its steps interleave |
| `Progress.TotalWorkIsBounded` | judge-service-go/main.go:988-1159 | So a run from the start does no more work than that budget |
| `Progress.UnfetchableGoesRound` | judge-service-go/main.go:998-1003 | A message whose problem cannot be fetched can be delivered and put back any number of times, with no fault and no trace |
| `Progress.BoundedWorkIff` | judge-service-go/main.go:988-1159 | For given submissions, unfetchable problems and number of faults, the work of all runs has a bound exactly when every submission that decodes names a problem that can be fetched |
| `Progress.SomeWorkForBusySlot` | judge-service-go/main.go:988-1159 | A slot holding a delivery or a container is never stuck: what its worker does next if containers are short is possible |
| `Progress.OutOfWorkMeansResolved` | judge-service-go/main.go:988-1159 | When no delivery can be handled, both queues are empty and every submission was rejected or acknowledged for good |
| `Resolution.StuckForEver` | judge-service-go/main.go:291-304 | A submission whose problem cannot be fetched, and of which no delivery got past that, is resolved in no run, faults or none, while its problem stays as it is |
| `Resolution.ResolvableIff` | judge-service-go/main.go:988-1159 | From every reachable state a published submission can be resolved, and then without faults, exactly when it is not stuck in that way |
| `Resolution.Drain` | judge-service-go/main.go:988-1159 | Every worker can finish what it is doing without faults, sparing queues and other workers |
| `Resolution.SomeSubmissionIsStuck` | assessment-api/src/services/problems.service.js:361-363 | Deleting the problem of a queued submission leads there |
| `Results.Normalize` | judge-service-go/pkg/models/result.go:203-234 | Aliases and error type agree with the verdict; a failed record without a type gets the one its reason has, except that a compilation error counts as a wrong answer; a record in order is left alone |
| `Results.MarkFailed` | judge-service-go/central_runner.go:460-474 | A failed test has its reason, and the error type that goes with it |
| `Results.SubmissionResult.AddTestResult` | judge-service-go/pkg/models/result.go:81-97 | Appends the normalised record and keeps counts, first failure and status those of the records |
| `Results.SubmissionResult.UpdateStatus` | judge-service-go/pkg/models/result.go:142-180 | The loop with its early return computes the status from the records |
| `Results.StatusRanks` | judge-service-go/pkg/models/result.go:142-180 | Accepted exactly when all passed; time limit exactly when some test timed out, then memory limit, then runtime error; wrong answer exactly when failures are all wrong answers |
| `Results.CountPassedIsAll` | judge-service-go/pkg/models/result.go:89-92 | The count of passes equals the number of records exactly when all passed |
| `Results.FirstFailedMeans` | judge-service-go/pkg/models/result.go:93-95 | The first failure is -1 exactly when all passed, and otherwise the test of the first record that failed |
| `Judging.JudgeRun` | judge-service-go/central_runner.go:130-249 | Said of the run alone: exactly when the test passes, is out of time, out of memory, a runtime error or a wrong answer; and the judge is blamed only for runs that failed for neither time nor memory or left nothing to read |
| `Judging.RunPerTest` | judge-service-go/central_runner.go:120-257 | One result per test, in order, each depending on that test's run alone, and the summary the discard decision looks at |
| `CentralRuns.PerTestVerdict` | judge-service-go/central_runner.go:174-248 | The verdict and error type of each record, said of its run |
| `CentralRuns.PerTestStatus` | judge-service-go/pkg/models/result.go:142-180 | The status of a submission run test by test, said of the runs: time before memory before crashes before wrong outputs |
| `Judging.SplitJoins` | judge-service-go/central_runner.go:391 | Joining the lines a text is split into gives the text back, for all texts |
| `Judging.OnlySplit` | judge-service-go/central_runner.go:391 | Splitting is the one way to take a text apart into lines without an end of line |
| `Judging.AppendBatchedResults` | judge-service-go/central_runner.go:375-447 | For the lines that make up the error stream: a result for each record that counts, up to the first fatal one, and how many and whether there was one |
| `Judging.AppendMissingBatchedResults` | judge-service-go/central_runner.go:449-458 | Adds a failure for each test from position `processed` on |
| `Judging.ExplainRemaining` | judge-service-go/central_runner.go:324-356 | Nothing is left to explain exactly when the exit was clean, nothing was fatal and every test was reported; the time is the reason exactly when the process ran out of it; and then nobody else is blamed |
| `Judging.RunBatched` | judge-service-go/central_runner.go:305-373 | For the lines that make up the error stream: the reports read back, followed by the failures for the rest; the judge is blamed exactly for a fatal record after a clean exit, the wrapper exactly for other failures that are no timeout |
| `CentralRuns.BatchVerdict` | judge-service-go/central_runner.go:425-440 | The verdict and error type of each record of a batch, said of its report |
| `CentralRuns.CompleteBatchStatus` | judge-service-go/pkg/models/result.go:142-180 | The status of a batch with all tests reported, said of the reports |
| `Judging.NoiseIsIgnored` | judge-service-go/central_runner.go:391-408 | Lines that are no records change nothing, wherever they stand |
| `Judging.ErrorSays` | judge-service-go/central_runner.go:175-179 | When an error of a run counts as time or as memory |
| `Judging.ExitSays` | judge-service-go/central_runner.go:342-345 | When the exit of a batch counts as time |
| `Judging.OomSays` | judge-service-go/central_runner.go:427 | When a report mentions memory |
| `Judging.FatalEndsRecords` | judge-service-go/central_runner.go:403-405 | Nothing after a fatal record is read |
| `Judging.DetailsByPosition` | judge-service-go/central_runner.go:338-365 | Where each result of a batch comes from, for any order of the reports |
| `Judging.CoverageIffInOrder` | judge-service-go/central_runner.go:363-365 | A batch gives one result for each test in order exactly when the wrapper reported tests 1..k in order, once each |
| `Judging.VerdictsAgreeIff` | judge-service-go/central_runner.go:200-245 | On the same report the two paths agree exactly when the output is not over-long and memory is not mentioned by the traceback alone |
| `Judging.BatchRefinesLoop` | judge-service-go/central_runner.go:375-458 | When the process dies after k tests: the loop's verdicts on the first k, the reason found on all others |
| `Judging.CompleteBatchIsTheLoop` | judge-service-go/central_runner.go:259-373 | When all tests are reported the batch gives the very records of the loop |
| `Streams.OpensIff` | judge-service-go/central_runner.go:393-396 | A line is looked at exactly when its first character after white space is a brace |
| `Streams.NoiseIff` | judge-service-go/central_runner.go:391-408 | What is passed over is exactly ordinary text, other JSON, and records that name no test and nothing fatal |
| `Streams.WovenRecords` | judge-service-go/central_runner.go:391-444 | Amid any noise exactly the reports are read |
| `Streams.StreamRefinesLoop` | judge-service-go/central_runner.go:259-458 | If the lines that make up the error stream are the reports on tests 1..k in order amid any noise, the results are the loop's on the first k and a failure for the reason found on every other test |
| `Streams.FatalStreamRefinesLoop` | judge-service-go/central_runner.go:403-405 | The same if a fatal record follows, whatever comes after it; the judge is blamed exactly if the exit was clean |
| `AttemptService.AttemptRecord.LogAntiCheatingEvent` | assessment-api/src/services/assessments.service.js:126-166 | The update of the stored record, and the reply, are those the lifecycle is proved about |
| `AttemptService.AttemptRecord.GetAttempt` | assessment-api/src/services/assessments.service.js:168-180 | The same for looking at an attempt, which times it out |
| `AttemptService.AttemptRecord.SubmitAssessment` | assessment-api/src/services/assessments.service.js:307-369 | The same for submitting an attempt |
| `AttemptService.AttemptRecord.SubmitSolution` | assessment-api/src/services/submissions.service.js:90-138 | The same for submitting one problem, whether or not its event then gets onto the timeline |
| `AttemptService.AttemptRecord.GrantGraceTime` | assessment-api/src/services/assessments.service.js:648-676 | The same for granting grace time |
| `AttemptService.AttemptRecord.RaiseChallenge` | assessment-api/src/services/assessments.service.js:678-710 | The same for raising a challenge |
| `AttemptService.AttemptRecord.ResolveChallenge` | assessment-api/src/services/assessments.service.js:712-738 | The same for resolving one |
| `Attempts.ExpiriesAgree` | assessment-api/src/services/submissions.service.js:84-88 | Both formulas give the earlier of start plus duration and end, extended by the grace time |
| `Attempts.BeginsFresh` | assessment-api/src/services/assessments.service.js:98-107 | An attempt begins active at its start, with nothing else on record |
| `Attempts.SubmitSubmits` | assessment-api/src/services/assessments.service.js:314-359 | Submitting an active attempt up to its deadline submits it with time and event; afterwards it times out at the deadline; anything else changes nothing |
| `Attempts.ViewTimesOut` | assessment-api/src/services/assessments.service.js:168-180 | Looking times out an active attempt exactly after its deadline |
| `Attempts.SubmitProblemAdmits` | assessment-api/src/services/submissions.service.js:90-138 | A problem is let in exactly for the owner of an active, unlocked attempt before the deadline, if offered; at the deadline the attempt times out |
| `Attempts.GraceIsAdded` | assessment-api/src/services/assessments.service.js:648-676 | Staff add grace time, which is recorded and reopens a timed-out attempt |
| `Attempts.ChallengeIsRaised` | assessment-api/src/services/assessments.service.js:678-710 | The owner raises the one challenge there can be, once the attempt is not active |
| `Attempts.ChallengeIsResolved` | assessment-api/src/services/assessments.service.js:712-738 | A raised challenge becomes what it is resolved as |
| `Attempts.EventIsLogged` | assessment-api/src/services/assessments.service.js:126-166 | An event goes onto the timeline of an active attempt and raises its own counter by one |
| `Attempts.RefusalsSayWhy` | assessment-api/src/services/assessments.service.js:126-138 | Which refusal a call gets, exactly when |
| `Attempts.SubmittedIffSubmits` | assessment-api/src/services/assessments.service.js:320-359 | Over any run an attempt is submitted exactly when someone who may submitted it, while active and in time |
| `Attempts.CallKeepsMirror` | assessment-api/src/services/assessments.service.js:135-165 | Every call keeps counters, grace and challenge equal to what the timeline adds up to |
| `Attempts.CallKeepsOpenIffActive` | assessment-api/src/services/assessments.service.js:664-675 | Every call keeps an attempt active exactly while it has no submission time |
| `Attempts.CallKeepsAdmissions` | assessment-api/src/services/submissions.service.js:113-125 | Every call lets a problem in only before the expiry in force, unlocked and active |
| `Attempts.EveryRunIsConsistent` | assessment-api/src/services/assessments.service.js:126-180 | All three in every state a run of calls can reach, whoever calls what and when |
| `Attempts.TimelineIsAppendOnly` | assessment-api/src/services/assessments.service.js:137-144 | Over any run the timeline only grows |
| `Attempts.SubmittedIsFinal` | assessment-api/src/services/assessments.service.js:320-359 | Over any run a submitted attempt stays submitted at its time and lets nothing more in |
| `Attempts.TimedOutIsLeftByGraceOnly` | assessment-api/src/services/assessments.service.js:669-673 | A step leaves a timed-out attempt timed out unless it grants grace time, and then makes it active |
| `Attempts.TimedOutLastsWithoutGrace` | assessment-api/src/services/assessments.service.js:669-673 | Over any run without such a step it stays timed out at its time and lets nothing in |
| `Attempts.ChallengeOnlyAdvances` | assessment-api/src/services/assessments.service.js:687-737 | Over any run a challenge never goes back, and a resolution is never changed |
| `Attempts.ChallengeMovesOneStage` | assessment-api/src/services/assessments.service.js:716-722 | No call skips the stage of a raised challenge |
| `Attempts.ChallengeRuleBreaksIff` | assessment-api/src/services/assessments.service.js:669-693 | That challenged attempts are over is broken exactly by grace time for a timed-out one |
| `Attempts.ChallengedYetActive` | assessment-api/src/services/assessments.service.js:669-693 | For every assessment and start some run ends with the attempt active under a raised challenge |
| `Attempts.GraceMovesExpiry` | assessment-api/src/services/assessments.service.js:655-666 | Granting g minutes moves the expiry by exactly g minutes |
| `Attempts.ExpiryMovesByTotalGrace` | assessment-api/src/services/assessments.service.js:655-675 | Over a run the expiry moves by the sum of the grace granted |
| `Attempts.ServicesDisagreeAtExpiryOnly` | assessment-api/src/services/assessments.service.js:371-375 | The two services differ about being out of time exactly at the instant of expiry |
| `StartRace.StepKeepsRace` | assessment-api/src/services/assessments.service.js:90-114 | Each half of a check-then-create keeps one attempt per assessment and student, and every start that returned holds it |
| `StartRace.LookFinds` | assessment-api/src/services/assessments.service.js:90-92 | Looking hands out the attempt there is, or goes on to create |
| `StartRace.CreateStores` | assessment-api/src/services/assessments.service.js:98-112 | Creating stores one attempt and hands it out, or reads again if there is one by now |
| `StartRace.StartFinishes` | assessment-api/src/services/assessments.service.js:90-114 | Whatever the others did, an admitted start can finish by itself with a stored attempt of its own |
| `StartRace.StartsAgree` | assessment-api/src/services/assessments.service.js:90-114 | However starts interleave, those that return for one student and assessment return the one attempt stored |
| `Quota.QuotaStore.CheckFixedWindowQuota` | assessment-api/src/services/quota.service.js:7-27 | Fails open without Redis or scope, and when the lifetime of a new counter cannot be set, which leaves one that never expires; otherwise counts the request and compares with the limit |
| `Quota.NoCounterExpiresInItsWindow` | assessment-api/src/services/quota.service.js:18-21 | What has expired by any moment are counters of windows that are over |
| `Quota.StoreIsFaithful` | assessment-api/src/services/quota.service.js:14-21 | After any requests in order of time, each counter of the current window holds the number of its requests |
| `Quota.AdmittedIff` | assessment-api/src/services/quota.service.js:18-22 | A request is admitted exactly when fewer than `limit` of its scope came before it in its window, or it is the first there and its check failed open |
| `Quota.WindowAdmitsUpToLimit` | assessment-api/src/services/quota.service.js:14-22 | A window admits as many requests of a scope as were made, up to the limit; a limit of zero admits one at most, by failing open |
| `Quota.RateIsBounded` | assessment-api/src/services/quota.service.js:14-22 | Any stretch of time one window long admits at most twice the limit, or two if that is zero and a check failed open |
| `Quota.RateBoundIsTight` | assessment-api/src/services/quota.service.js:14-22 | For every limit and window some requests reach that bound |
| `Quota.WindowIsFloor` | assessment-api/src/services/quota.service.js:14 | The window number is the quotient rounded down |
| `TypeGrammar.MatchIffFits` | frontend/src/utils/typeValidator.js:1 | The pattern's match is its one capture that fits, if there is one |
| `TypeGrammar.ValidIffParses` | frontend/src/utils/typeValidator.js:28-49 | The recogniser accepts exactly what reads as a type |
| `TypeGrammar.ParseIffWrites` | frontend/src/utils/typeValidator.js:28-49 | A text reads as a type exactly when the grammar, inner spaces allowed, writes that type so; no text has two readings |
| `TypeGrammar.ValidIffInGrammar` | frontend/src/utils/typeValidator.js:28-49 | The recogniser accepts exactly the grammar's language |
| `TypeGrammar.PrintThenParse` | frontend/src/utils/typeValidator.js:28-49 | Printing a type and reading it gives the type |
| `TypeGrammar.NamesAreKnown` | frontend/src/utils/typeValidator.js:3-21 | The set of kinds holds each name once |
| `TypeGrammar.KindNames` | frontend/src/utils/typeValidator.js:3-21 | Which names they are, and which take a type in angle brackets |
| `TypeMap.TranslationHasShape` | frontend/src/utils/typeValidator.js:54-177 | However a type is written, its translation depends on its innermost kind and number of lists alone |
| `TypeMap.PrimsAcross` | frontend/src/utils/typeValidator.js:62-156 | What each language calls a number, a text, a truth value and nothing |
| `TypeMap.NodesAcross` | frontend/src/utils/typeValidator.js:62-156 | How each language refers to a tree, a linked list or a graph |
| `TypeMap.ListsAcross` | frontend/src/utils/typeValidator.js:62-156 | How each language writes a list |
| `TypeMap.OutsideTheGrammar` | frontend/src/utils/typeValidator.js:54-57 | What texts outside the grammar become |
| `TypeMap.ListOfNothing` | frontend/src/utils/typeValidator.js:172-175 | A kind without angle brackets is one of nothing |
| `TypeMap.TranslationsAgreeIff` | frontend/src/utils/typeValidator.js:54-177 | In each of the eight languages two types have one translation exactly when they have one shape |
| `TypeMap.MatrixIsArrayOfArraysIff` | frontend/src/utils/typeValidator.js:67-68 | On any text, valid or not, matrix and array of arrays translate alike exactly when the text is not empty |
| `TypeMap.MatrixEntryIsTwoArrays` | frontend/src/utils/typeValidator.js:62-156 | The sixteen templates for matrix and array fit together |
| `BulkRegister.Directory.BulkRegister` | assessment-api/src/services/auth.service.js:86-204 | The reply and the users afterwards are those specified, for every failure of the database |
| `BulkRegister.Directory.Check` | assessment-api/src/services/auth.service.js:93-162 | The loop with its two sets gives each row the verdict said of the whole batch |
| `BulkRegister.Directory.CheckRow` | assessment-api/src/services/auth.service.js:97-161 | One turn of it, through all its exits |
| `BulkRegister.Directory.CreateAll` | assessment-api/src/services/auth.service.js:168-203 | All created, or the users exactly as before, or, if the rollback fails as well, the ones created so far |
| `BulkRegister.Directory.Create` | assessment-api/src/services/auth.service.js:172-180 | Storing fails on an outage, an empty required field or a taken key, and otherwise adds one user |
| `BulkRegister.EveryRowOnce` | assessment-api/src/services/auth.service.js:97-162 | Each row is accepted or reported, once, in order, a report naming the row, its data and the verdict |
| `BulkRegister.VerdictMeans` | assessment-api/src/services/auth.service.js:104-145 | Each verdict said of the row, and of the rows and users before it |
| `BulkRegister.EmailFormatIff` | assessment-api/src/services/auth.service.js:113 | What an email is: a name, an at sign, a domain with a dot inside |
| `BulkRegister.AcceptedRowIsStudent` | assessment-api/src/services/auth.service.js:147-193 | After a finished call every accepted row is a student of the college with the row's own data and password |
| `BulkRegister.OthersStay` | assessment-api/src/services/auth.service.js:195-200 | Whatever the reply, the users there were are as they were |
| `BulkRegister.FailuresRestore` | assessment-api/src/services/auth.service.js:195-201 | A refused or rolled-back call changes nothing; one that could not be rolled back has created the users before the first failure |
| `BulkRegister.SeatLimitReachedIff` | assessment-api/src/services/auth.service.js:15-29 | Refused for seats exactly when a finite limit has no room for all accepted rows |
| `BulkRegister.AcceptedDiffer` | assessment-api/src/services/auth.service.js:118-130 | Accepted rows differ in emails and in the USNs they have |
| `BulkRegister.VerifiedAreCreatable` | assessment-api/src/services/auth.service.js:132-158 | No accepted row can be refused by the database's unique indexes |
| `BulkRegister.RegistersOneWay` | assessment-api/src/services/auth.service.js:164-203 | Reply and users afterwards are determined by what was given |
| `BulkRegister.KeysStayUnique` | assessment-api/src/services/auth.service.js:86-204 | Whatever the reply, emails and USNs stay unique |
| `BulkRegister.SeatLimitHolds` | assessment-api/src/services/auth.service.js:15-29 | A call that changes a college with a finite limit leaves it within its seats |
| `BulkRegister.DuplicateEmailIsTakenIff` | assessment-api/src/services/auth.service.js:118-122 | The email of a row refused as a duplicate is a user's afterwards exactly when it was before, or its first row repeats no USN, no lookup for it fails and its USN is free |
| `BulkRegister.DuplicateUsnIsTakenIff` | assessment-api/src/services/auth.service.js:124-130 | The USN of a row refused as a duplicate is a user's afterwards exactly when it was before, or the email of its first row is free and no lookup for that row fails |
| `BulkRegister.RefusedForNobody` | assessment-api/src/services/auth.service.js:118-130 | A batch in which a row is refused as a duplicate and nobody has or gets its email |
| `BulkRegister.UsnRefusedForNobody` | assessment-api/src/services/auth.service.js:124-137 | A batch in which a row is refused for its USN and nobody has or gets that |
| `BulkRegister.SecondCallCreatesNobody` | assessment-api/src/services/auth.service.js:132-145 | The same rows once more create nobody, if no lookup had failed |
| `Slug.SlugJoinsWords` | assessment-api/src/services/college.service.js:5-12 | The slug is the lower-cased name's words with single dashes between, or `college`; it has no leading, trailing or doubled dash |
| `Slug.FixedIffSlug` | assessment-api/src/services/college.service.js:5-12 | The names that stay as they are are exactly the slugs |
| `Slug.SlugifyIsIdempotent` | assessment-api/src/services/college.service.js:5-12 | Making a slug of a slug changes nothing |
| `Slug.SameSlugIffSameWords` | assessment-api/src/services/college.service.js:5-12 | Two names collide exactly when they have the same words, a name without words having the one word `college` |
| `Slug.UniqueSlug` | assessment-api/src/services/college.service.js:14-22 | Ends after at most one lookup more than there are slugs, with the first of base, base-2, base-3 and so on that is not in use |
| `Slug.DecimalStandsFor` | assessment-api/src/services/college.service.js:19 | The suffix is the number's own digits |
| `Slug.TakenCandidates` | assessment-api/src/services/college.service.js:17-20 | Pigeonhole: no more candidates can be taken than there are slugs |
| `Slug.CandidateIsSlug` | assessment-api/src/services/college.service.js:19 | A numbered slug is a slug |

## Left out

Weaker than the whole, on purpose:

- Judge.NoSubmissionIsLost: that a store reached the database is claimed, not that it succeeded, because database errors are only logged.
- Judge.RepublishCountsIff: encoding a message that was decoded does not fail in practice; the branch for it is modelled all the same, and counted as a fault.
- JudgeProcess.Process.ProcessSubmission: languages of containers are not distinguished; any available container may be handed out. The maximum of retries, 12 in the source, is a parameter.
- Leases.OnlyFitContainersReturn: the maximum of executions is taken to be positive; with any other every container is discarded after one use. That a poisoned container never returns is false of the code, and `Leases.AvailableIsFit` says exactly when one does.
- Discard.PoisonIsOverlookedIff: an error of the central path is not stored at all; it is judged by the result the same error is given where it is stored, even if it came before anything ran. A run on standard input that fails for neither time nor memory counts as the program's own failure, as in the code, and its comparison of texts is a given yes or no.
- Resolution.StuckForEver: no problem is ever created under an id that had none, and no edit repairs a document that does not decode, though one could.
- Judging.RunBatched: the text of the error stream is taken as complete; that it may be read while it is still being copied, and errors of reading itself, are not modelled. The limit reason for batched output is left out, since nothing returns that error.
- Judging.JudgeRun: the wrapper's report is taken as already read from the output, and the JSON decoder of batch lines is a parameter. Texts kept for display and times are left out.
- Attempts.EveryRunIsConsistent: each call is one step. Checking and creating within one problem submission is one step, and grace minutes that are not numbers are left out.
- BulkRegister.Directory.BulkRegister: there is no other writer meanwhile; failures of reading the college, and hashing of passwords, are left out.
- Slug.UniqueSlug: there is no other signup between the lookup and the creation.
- Slug.FixedIffSlug: lower-casing is a parameter that leaves slugs alone.
- TypeMap.TranslationHasShape: only the eight languages of the tables; an unknown language, a missing one, and kinds that are names of built-in properties of JavaScript objects are left out.

Not modelled:

- Floating-point rounding: numbers are reals.
- What RabbitMQ does with a rejected message: rejection is a final state, because the dead-letter queue's binding may not receive it.
- Rejudging, which publishes a submission again under the same name, and the cache of results.
- The autoscaler, reconciler and health monitor of the pool: containers may appear and available ones disappear at any time.
- A crash is that of the whole process: all deliveries return to the queue and all containers are removed at the next start.
- Drafts, scores, analytics, announcements and attendance: sums and thin wrappers around the attempt.
- The loop of the runner for programs reading standard input, and the text comparator: the per-test loop again and a trimmed equality. What its runs mean for the container is modelled.
- Pages, routes, tokens, payment, audit log and mail.
