/** The batch run from the text of its error stream: reports in order, each on a line of its own, and
    whatever else was written between them. */
module Streams {
  import opened Results
  import opened Options
  import opened Text
  import opened Judging

  /** A line whose first character after white space opens a JSON object. */
  predicate OpensObject(line: string) {
    exists i | 0 <= i < |line| :: line[i] == '{' && AllWhite(line[..i], IsSpace)
  }

  /** A line that is no report: ordinary text, JSON of another kind, or a record that names no test and
      reports no fatal error. */
  predicate Noise(line: string, decode: Decoder, tests: nat) {
    !OpensObject(line) ||
    match decode(Trim(line, IsSpace))
    case None => true
    case Some(r) => r.fatal == "" && !(1 <= r.test <= tests)
  }

  lemma OpensIff(line: string)
    ensures OpensObject(line) <==> Trim(line, IsSpace) != "" && Trim(line, IsSpace)[0] == '{'
  {
    var text := Trim(line, IsSpace);
    var l, r := TrimSplits(line, IsSpace);
    if text != "" && text[0] == '{' {
      assert line[|l|] == '{' && line[..|l|] == l;
    }
    if i :| 0 <= i < |line| && line[i] == '{' && AllWhite(line[..i], IsSpace) {
      var rest := line[i..];
      assert line == line[..i] + rest;
      TrimLeftRemoves(line[..i], rest, IsSpace);
      var tail := TrimRightSplits(rest, IsSpace);
      assert text != "" by {
        assert rest == text + tail && !IsSpace(rest[0]);
      }
    }
  }

  /** Noise is exactly what the reader passes over. */
  lemma NoiseIff(line: string, decode: Decoder, tests: nat)
    ensures Noise(line, decode, tests) <==> !Counts(line, decode, tests) && !IsFatal(line, decode)
  {
    OpensIff(line);
  }

  /** `lines` are the reports in order, with any noise between, before and after them. */
  predicate Weaves(lines: seq<string>, reports: seq<string>, decode: Decoder, tests: nat) {
    if lines == [] then reports == []
    else
      || (Noise(lines[0], decode, tests) && Weaves(lines[1..], reports, decode, tests))
      || (reports != [] && lines[0] == reports[0] && Weaves(lines[1..], reports[1..], decode, tests))
  }

  /** A line that opens an object which decodes to `r`. */
  predicate Reads(line: string, decode: Decoder, r: Record) {
    OpensObject(line) && decode(Trim(line, IsSpace)) == Some(r)
  }

  lemma ReadsIff(line: string, decode: Decoder, r: Record)
    ensures Reads(line, decode, r) <==> RecordOn(line, decode) == Some(r)
  {
    OpensIff(line);
  }

  /** The i-th line reports on test `first + i`, with nothing fatal. */
  predicate Reports(reports: seq<string>, rs: seq<Record>, decode: Decoder, first: nat, tests: nat) {
    && |reports| == |rs| && first + |rs| <= tests + 1 && first >= 1
    && forall i | 0 <= i < |rs| :: Reads(reports[i], decode, rs[i]) && rs[i].fatal == "" && rs[i].test == first + i
  }

  lemma {:induction false} WovenRecords(
    lines: seq<string>, reports: seq<string>, rs: seq<Record>, decode: Decoder, first: nat, tests: nat)
    requires Weaves(lines, reports, decode, tests) && Reports(reports, rs, decode, first, tests)
    ensures Records(lines, decode, tests) == rs && !HasFatal(lines, decode)
  {
    if lines == [] {
    } else {
      NoiseIff(lines[0], decode, tests);
      assert forall i | 0 <= i < |lines| && IsFatal(lines[i], decode) :: i > 0 ==> IsFatal(lines[1..][i - 1], decode);
      if Noise(lines[0], decode, tests) && Weaves(lines[1..], reports, decode, tests) {
        WovenRecords(lines[1..], reports, rs, decode, first, tests);
        assert !IsFatal(lines[0], decode);
      } else {
        ReadsIff(lines[0], decode, rs[0]);
        WovenRecords(lines[1..], reports[1..], rs[1..], decode, first + 1, tests);
        assert rs == [rs[0]] + rs[1..];
      }
    }
  }

  /** From the stream to the results. If the lines of the error stream are the reports on tests 1 to k, in
      order, amid any noise, a batch run gives one result for each of the n tests: the loop's own on the first
      k, and a failure for the reason found on each of the rest. */
  lemma StreamRefinesLoop(p: Problem, stderr: string, lines: seq<string>, reports: seq<string>, rs: seq<Record>,
                          runs: seq<TestRun>, exit: Exit, decode: Decoder)
    requires LinesOf(lines, stderr) && Weaves(lines, reports, decode, |p.expected|)
    requires Reports(reports, rs, decode, 1, |p.expected|) && |runs| == |p.expected|
    requires SameReports(rs, runs)
    ensures var details := BatchRun(p, stderr, exit, decode);
      && CoversTests(details, |p.expected|)
      && (forall i | 0 <= i < |rs| :: details[i] == Normalize(PerTestResult(p, i, runs[i])))
      && (forall i | |rs| <= i < |p.expected| ::
            !details[i].passed && details[i].error == if RanOutOfTime(exit) then TimeLimitExceeded else RuntimeError)
    ensures |rs| == |p.expected| ==> BatchRun(p, stderr, exit, decode) == LoopDetails(p, runs)
  {
    OnlySplit(lines, stderr);
    WovenRecords(lines, reports, rs, decode, 1, |p.expected|);
    BatchRefinesLoop(p, rs, runs, exit, false);
  }

  /** The runs of the first tests ended with the very reports of the batch, none over-long, and memory is not
      mentioned by a traceback alone. */
  predicate SameReports(rs: seq<Record>, runs: seq<TestRun>) {
    && |rs| <= |runs|
    && forall i | 0 <= i < |rs| ::
         runs[i].Ended? && runs[i].report == Some(rs[i].report)
         && runs[i].stdoutLength <= MAX_TEST_OUTPUT && !OomOnlyInTraceback(rs[i].report)
  }

  /** The same if a fatal record follows the reports, whatever comes after it; and the judge is blamed if the
      process ended well all the same. */
  lemma FatalStreamRefinesLoop(p: Problem, stderr: string, lines: seq<string>, fatal: string, after: seq<string>,
                               last: Record, reports: seq<string>, rs: seq<Record>, runs: seq<TestRun>,
                               exit: Exit, decode: Decoder)
    requires LinesOf(lines + [fatal] + after, stderr) && Weaves(lines, reports, decode, |p.expected|)
    requires Reads(fatal, decode, last) && last.fatal != ""
    requires Reports(reports, rs, decode, 1, |p.expected|) && |runs| == |p.expected|
    requires SameReports(rs, runs)
    ensures var details := BatchRun(p, stderr, exit, decode);
      && CoversTests(details, |p.expected|)
      && (forall i | 0 <= i < |rs| :: details[i] == Normalize(PerTestResult(p, i, runs[i])))
      && (forall i | |rs| <= i < |p.expected| ::
            !details[i].passed && details[i].error == if RanOutOfTime(exit) then TimeLimitExceeded else RuntimeError)
    ensures BatchSummary(p, stderr, exit, decode).internalError == JudgeError <==> exit == Clean
  {
    OnlySplit(lines + [fatal] + after, stderr);
    FatalEndsWoven(lines, fatal, after, last, reports, rs, decode, |p.expected|);
    BatchRefinesLoop(p, rs, runs, exit, true);
  }

  lemma FatalEndsWoven(lines: seq<string>, fatal: string, after: seq<string>, last: Record, reports: seq<string>,
                       rs: seq<Record>, decode: Decoder, tests: nat)
    requires Weaves(lines, reports, decode, tests) && Reports(reports, rs, decode, 1, tests)
    requires Reads(fatal, decode, last) && last.fatal != ""
    ensures Records(lines + [fatal] + after, decode, tests) == rs && HasFatal(lines + [fatal] + after, decode)
  {
    var all := lines + [fatal] + after;
    WovenRecords(lines, reports, rs, decode, 1, tests);
    ReadsIff(fatal, decode, last);
    assert all[|lines|] == fatal && IsFatal(fatal, decode);
    assert all == lines + ([fatal] + after);
    RecordsSplit(lines, [fatal] + after, decode, tests);
    assert rs + [] == rs;
  }
}
