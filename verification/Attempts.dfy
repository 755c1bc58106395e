/** The life of one assessment attempt: every service call as one step on the stored attempt, and what
    all sequences of calls keep. Times are in milliseconds, grace and duration in minutes. */
module Attempts {
  import opened Options

  datatype Status = Active | Submitted | TimedOut

  datatype Challenge = NoChallenge | Raised | Accepted | Rejected

  datatype EventType = TabSwitch | Copy | Paste | FullscreenExit | Return | UnknownEvent

  datatype Event =
    | Start(at: real)
    | AntiCheat(kind: EventType, at: real)
    | ProblemSubmitted(problem: string, at: real)
    | AttemptSubmitted(at: real)
    | AttemptTimedOut(at: real)
    | GraceAdded(added: real, total: real, at: real)
    | ChallengeRaised(at: real)
    | ChallengeResolved(accepted: bool, at: real)

  datatype Attempt = Attempt(
    startedAt: real,
    status: Status,
    submittedAt: Option<real>,
    graceMinutes: real,
    tabSwitches: nat, copies: nat, pastes: nat, fullscreenExits: nat,
    challenge: Challenge,
    timeline: seq<Event>)

  datatype Assessment = Assessment(
    durationMinutes: real, endTime: real, locked: bool, problems: set<string>, allowedLanguages: set<string>)

  /** The caller: whether a student, whether the attempt's own student, and whether the attempt lies
      in the college the caller may see. */
  datatype Caller = Caller(student: bool, owner: bool, inScope: bool)

  // What the caller gets: success, or an error with its HTTP status.
  datatype Reply = Fine | Failure(code: nat)

  const MS_PER_MINUTE := 60000.0

  // -- expiry -------------------------------------------------------------------------------------------

  /** As the assessment service computes it. */
  function ExpirationTime(a: Attempt, s: Assessment): real {
    var grace := a.graceMinutes * MS_PER_MINUTE;
    var relative := a.startedAt + (s.durationMinutes * MS_PER_MINUTE + grace);
    var absolute := s.endTime + grace;
    if relative < absolute then relative else absolute
  }

  /** As the submission service computes it. */
  function AttemptExpiration(a: Attempt, s: Assessment): real {
    var grace := a.graceMinutes * MS_PER_MINUTE;
    Min(a.startedAt + s.durationMinutes * MS_PER_MINUTE + grace, s.endTime + grace)
  }

  function Min(x: real, y: real): real {
    if x < y then x else y
  }

  /** The two formulas agree: the earlier of the two limits, extended by the grace time. */
  lemma ExpiriesAgree(a: Attempt, s: Assessment)
    ensures ExpirationTime(a, s) == AttemptExpiration(a, s)
    ensures ExpirationTime(a, s) ==
            Min(a.startedAt + s.durationMinutes * MS_PER_MINUTE, s.endTime) + a.graceMinutes * MS_PER_MINUTE
  {
  }

  // -- service calls --------------------------------------------------------------------------------------

  function NewAttempt(now: real): Attempt {
    Attempt(now, Active, None, 0.0, 0, 0, 0, 0, NoChallenge, [Start(now)])
  }

  function Logged(a: Attempt, e: Event): Attempt {
    a.(timeline := a.timeline + [e])
  }

  function Count(a: Attempt, kind: EventType): Attempt {
    match kind
    case TabSwitch => a.(tabSwitches := a.tabSwitches + 1)
    case Copy => a.(copies := a.copies + 1)
    case Paste => a.(pastes := a.pastes + 1)
    case FullscreenExit => a.(fullscreenExits := a.fullscreenExits + 1)
    case _ => a
  }

  datatype Call =
    | LogEvent(kind: EventType)
    | View
    | Submit
    | SubmitProblem(problem: string, language: string, linked: bool, created: bool, logged: bool)
    | AddGrace(minutes: real)
    | Raise
    | Resolve(accept: Option<bool>)   // None: a status that is neither Accepted nor Rejected
    | Configure(assessment: Assessment)

  function LogEventCall(a: Attempt, u: Caller, kind: EventType, now: real): (Attempt, Reply) {
    if !u.inScope then (a, Failure(404))
    else if !u.owner then (a, Failure(403))
    else if a.status != Active then (a, Fine)
    else if kind == UnknownEvent then (a, Failure(400))
    else (Count(Logged(a, AntiCheat(kind, now)), kind), Fine)
  }

  function ViewCall(a: Attempt, s: Assessment, u: Caller, now: real): (Attempt, Reply) {
    if !u.inScope then (a, Failure(404))
    else
      var expiry := ExpirationTime(a, s);
      var b := if a.status == Active && now > expiry then a.(status := TimedOut, submittedAt := Some(expiry)) else a;
      (b, if u.student && !u.owner then Failure(403) else Fine)
  }

  function SubmitCall(a: Attempt, s: Assessment, u: Caller, now: real): (Attempt, Reply) {
    if !u.inScope then (a, Failure(404))
    else if u.student && !u.owner then (a, Failure(403))
    else if a.status != Active then (a, Fine)
    else
      var expiry := ExpirationTime(a, s);
      if now > expiry then
        (Logged(a.(status := TimedOut, submittedAt := Some(expiry)), AttemptTimedOut(expiry)), Fine)
      else
        (Logged(a.(status := Submitted, submittedAt := Some(now)), AttemptSubmitted(now)), Fine)
  }

  /** Submitting one problem within an attempt. `linked`: the attempt belongs to the named assessment.
      `created`: quotas, billing and storage let the submission be created once it is valid. `logged`:
      the event then gets onto the timeline; if not, that goes unnoticed. */
  function SubmitProblemCall(a: Attempt, s: Assessment, u: Caller, c: Call, now: real): (Attempt, Reply)
    requires c.SubmitProblem?
  {
    if !u.owner then (a, Failure(403))
    else if !c.linked then (a, Failure(400))
    else if s.locked then (a, Failure(409))
    else if a.status != Active then (a, Failure(409))
    else
      var expiry := AttemptExpiration(a, s);
      if now >= expiry then (a.(status := TimedOut, submittedAt := Some(expiry)), Failure(409))
      else if c.problem !in s.problems then (a, Failure(400))
      else if s.allowedLanguages != {} && c.language !in s.allowedLanguages then (a, Failure(400))
      else if !c.created then (a, Failure(429))
      else (if c.logged then Logged(a, ProblemSubmitted(c.problem, now)) else a, Fine)
  }

  function AddGraceCall(a: Attempt, u: Caller, minutes: real, now: real): (Attempt, Reply) {
    if u.student then (a, Failure(403))
    else if !u.inScope then (a, Failure(404))
    else
      var total := a.graceMinutes + minutes;
      var b := Logged(a.(graceMinutes := total), GraceAdded(minutes, total, now));
      (if a.status == TimedOut then b.(status := Active, submittedAt := None) else b, Fine)
  }

  function RaiseCall(a: Attempt, u: Caller, now: real): (Attempt, Reply) {
    if !u.owner then (a, Failure(403))
    else if a.status == Active then (a, Failure(400))
    else if a.challenge != NoChallenge then (a, Failure(409))
    else (Logged(a.(challenge := Raised), ChallengeRaised(now)), Fine)
  }

  function ResolveCall(a: Attempt, u: Caller, accept: Option<bool>, now: real): (Attempt, Reply) {
    if !u.inScope then (a, Failure(404))
    else if a.challenge != Raised then (a, Failure(400))
    else if accept.None? then (a, Failure(400))
    else (Logged(a.(challenge := if accept.value then Accepted else Rejected), ChallengeResolved(accept.value, now)), Fine)
  }

  // -- runs -------------------------------------------------------------------------------------------------

  /** A submission that was let in, with what was in force at that moment. */
  datatype Admission = Admission(at: real, expiry: real, locked: bool, status: Status, logged: bool)

  datatype World = World(assessment: Assessment, attempt: Attempt, admitted: seq<Admission>)

  datatype Step = Step(caller: Caller, call: Call, now: real)

  function Served(w: World, st: Step): (Attempt, Reply) {
    var a, s, u := w.attempt, w.assessment, st.caller;
    match st.call
    case LogEvent(kind) => LogEventCall(a, u, kind, st.now)
    case View => ViewCall(a, s, u, st.now)
    case Submit => SubmitCall(a, s, u, st.now)
    case SubmitProblem(_, _, _, _, _) => SubmitProblemCall(a, s, u, st.call, st.now)
    case AddGrace(minutes) => AddGraceCall(a, u, minutes, st.now)
    case Raise => RaiseCall(a, u, st.now)
    case Resolve(accept) => ResolveCall(a, u, accept, st.now)
    case Configure(_) => (a, Fine)
  }

  function Next(w: World, st: Step): World {
    var (a, reply) := Served(w, st);
    World(
      if st.call.Configure? then st.call.assessment else w.assessment,
      a,
      if st.call.SubmitProblem? && reply == Fine then
        w.admitted + [Admission(
          st.now, ExpirationTime(w.attempt, w.assessment), w.assessment.locked, w.attempt.status, st.call.logged)]
      else w.admitted)
  }

  function Run(w: World, steps: seq<Step>): World
    decreases |steps|
  {
    if steps == [] then w else Run(Next(w, steps[0]), steps[1..])
  }

  function Begin(s: Assessment, now: real): World {
    World(s, NewAttempt(now), [])
  }

  /** An attempt begins active, at the moment it is started, with nothing on its record but that. */
  lemma BeginsFresh(s: Assessment, now: real)
    ensures var w := Begin(s, now);
      && w.assessment == s && w.admitted == [] && w.attempt.startedAt == now && w.attempt.status == Active
      && w.attempt.submittedAt == None && w.attempt.graceMinutes == 0.0 && w.attempt.challenge == NoChallenge
      && w.attempt.tabSwitches == w.attempt.copies == w.attempt.pastes == w.attempt.fullscreenExits == 0
      && w.attempt.timeline == [Start(now)]
  {
  }

  // -- what each call brings about --------------------------------------------------------------------------

  /** The earlier of the two limits, extended by the grace time. */
  function Deadline(w: World): real {
    var a, s := w.attempt, w.assessment;
    var limit := a.startedAt + s.durationMinutes * MS_PER_MINUTE;
    (if limit < s.endTime then limit else s.endTime) + a.graceMinutes * MS_PER_MINUTE
  }

  function With(w: World, a: Attempt): World {
    World(w.assessment, a, w.admitted)
  }

  function AttemptAfter(w: World, st: Step): Attempt {
    Next(w, st).attempt
  }

  function ReplyTo(w: World, st: Step): Reply {
    Served(w, st).1
  }

  // Staff of the college, or the attempt's own student.
  predicate MayAct(u: Caller) {
    u.inScope && (!u.student || u.owner)
  }

  /** Submitting an active attempt submits it, with its time and event, up to the deadline, and times it out
      at the deadline afterwards. */
  lemma SubmitSubmits(w: World, u: Caller, now: real)
    ensures var a, st, due := w.attempt, Step(u, Submit, now), Deadline(w);
      && (!MayAct(u) || a.status != Active ==> Next(w, st) == w)
      && (MayAct(u) && a.status == Active && now <= due ==> Next(w, st) == With(w, a.(
            status := Submitted, submittedAt := Some(now), timeline := a.timeline + [AttemptSubmitted(now)])))
      && (MayAct(u) && a.status == Active && due < now ==> Next(w, st) == With(w, a.(
            status := TimedOut, submittedAt := Some(due), timeline := a.timeline + [AttemptTimedOut(due)])))
      && (ReplyTo(w, st) == Fine <==> MayAct(u))
  {
    ExpiriesAgree(w.attempt, w.assessment);
  }

  /** Looking at an active attempt after its deadline times it out there, without an event, whoever looks. */
  lemma ViewTimesOut(w: World, u: Caller, now: real)
    ensures var a, st, due := w.attempt, Step(u, View, now), Deadline(w);
      && (u.inScope && a.status == Active && due < now ==>
            Next(w, st) == With(w, a.(status := TimedOut, submittedAt := Some(due))))
      && (!(u.inScope && a.status == Active && due < now) ==> Next(w, st) == w)
      && (ReplyTo(w, st) == Fine <==> MayAct(u))
  {
    ExpiriesAgree(w.attempt, w.assessment);
  }

  // What must hold for a problem to be let in, but for the time.
  predicate Fits(w: World, u: Caller, c: Call)
    requires c.SubmitProblem?
  {
    u.owner && c.linked && !w.assessment.locked && w.attempt.status == Active
  }

  predicate Offered(w: World, c: Call)
    requires c.SubmitProblem?
  {
    c.problem in w.assessment.problems
    && (w.assessment.allowedLanguages == {} || c.language in w.assessment.allowedLanguages) && c.created
  }

  /** A problem is let in exactly before the deadline, for the owner of an active attempt that is not locked,
      if it is offered; at the deadline and after it the attempt times out. */
  lemma SubmitProblemAdmits(w: World, u: Caller, c: Call, now: real)
    requires c.SubmitProblem?
    ensures var a, st, due := w.attempt, Step(u, c, now), Deadline(w);
      && (!Fits(w, u, c) ==> Next(w, st) == w)
      && (Fits(w, u, c) && due <= now ==> Next(w, st) == With(w, a.(status := TimedOut, submittedAt := Some(due))))
      && (Fits(w, u, c) && now < due && !Offered(w, c) ==> Next(w, st) == w)
      && (Fits(w, u, c) && now < due && Offered(w, c) ==>
            && Next(w, st).admitted == w.admitted + [Admission(now, due, false, Active, c.logged)]
            && AttemptAfter(w, st) == a.(
                 timeline := if c.logged then a.timeline + [ProblemSubmitted(c.problem, now)] else a.timeline))
      && (ReplyTo(w, st) == Fine <==> Fits(w, u, c) && now < due && Offered(w, c))
  {
    ExpiriesAgree(w.attempt, w.assessment);
  }

  /** Staff of the college add grace time, which is recorded, and reopens a timed-out attempt. */
  lemma GraceIsAdded(w: World, u: Caller, minutes: real, now: real)
    ensures var a, st := w.attempt, Step(u, AddGrace(minutes), now);
      && (u.student || !u.inScope ==> Next(w, st) == w)
      && (!u.student && u.inScope ==>
            var total := a.graceMinutes + minutes;
            var b := AttemptAfter(w, st);
            && b == a.(graceMinutes := total, status := b.status, submittedAt := b.submittedAt,
                       timeline := a.timeline + [GraceAdded(minutes, total, now)])
            && (a.status == TimedOut ==> b.status == Active && b.submittedAt == None)
            && (a.status != TimedOut ==> b.status == a.status && b.submittedAt == a.submittedAt))
      && (ReplyTo(w, st) == Fine <==> !u.student && u.inScope)
  {
  }

  /** The attempt's own student raises the one challenge there can be, once the attempt is not active. */
  lemma ChallengeIsRaised(w: World, u: Caller, now: real)
    ensures var a, st := w.attempt, Step(u, Raise, now);
      var may := u.owner && a.status != Active && a.challenge == NoChallenge;
      && (!may ==> Next(w, st) == w)
      && (may ==> Next(w, st) == With(w, a.(challenge := Raised, timeline := a.timeline + [ChallengeRaised(now)])))
      && (ReplyTo(w, st) == Fine <==> may)
  {
  }

  /** A raised challenge becomes what it is resolved as, and only that. */
  lemma ChallengeIsResolved(w: World, u: Caller, accept: Option<bool>, now: real)
    ensures var a, st := w.attempt, Step(u, Resolve(accept), now);
      var may := u.inScope && a.challenge == Raised && accept != None;
      && (!may ==> Next(w, st) == w)
      && (may && accept == Some(true) ==> Next(w, st) == With(w, a.(
            challenge := Accepted, timeline := a.timeline + [ChallengeResolved(true, now)])))
      && (may && accept == Some(false) ==> Next(w, st) == With(w, a.(
            challenge := Rejected, timeline := a.timeline + [ChallengeResolved(false, now)])))
      && (ReplyTo(w, st) == Fine <==> may)
  {
  }

  /** An event is put onto the timeline of an active attempt, and raises its own counter by one. */
  lemma EventIsLogged(w: World, u: Caller, kind: EventType, now: real)
    ensures var a, st := w.attempt, Step(u, LogEvent(kind), now);
      var b := AttemptAfter(w, st);
      var may := u.inScope && u.owner && a.status == Active && kind != UnknownEvent;
      && (!may ==> Next(w, st) == w)
      && (may ==>
            && b == a.(timeline := a.timeline + [AntiCheat(kind, now)], tabSwitches := b.tabSwitches,
                       copies := b.copies, pastes := b.pastes, fullscreenExits := b.fullscreenExits)
            && b.tabSwitches == a.tabSwitches + (if kind == TabSwitch then 1 else 0)
            && b.copies == a.copies + (if kind == Copy then 1 else 0)
            && b.pastes == a.pastes + (if kind == Paste then 1 else 0)
            && b.fullscreenExits == a.fullscreenExits + if kind == FullscreenExit then 1 else 0)
      && (ReplyTo(w, st) == Fine <==> u.inScope && u.owner && (a.status == Active ==> kind != UnknownEvent))
  {
  }

  /** Why a call is refused: 404 out of scope, 403 for whom it is not, and otherwise the state of things. */
  lemma RefusalsSayWhy(w: World, st: Step)
    ensures var a, u, r := w.attempt, st.caller, ReplyTo(w, st);
      match st.call
      case LogEvent(kind) =>
        && (r == Failure(404) <==> !u.inScope) && (r == Failure(403) <==> u.inScope && !u.owner)
        && (r == Failure(400) <==> u.inScope && u.owner && a.status == Active && kind == UnknownEvent)
      case View => (r == Failure(404) <==> !u.inScope) && (r == Failure(403) <==> u.inScope && u.student && !u.owner)
      case Submit => (r == Failure(404) <==> !u.inScope) && (r == Failure(403) <==> u.inScope && u.student && !u.owner)
      case SubmitProblem(_, _, linked, _, _) =>
        && (r == Failure(403) <==> !u.owner)
        && (r == Failure(409) <==> u.owner && linked && (!Fits(w, u, st.call) || Deadline(w) <= st.now))
      case AddGrace(_) => (r == Failure(403) <==> u.student) && (r == Failure(404) <==> !u.student && !u.inScope)
      case Raise =>
        && (r == Failure(403) <==> !u.owner) && (r == Failure(400) <==> u.owner && a.status == Active)
        && (r == Failure(409) <==> u.owner && a.status != Active && a.challenge != NoChallenge)
      case Resolve(accept) =>
        && (r == Failure(404) <==> !u.inScope)
        && (r == Failure(400) <==> u.inScope && (a.challenge != Raised || accept == None))
      case Configure(_) => r == Fine
  {
    ExpiriesAgree(w.attempt, w.assessment);
  }

  lemma ConfiguringKeepsAttempt(w: World, u: Caller, s: Assessment, now: real)
    ensures Next(w, Step(u, Configure(s), now)) == World(s, w.attempt, w.admitted)
  {
  }

  // -- the record mirrors the timeline ----------------------------------------------------------------------

  /** What the events of a timeline add up to. */
  datatype Recount = Recount(
    tabSwitches: nat, copies: nat, pastes: nat, fullscreenExits: nat, grace: real,
    problems: nat, submits: nat, raises: nat, resolves: nat)

  function Counted(r: Recount, e: Event): Recount {
    match e
    case AntiCheat(TabSwitch, _) => r.(tabSwitches := r.tabSwitches + 1)
    case AntiCheat(Copy, _) => r.(copies := r.copies + 1)
    case AntiCheat(Paste, _) => r.(pastes := r.pastes + 1)
    case AntiCheat(FullscreenExit, _) => r.(fullscreenExits := r.fullscreenExits + 1)
    case GraceAdded(added, _, _) => r.(grace := r.grace + added)
    case ProblemSubmitted(_, _) => r.(problems := r.problems + 1)
    case AttemptSubmitted(_) => r.(submits := r.submits + 1)
    case ChallengeRaised(_) => r.(raises := r.raises + 1)
    case ChallengeResolved(_, _) => r.(resolves := r.resolves + 1)
    case _ => r
  }

  function Replay(timeline: seq<Event>): Recount {
    if timeline == [] then Recount(0, 0, 0, 0, 0.0, 0, 0, 0, 0)
    else Counted(Replay(timeline[..|timeline| - 1]), timeline[|timeline| - 1])
  }

  lemma Append(t: seq<Event>, e: Event)
    ensures Replay(t + [e]) == Counted(Replay(t), e)
  {
    assert (t + [e])[..|t + [e]| - 1] == t;
  }

  /** Counters count their events, grace is the sum of what was added, and the state of submission and
      challenge is the one the timeline tells: `r` is what the timeline adds up to. */
  predicate Agrees(a: Attempt, r: Recount) {
    && a.tabSwitches == r.tabSwitches && a.copies == r.copies && a.pastes == r.pastes
    && a.fullscreenExits == r.fullscreenExits && a.graceMinutes == r.grace
    && r.submits == (if a.status == Submitted then 1 else 0)
    && r.raises == (if a.challenge == NoChallenge then 0 else 1)
    && r.resolves == (if a.challenge == Accepted || a.challenge == Rejected then 1 else 0)
  }

  predicate Mirrors(a: Attempt) {
    Agrees(a, Replay(a.timeline))
  }

  predicate Consistent(w: World) {
    Mirrors(w.attempt) && OpenIffActive(w.attempt) && AdmissionsOk(w)
  }

  predicate OpenIffActive(a: Attempt) {
    a.status == Active <==> a.submittedAt == None
  }

  function CountLogged(admitted: seq<Admission>): nat {
    if admitted == [] then 0
    else CountLogged(admitted[..|admitted| - 1]) + if admitted[|admitted| - 1].logged then 1 else 0
  }

  /** The timeline shows as many problems as were let in and logged; each was let in before the expiry in
      force, unlocked and active. */
  predicate AdmissionsOk(w: World) {
    && Replay(w.attempt.timeline).problems == CountLogged(w.admitted)
    && forall i | 0 <= i < |w.admitted| :: Sound(w.admitted[i])
  }

  /** `b` follows from `a` by at most one appended event, and still agrees with the recount. */
  predicate Follows(a: Attempt, b: Attempt, r: Recount) {
    if b.timeline == a.timeline then Agrees(b, r)
    else
      && |b.timeline| == |a.timeline| + 1 && b.timeline[..|a.timeline|] == a.timeline
      && Agrees(b, Counted(r, b.timeline[|a.timeline|]))
  }

  lemma LogEventFollows(a: Attempt, u: Caller, kind: EventType, now: real, r: Recount)
    requires Agrees(a, r)
    ensures Follows(a, LogEventCall(a, u, kind, now).0, r)
  {
  }

  lemma SubmitFollows(a: Attempt, s: Assessment, u: Caller, now: real, r: Recount)
    requires Agrees(a, r)
    ensures Follows(a, SubmitCall(a, s, u, now).0, r)
    ensures Follows(a, ViewCall(a, s, u, now).0, r)
  {
  }

  lemma SubmitProblemFollows(a: Attempt, s: Assessment, u: Caller, c: Call, now: real, r: Recount)
    requires Agrees(a, r) && c.SubmitProblem?
    ensures Follows(a, SubmitProblemCall(a, s, u, c, now).0, r)
  {
  }

  lemma StaffCallsFollow(a: Attempt, u: Caller, minutes: real, accept: Option<bool>, now: real, r: Recount)
    requires Agrees(a, r)
    ensures Follows(a, AddGraceCall(a, u, minutes, now).0, r)
    ensures Follows(a, RaiseCall(a, u, now).0, r)
    ensures Follows(a, ResolveCall(a, u, accept, now).0, r)
  {
  }

  lemma FollowingKeepsMirror(a: Attempt, b: Attempt)
    requires Follows(a, b, Replay(a.timeline))
    ensures Mirrors(b)
  {
    if b.timeline != a.timeline {
      assert b.timeline == a.timeline + [b.timeline[|a.timeline|]];
      Append(a.timeline, b.timeline[|a.timeline|]);
    }
  }

  lemma CallKeepsMirror(w: World, st: Step)
    requires Mirrors(w.attempt)
    ensures Mirrors(Served(w, st).0)
  {
    var a, s, u, r := w.attempt, w.assessment, st.caller, Replay(w.attempt.timeline);
    match st.call {
      case LogEvent(kind) => LogEventFollows(a, u, kind, st.now, r);
      case View => SubmitFollows(a, s, u, st.now, r);
      case Submit => SubmitFollows(a, s, u, st.now, r);
      case SubmitProblem(_, _, _, _, _) => SubmitProblemFollows(a, s, u, st.call, st.now, r);
      case AddGrace(minutes) => StaffCallsFollow(a, u, minutes, None, st.now, r);
      case Raise => StaffCallsFollow(a, u, 0.0, None, st.now, r);
      case Resolve(accept) => StaffCallsFollow(a, u, 0.0, accept, st.now, r);
      case Configure(_) =>
    }
    assert Follows(a, Served(w, st).0, r);
    FollowingKeepsMirror(a, Served(w, st).0);
  }

  lemma CallKeepsOpenIffActive(w: World, st: Step)
    requires OpenIffActive(w.attempt)
    ensures OpenIffActive(Next(w, st).attempt)
  {
  }

  /** At most one event more, and at most one admission more, a sound one; and the event is a problem's
      exactly when there is an admission and it was logged. */
  predicate Extends(w: World, t: World) {
    var before, after := w.attempt.timeline, t.attempt.timeline;
    && (after == before || (|after| == |before| + 1 && after == before + [after[|before|]]))
    && (t.admitted == w.admitted ||
        (|t.admitted| == |w.admitted| + 1 && t.admitted == w.admitted + [t.admitted[|w.admitted|]]
         && Sound(t.admitted[|w.admitted|])))
    && ((after != before && after[|before|].ProblemSubmitted?) <==> (t.admitted != w.admitted && t.admitted[|w.admitted|].logged))
  }

  predicate Sound(a: Admission) {
    a.at < a.expiry && !a.locked && a.status == Active
  }

  lemma CountAppends(admitted: seq<Admission>, a: Admission)
    ensures CountLogged(admitted + [a]) == CountLogged(admitted) + if a.logged then 1 else 0
  {
    assert (admitted + [a])[..|admitted + [a]| - 1] == admitted;
  }

  lemma ProblemsGrow(timeline: seq<Event>, e: Event)
    ensures Replay(timeline + [e]).problems == Replay(timeline).problems + if e.ProblemSubmitted? then 1 else 0
  {
    Append(timeline, e);
  }

  lemma ExtendingKeepsCount(w: World, t: World)
    requires Replay(w.attempt.timeline).problems == CountLogged(w.admitted) && Extends(w, t)
    ensures Replay(t.attempt.timeline).problems == CountLogged(t.admitted)
  {
    var before, after := w.attempt.timeline, t.attempt.timeline;
    if after != before {
      ProblemsGrow(before, after[|before|]);
    }
    if t.admitted != w.admitted {
      CountAppends(w.admitted, t.admitted[|w.admitted|]);
    }
  }

  lemma ExtendingKeepsAdmissions(w: World, t: World)
    requires AdmissionsOk(w) && Extends(w, t)
    ensures AdmissionsOk(t)
  {
    ExtendingKeepsCount(w, t);
  }

  // What is let in is so before the expiry, unlocked and active.
  lemma CallAdmits(w: World, st: Step)
    ensures var t, n := Next(w, st), |w.admitted|;
      if !st.call.SubmitProblem? || Served(w, st).1 != Fine then t.admitted == w.admitted
      else
        && |t.admitted| == n + 1 && t.admitted == w.admitted + [t.admitted[n]]
        && Sound(t.admitted[n]) && t.admitted[n].logged == st.call.logged
  {
    ExpiriesAgree(w.attempt, w.assessment);
  }

  lemma CallExtends(w: World, st: Step)
    ensures Extends(w, Next(w, st))
  {
    CallAppends(w, st);
    CallAdmits(w, st);
  }

  lemma CallKeepsAdmissions(w: World, st: Step)
    requires AdmissionsOk(w)
    ensures AdmissionsOk(Next(w, st))
  {
    CallExtends(w, st);
    ExtendingKeepsAdmissions(w, Next(w, st));
  }

  // A call appends nothing or one event, a problem's exactly when one was let in and logged.
  lemma CallAppends(w: World, st: Step)
    ensures var a, b, let := w.attempt, Served(w, st).0, st.call.SubmitProblem? && Served(w, st).1 == Fine && st.call.logged;
      if b.timeline == a.timeline then !let
      else |b.timeline| == |a.timeline| + 1 && b.timeline == a.timeline + [b.timeline[|a.timeline|]]
           && (b.timeline[|a.timeline|].ProblemSubmitted? <==> let)
  {
  }

  lemma StepKeepsConsistent(w: World, st: Step)
    requires Consistent(w)
    ensures Consistent(Next(w, st))
  {
    CallKeepsMirror(w, st);
    CallKeepsOpenIffActive(w, st);
    CallKeepsAdmissions(w, st);
  }

  lemma {:induction false} RunKeepsConsistent(w: World, steps: seq<Step>)
    requires Consistent(w)
    ensures Consistent(Run(w, steps))
    decreases |steps|
  {
    if steps == [] {
    } else {
      StepKeepsConsistent(w, steps[0]);
      RunKeepsConsistent(Next(w, steps[0]), steps[1..]);
    }
  }

  /** From the start of an attempt, whoever calls what and when: the record mirrors its timeline, it is
      active exactly while it has no submission time, and nothing was ever let in at or after the
      expiry in force, while locked, or while not active. */
  lemma EveryRunIsConsistent(s: Assessment, now: real, steps: seq<Step>)
    ensures Consistent(Run(Begin(s, now), steps))
  {
    var a := NewAttempt(now);
    Append([], Start(now));
    assert [] + [Start(now)] == a.timeline;
    RunKeepsConsistent(Begin(s, now), steps);
  }

  /** The timeline only grows, and the counters with it. */
  lemma {:induction false} TimelineIsAppendOnly(w: World, steps: seq<Step>)
    ensures w.attempt.timeline <= Run(w, steps).attempt.timeline
    ensures w.admitted <= Run(w, steps).admitted
    decreases |steps|
  {
    if steps == [] {
    } else {
      CallAppends(w, steps[0]);
      CallAdmits(w, steps[0]);
      TimelineIsAppendOnly(Next(w, steps[0]), steps[1..]);
    }
  }

  // -- where an attempt can go ------------------------------------------------------------------------------

  /** Once submitted, an attempt stays submitted at the same time, and lets nothing more in. */
  lemma {:induction false} SubmittedIsFinal(w: World, steps: seq<Step>)
    requires w.attempt.status == Submitted
    ensures var v := Run(w, steps);
            v.attempt.status == Submitted && v.attempt.submittedAt == w.attempt.submittedAt && v.admitted == w.admitted
    decreases |steps|
  {
    if steps == [] {
    } else {
      SubmittedIsFinal(Next(w, steps[0]), steps[1..]);
    }
  }

  /** Someone who may submits an active attempt in time. */
  predicate SubmitsInTime(w: World, st: Step) {
    st.call.Submit? && MayAct(st.caller) && w.attempt.status == Active && st.now <= Deadline(w)
  }

  lemma StepSubmitsIff(w: World, st: Step)
    ensures Next(w, st).attempt.status == Submitted <==> w.attempt.status == Submitted || SubmitsInTime(w, st)
  {
    if st.call.Submit? {
      SubmitSubmits(w, st.caller, st.now);
    }
  }

  /** Some step of the run was such a submission. */
  ghost predicate SomeSubmits(w: World, steps: seq<Step>) {
    exists k :: 0 <= k < |steps| && SubmitsInTime(Run(w, steps[..k]), steps[k])
  }

  /** Over a whole run, an attempt that was not submitted is so exactly when someone who may submitted it, while
      it was active and before its deadline. */
  lemma {:induction false} SubmittedIffSubmits(w: World, steps: seq<Step>)
    ensures Run(w, steps).attempt.status == Submitted <==> w.attempt.status == Submitted || SomeSubmits(w, steps)
    decreases |steps|
  {
    if steps == [] {
    } else {
      StepSubmitsIff(w, steps[0]);
      SubmittedIffSubmits(Next(w, steps[0]), steps[1..]);
      SomeSubmitsUnrolls(w, steps);
    }
  }

  lemma SomeSubmitsUnrolls(w: World, steps: seq<Step>)
    requires steps != []
    ensures SomeSubmits(w, steps) <==> SubmitsInTime(w, steps[0]) || SomeSubmits(Next(w, steps[0]), steps[1..])
  {
    var v, rest := Next(w, steps[0]), steps[1..];
    assert steps[..0] == [];
    forall k | 0 < k < |steps| ensures Run(w, steps[..k]) == Run(v, rest[..k - 1]) && rest[k - 1] == steps[k] {
      assert steps[..k][1..] == rest[..k - 1];
    }
    if k :| 0 <= k < |rest| && SubmitsInTime(Run(v, rest[..k]), rest[k]) {
      assert SubmitsInTime(Run(w, steps[..k + 1]), steps[k + 1]);
    }
    if SubmitsInTime(w, steps[0]) {
      assert SubmitsInTime(Run(w, steps[..0]), steps[0]);
    }
  }

  predicate GivesGrace(st: Step) {
    st.call.AddGrace? && !st.caller.student && st.caller.inScope
  }

  /** A timed-out attempt becomes active again through granted grace time, and in no other way. */
  lemma TimedOutIsLeftByGraceOnly(w: World, st: Step)
    requires w.attempt.status == TimedOut
    ensures Next(w, st).attempt.status == if GivesGrace(st) then Active else TimedOut
  {
  }

  lemma {:induction false} TimedOutLastsWithoutGrace(w: World, steps: seq<Step>)
    requires w.attempt.status == TimedOut && forall i | 0 <= i < |steps| :: !GivesGrace(steps[i])
    ensures var v := Run(w, steps);
            v.attempt.status == TimedOut && v.attempt.submittedAt == w.attempt.submittedAt && v.admitted == w.admitted
    decreases |steps|
  {
    if steps == [] {
    } else {
      TimedOutLastsWithoutGrace(Next(w, steps[0]), steps[1..]);
    }
  }

  function Stage(c: Challenge): nat {
    match c
    case NoChallenge => 0
    case Raised => 1
    case _ => 2
  }

  lemma ChallengeStep(w: World, st: Step)
    ensures var before, after := w.attempt.challenge, Next(w, st).attempt.challenge;
      Stage(before) <= Stage(after) && (Stage(before) == 2 ==> after == before)
  {
  }

  /** A challenge goes from none to raised to its resolution, which is never changed again. */
  lemma {:induction false} ChallengeOnlyAdvances(w: World, steps: seq<Step>)
    ensures var v := Run(w, steps);
            && Stage(w.attempt.challenge) <= Stage(v.attempt.challenge)
            && (Stage(w.attempt.challenge) == 2 ==> v.attempt.challenge == w.attempt.challenge)
    decreases |steps|
  {
    if steps == [] {
    } else {
      ChallengeStep(w, steps[0]);
      ChallengeOnlyAdvances(Next(w, steps[0]), steps[1..]);
    }
  }

  lemma ChallengeMovesOneStage(w: World, st: Step)
    ensures Stage(Next(w, st).attempt.challenge) <= Stage(w.attempt.challenge) + 1
  {
  }

  predicate ChallengedOnlyWhenOver(a: Attempt) {
    a.challenge != NoChallenge ==> a.status != Active
  }

  /** A challenge is raised on attempts that are over, but the attempt does not stay over: the rule is
      broken by a step exactly when grace time is granted to a challenged attempt that had timed out. */
  lemma ChallengeRuleBreaksIff(w: World, st: Step)
    requires ChallengedOnlyWhenOver(w.attempt)
    ensures !ChallengedOnlyWhenOver(Next(w, st).attempt) <==>
            GivesGrace(st) && w.attempt.status == TimedOut && w.attempt.challenge != NoChallenge
  {
  }

  /** On every attempt that can happen: it runs out of time, is challenged, and is given more time. */
  lemma ChallengedYetActive(s: Assessment, began: real, student: Caller, staff: Caller) returns (steps: seq<Step>)
    requires student.owner && student.inScope && !staff.student && staff.inScope
    ensures var a := Run(Begin(s, began), steps).attempt; a.status == Active && a.challenge == Raised
  {
    var w := Begin(s, began);
    var late := ExpirationTime(w.attempt, s) + 1.0;
    var view, rise, grace := Step(student, View, late), Step(student, Raise, late), Step(staff, AddGrace(5.0), late);
    steps := [view, rise, grace];
    assert steps[1..] == [rise, grace] && [rise, grace][1..] == [grace] && [grace][1..] == [];
    var v := Next(w, view);
    assert v.attempt.status == TimedOut && Run(w, steps) == Run(v, [rise, grace]);
    var u := Next(v, rise);
    assert Run(v, [rise, grace]) == Run(u, [grace]) == Run(Next(u, grace), []);
  }

  // -- time -------------------------------------------------------------------------------------------------

  /** Granting g minutes moves the expiry by exactly g minutes, whatever the attempt's status. */
  lemma GraceMovesExpiry(w: World, st: Step)
    requires GivesGrace(st)
    ensures ExpirationTime(Next(w, st).attempt, w.assessment) ==
            ExpirationTime(w.attempt, w.assessment) + st.call.minutes * MS_PER_MINUTE
  {
    ExpiriesAgree(w.attempt, w.assessment);
    ExpiriesAgree(Next(w, st).attempt, w.assessment);
  }

  function TotalGrace(steps: seq<Step>): real {
    if steps == [] then 0.0 else (if GivesGrace(steps[0]) then steps[0].call.minutes else 0.0) + TotalGrace(steps[1..])
  }

  lemma StepMovesExpiry(w: World, st: Step)
    requires !st.call.Configure?
    ensures Next(w, st).assessment == w.assessment
    ensures ExpirationTime(Next(w, st).attempt, w.assessment) ==
            ExpirationTime(w.attempt, w.assessment) + (if GivesGrace(st) then st.call.minutes else 0.0) * MS_PER_MINUTE
  {
    ExpiriesAgree(w.attempt, w.assessment);
    ExpiriesAgree(Next(w, st).attempt, w.assessment);
  }

  /** Over a whole run that leaves the assessment alone, the expiry moves by all the grace granted. */
  lemma {:induction false} ExpiryMovesByTotalGrace(w: World, steps: seq<Step>)
    requires forall i | 0 <= i < |steps| :: !steps[i].call.Configure?
    ensures ExpirationTime(Run(w, steps).attempt, w.assessment) ==
            ExpirationTime(w.attempt, w.assessment) + TotalGrace(steps) * MS_PER_MINUTE
    ensures Run(w, steps).assessment == w.assessment
    decreases |steps|
  {
    if steps == [] {
    } else {
      StepMovesExpiry(w, steps[0]);
      ExpiryMovesByTotalGrace(Next(w, steps[0]), steps[1..]);
    }
  }

  /** The two services disagree about one instant: at exactly the expiry the attempt may still be
      submitted, while a problem may not, and trying to submits nothing and times the attempt out. */
  lemma ServicesDisagreeAtExpiryOnly(w: World, u: Caller, problem: string, language: string, now: real)
    requires w.attempt.status == Active && !w.assessment.locked && u.owner && u.inScope
    ensures var whole := Next(w, Step(u, Submit, now)).attempt.status == TimedOut;
            var part := Next(w, Step(u, SubmitProblem(problem, language, true, true, true), now)).attempt.status == TimedOut;
            whole != part <==> now == ExpirationTime(w.attempt, w.assessment)
  {
    ExpiriesAgree(w.attempt, w.assessment);
  }
}
