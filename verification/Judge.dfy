/** The submission workers as a state machine: the main and retry queues, the worker and request
    slots of one judge process, and its container pool. Every interleaving of steps is a run. */
module Judge {
  import opened Options
  import opened Discard

  // What a message's body says and no retry changes: the submission's id, the problem's id, and whether
  // the body decodes to a valid message at all.
  datatype Submission = Submission(id: string, problem: string, decodes: bool)

  type Container = nat

  /** Only a submission whose id is one of the database's can be stored. */
  predicate IsObjectId(id: string) {
    |id| == 24 && forall i | 0 <= i < 24 :: '0' <= id[i] <= '9' || 'a' <= id[i] <= 'f' || 'A' <= id[i] <= 'F'
  }

  // The part of a queued message the protocol depends on.
  datatype Message = Message(sub: Submission, retryCount: nat)

  datatype Phase =
    | Idle
    | Received(m: Message)                             // delivered, not yet acknowledged
    | Loaded(m: Message)                               // its problem has been fetched
    | Starved(m: Message)                              // no container in time
    | Marked(m: Message)                               // failure recorded, ack outstanding
    | Republished(m: Message)                          // copy in the retry queue, ack outstanding
    | Leased(m: Message, c: Container, discard: bool)  // holding a container
    | Stored(m: Message, c: Container, discard: bool)  // store attempted, ack outstanding
    | Settled(c: Container, discard: bool)             // delivery settled, container still held
    | Serving(c: Container, discard: bool)             // an HTTP request holding a container

  datatype Pool = Pool(
    available: set<Container>,
    inUse: set<Container>,
    removed: set<Container>,
    created: nat,                       // containers are numbered in the order of their creation
    uses: map<Container, nat>,          // ExecutionCount
    tainted: set<Container>,            // had a poisonous outcome since last handed out
    missed: set<Container>)             // had one in the blind spots

  /** What has happened to submissions and leases so far; the code keeps no such record. */
  datatype History = History(
    published: set<Submission>,
    attempted: set<Submission>,         // a store or a mark-failed reached the database
    acked: set<Submission>,             // acknowledged for good
    rejected: set<Submission>,
    granted: multiset<Container>,        // leases handed out
    ended: multiset<Container>,        // leases ended by a Release or a Discard
    abandoned: multiset<Container>)     // leases lost in a crash of the process

  /** `unfetchable` holds the ids whose problem cannot be fetched even from a database that is up: an id that
      is none of the database's, one whose problem does not exist or no longer, and one whose document does
      not decode. An edit could repair a document of the last kind; here none does. */
  datatype State = State(
    main: seq<Message>, retry: seq<Message>, slots: seq<Phase>, pool: Pool, hist: History, unfetchable: set<string>)

  /** Slots below `workers` consume the queue, the others serve HTTP requests. */
  datatype Config = Config(workers: nat, maxRetries: nat, maxExecutions: nat)

  datatype Step =
    | Publish(sub: Submission)
    | Deliver(w: nat, i: nat)
    | SpoilProblem(id: string)                    // deleted, or edited into a document that does not decode
    | Load(w: nat)                                // the problem is fetched
    | Reject(w: nat)                              // undecodable, or invalid problem, language or type
    | DatabaseDown(w: nat, at: nat)
    | FetchFails(w: nat, at: nat)
    | Acquire(w: nat, c: Container)
    | Starve(w: nat)
    | MarkFailed(w: nat)
    | Republish(w: nat, at: nat, marshalled: bool)
    | PublishFails(w: nat, at: nat)
    | Store(w: nat, o: Outcome)                   // run, then attempt to store the result
    | RunRejected(w: nat, o: Outcome)             // run or preparation failed for good
    | WorkspaceFails(w: nat, at: nat)
    | Ack(w: nat)
    | Finish(w: nat, cleanupFailed: bool, replaced: bool)
    | RetryExpires(i: nat, at: nat)
    | HttpAcquire(w: nat, c: Container)
    | HttpRun(w: nat, o: Outcome)
    | PoolGrows
    | PoolShrinks(c: Container)
    | Crash

  // -- queues ---------------------------------------------------------------------------------------

  function InsertAt(q: seq<Message>, at: nat, m: Message): (r: seq<Message>)
    requires at <= |q|
    ensures forall x :: x in r <==> x in q || x == m
  {
    q[..at] + [m] + q[at..]
  }

  function RemoveAt(q: seq<Message>, i: nat): (r: seq<Message>)
    requires i < |q|
    ensures forall x | x in r :: x in q
    ensures forall x | x in q :: x in r || x == q[i]
  {
    q[..i] + q[i + 1..]
  }

  // -- phases ---------------------------------------------------------------------------------------

  predicate HasMessage(p: Phase) {
    p.Received? || p.Loaded? || p.Starved? || p.Marked? || p.Republished? || p.Leased? || p.Stored?
  }

  predicate HasContainer(p: Phase) {
    p.Leased? || p.Stored? || p.Settled? || p.Serving?
  }

  /** Deliveries not yet acknowledged; the broker returns them to the queue when the process dies. */
  function Unacknowledged(slots: seq<Phase>): (ms: seq<Message>) {
    if slots == [] then []
    else if HasMessage(slots[0]) then [slots[0].m] + Unacknowledged(slots[1..])
    else Unacknowledged(slots[1..])
  }

  // -- steps ----------------------------------------------------------------------------------------

  /** A message that decodes and names a problem that cannot be fetched. */
  predicate Doomed(s: State, sub: Submission) {
    sub.decodes && sub.problem in s.unfetchable
  }

  predicate Enabled(cfg: Config, s: State, step: Step) {
    match step
    case Publish(sub) => sub !in s.hist.published
    case Deliver(w, i) => w < cfg.workers && w < |s.slots| && s.slots[w].Idle? && i < |s.main|
    case SpoilProblem(id) => true
    case Load(w) =>
      w < |s.slots| && s.slots[w].Received? && s.slots[w].m.sub.decodes && s.slots[w].m.sub.problem !in s.unfetchable
    case Reject(w) =>
      w < |s.slots| && (s.slots[w].Loaded? || (s.slots[w].Received? && !s.slots[w].m.sub.decodes))
    case DatabaseDown(w, at) => w < |s.slots| && s.slots[w].Received? && s.slots[w].m.sub.decodes && at <= |s.main|
    case FetchFails(w, at) => w < |s.slots| && s.slots[w].Received? && Doomed(s, s.slots[w].m.sub) && at <= |s.main|
    case Acquire(w, c) => w < |s.slots| && s.slots[w].Loaded? && c in s.pool.available && c in s.pool.uses
    case Starve(w) => w < |s.slots| && s.slots[w].Loaded?
    case MarkFailed(w) => w < |s.slots| && s.slots[w].Starved? && s.slots[w].m.retryCount >= cfg.maxRetries
    case Republish(w, at, _) =>
      w < |s.slots| && s.slots[w].Starved? && s.slots[w].m.retryCount < cfg.maxRetries && at <= |s.retry|
    case PublishFails(w, at) =>
      w < |s.slots| && s.slots[w].Starved? && s.slots[w].m.retryCount < cfg.maxRetries && at <= |s.main|
    case Store(w, o) => w < |s.slots| && s.slots[w].Leased? && !(o.Central? && o.run.NotSetUp?)
    case RunRejected(w, _) => w < |s.slots| && s.slots[w].Leased?
    case WorkspaceFails(w, at) => w < |s.slots| && s.slots[w].Leased? && at <= |s.main|
    case Ack(w) => w < |s.slots| && (s.slots[w].Marked? || s.slots[w].Republished? || s.slots[w].Stored?)
    case Finish(w, _, _) => w < |s.slots| && (s.slots[w].Settled? || s.slots[w].Serving?)
    case RetryExpires(i, at) => i < |s.retry| && at <= |s.main|
    case HttpAcquire(w, c) => cfg.workers <= w < |s.slots| && s.slots[w].Idle? && c in s.pool.available
    case HttpRun(w, _) => w < |s.slots| && s.slots[w].Serving?
    case PoolGrows => true
    case PoolShrinks(c) => c in s.pool.available
    case Crash => true
  }

  function Open(h: History, c: Container): History {
    h.(granted := h.granted + multiset{c})
  }

  /** The pool after handing out `c`; the record of its last use starts afresh. */
  function TakeOut(p: Pool, c: Container, counted: bool): Pool {
    p.(available := p.available - {c}, inUse := p.inUse + {c}, tainted := p.tainted - {c}, missed := p.missed - {c},
       uses := if counted && c in p.uses then p.uses[c := p.uses[c] + 1] else p.uses)
  }

  function NoteUse(p: Pool, c: Container, o: Outcome): Pool {
    if !Poisonous(o) then p
    else if Overlooked(o) then p.(tainted := p.tainted + {c}, missed := p.missed + {c})
    else p.(tainted := p.tainted + {c})
  }

  function AddFresh(p: Pool): Pool {
    p.(available := p.available + {p.created}, uses := p.uses[p.created := 0], created := p.created + 1)
  }

  /** Release, or Discard with an attempt to create a replacement. */
  function GiveBack(p: Pool, c: Container, discard: bool, replaced: bool): Pool {
    if !discard then p.(inUse := p.inUse - {c}, available := p.available + {c})
    else
      var q := p.(inUse := p.inUse - {c}, removed := p.removed + {c});
      if replaced then AddFresh(q) else q
  }

  /** Storing a result, or marking a submission failed, gives up before the database if the id is none. */
  function Attempt(h: History, sub: Submission): History {
    if IsObjectId(sub.id) then h.(attempted := h.attempted + {sub}) else h
  }

  function Next(cfg: Config, s: State, step: Step): State
    requires Enabled(cfg, s, step)
  {
    match step
    case Publish(sub) =>
      s.(main := s.main + [Message(sub, 0)], hist := s.hist.(published := s.hist.published + {sub}))
    case Deliver(w, i) =>
      s.(main := RemoveAt(s.main, i), slots := s.slots[w := Received(s.main[i])])
    case Reject(w) =>
      s.(slots := s.slots[w := Idle], hist := s.hist.(rejected := s.hist.rejected + {s.slots[w].m.sub}))
    case SpoilProblem(id) => s.(unfetchable := s.unfetchable + {id})
    case Load(w) => s.(slots := s.slots[w := Loaded(s.slots[w].m)])
    case DatabaseDown(w, at) =>
      s.(main := InsertAt(s.main, at, s.slots[w].m), slots := s.slots[w := Idle])
    case FetchFails(w, at) =>
      s.(main := InsertAt(s.main, at, s.slots[w].m), slots := s.slots[w := Idle])
    case Acquire(w, c) =>
      s.(slots := s.slots[w := Leased(s.slots[w].m, c, s.pool.uses[c] + 1 >= cfg.maxExecutions)],
         pool := TakeOut(s.pool, c, true), hist := Open(s.hist, c))
    case Starve(w) =>
      s.(slots := s.slots[w := Starved(s.slots[w].m)])
    case MarkFailed(w) =>
      s.(slots := s.slots[w := Marked(s.slots[w].m)], hist := Attempt(s.hist, s.slots[w].m.sub))
    case Republish(w, at, marshalled) =>
      var m := s.slots[w].m;
      var copy := if marshalled then m.(retryCount := m.retryCount + 1) else m;
      s.(retry := InsertAt(s.retry, at, copy), slots := s.slots[w := Republished(m)])
    case PublishFails(w, at) =>
      s.(main := InsertAt(s.main, at, s.slots[w].m), slots := s.slots[w := Idle])
    case Store(w, o) =>
      var p := s.slots[w];
      s.(slots := s.slots[w := Stored(p.m, p.c, p.discard || RaisesDiscard(o))],
         pool := NoteUse(s.pool, p.c, o), hist := Attempt(s.hist, p.m.sub))
    case RunRejected(w, o) =>
      var p := s.slots[w];
      s.(slots := s.slots[w := Settled(p.c, p.discard || RaisesDiscard(o))],
         pool := NoteUse(s.pool, p.c, o), hist := s.hist.(rejected := s.hist.rejected + {p.m.sub}))
    case WorkspaceFails(w, at) =>
      var p := s.slots[w];
      s.(main := InsertAt(s.main, at, p.m), slots := s.slots[w := Settled(p.c, p.discard)])
    case Ack(w) =>
      var p := s.slots[w];
      s.(slots := s.slots[w := if p.Stored? then Settled(p.c, p.discard) else Idle],
         hist := if p.Republished? then s.hist else s.hist.(acked := s.hist.acked + {p.m.sub}))
    case Finish(w, cleanupFailed, replaced) =>
      var p := s.slots[w];
      s.(slots := s.slots[w := Idle], pool := GiveBack(s.pool, p.c, p.discard || cleanupFailed, replaced),
         hist := s.hist.(ended := s.hist.ended + multiset{p.c}))
    case RetryExpires(i, at) =>
      s.(retry := RemoveAt(s.retry, i), main := InsertAt(s.main, at, s.retry[i]))
    case HttpAcquire(w, c) =>
      s.(slots := s.slots[w := Serving(c, false)], pool := TakeOut(s.pool, c, false), hist := Open(s.hist, c))
    case HttpRun(w, o) =>
      var p := s.slots[w];
      s.(slots := s.slots[w := Serving(p.c, p.discard || RaisesDiscard(o))],
         pool := NoteUse(s.pool, p.c, o))
    case PoolGrows => s.(pool := AddFresh(s.pool))
    case PoolShrinks(c) =>
      s.(pool := s.pool.(available := s.pool.available - {c}, removed := s.pool.removed + {c}))
    case Crash =>
      s.(main := s.main + Unacknowledged(s.slots), slots := seq(|s.slots|, _ => Idle),
         pool := s.pool.(available := {}, inUse := {},
                         removed := s.pool.removed + s.pool.available + s.pool.inUse),
         hist := s.hist.(abandoned := s.hist.abandoned + multiset(s.pool.inUse)))
  }

  predicate Initial(s: State) {
    && s.main == [] && s.retry == []
    && (forall w | 0 <= w < |s.slots| :: s.slots[w].Idle?)
    && s.pool == Pool({}, {}, {}, 0, map[], {}, {})
    && s.hist == History({}, {}, {}, {}, multiset{}, multiset{}, multiset{})
  }

  /** `steps` is a run from `s` to `t`. */
  ghost predicate Run(cfg: Config, s: State, steps: seq<Step>, t: State)
    decreases |steps|
  {
    if steps == [] then s == t
    else Enabled(cfg, s, steps[0]) && Run(cfg, Next(cfg, s, steps[0]), steps[1..], t)
  }

  ghost predicate Reachable(cfg: Config, s: State) {
    exists init, steps :: Initial(init) && Run(cfg, init, steps, s)
  }

  // -- messages are not lost --------------------------------------------------------------------------

  /** A slot whose delivery still stands for its submission: not yet replaced by a copy in the retry queue. */
  predicate Carries(p: Phase, sub: Submission) {
    HasMessage(p) && !p.Republished? && p.m.sub == sub
  }

  ghost predicate Queued(q: seq<Message>, sub: Submission) {
    exists m :: m in q && m.sub == sub
  }

  ghost predicate InFlight(slots: seq<Phase>, sub: Submission) {
    exists w :: 0 <= w < |slots| && Carries(slots[w], sub)
  }

  ghost predicate HasCopy(s: State, sub: Submission) {
    Queued(s.main, sub) || Queued(s.retry, sub) || InFlight(s.slots, sub)
  }

  predicate Resolved(h: History, sub: Submission) {
    sub in h.rejected || sub in h.acked
  }

  ghost predicate NothingLost(s: State) {
    forall sub | sub in s.hist.published :: HasCopy(s, sub) || Resolved(s.hist, sub)
  }

  /** Of the submissions acknowledged for good, and those about to be, exactly those whose id is one had
      their outcome sent to the database; no other id ever did. */
  predicate AttemptedBeforeAck(s: State) {
    && (forall sub | sub in s.hist.acked :: sub in s.hist.attempted <==> IsObjectId(sub.id))
    && (forall sub | sub in s.hist.attempted :: IsObjectId(sub.id))
    && forall w | 0 <= w < |s.slots| && (s.slots[w].Stored? || s.slots[w].Marked?) ::
         s.slots[w].m.sub in s.hist.attempted <==> IsObjectId(s.slots[w].m.sub.id)
  }

  lemma {:induction false} UnacknowledgedHolds(slots: seq<Phase>, w: nat)
    requires w < |slots| && HasMessage(slots[w])
    ensures slots[w].m in Unacknowledged(slots)
  {
    if w == 0 {
    } else {
      UnacknowledgedHolds(slots[1..], w - 1);
    }
  }

  lemma AttemptsPrecedeAcks(cfg: Config, s: State, step: Step)
    requires AttemptedBeforeAck(s) && Enabled(cfg, s, step)
    ensures AttemptedBeforeAck(Next(cfg, s, step))
  {
    HistoryStaysHonest(cfg, s, step);
    SlotsStayHonest(cfg, s, step);
  }

  lemma HistoryStaysHonest(cfg: Config, s: State, step: Step)
    requires AttemptedBeforeAck(s) && Enabled(cfg, s, step)
    ensures var h := Next(cfg, s, step).hist;
      && s.hist.attempted <= h.attempted
      && (forall sub | sub in h.acked :: sub in h.attempted <==> IsObjectId(sub.id))
      && (forall sub | sub in h.attempted :: IsObjectId(sub.id))
  {
  }

  lemma SlotsStayHonest(cfg: Config, s: State, step: Step)
    requires AttemptedBeforeAck(s) && Enabled(cfg, s, step)
    ensures var t := Next(cfg, s, step);
      forall w | 0 <= w < |t.slots| && (t.slots[w].Stored? || t.slots[w].Marked?) ::
        t.slots[w].m.sub in t.hist.attempted <==> IsObjectId(t.slots[w].m.sub.id)
  {
  }

  lemma StepLosesNothing(cfg: Config, s: State, step: Step)
    requires NothingLost(s) && Enabled(cfg, s, step)
    ensures NothingLost(Next(cfg, s, step))
  {
    var t := Next(cfg, s, step);
    forall sub | sub in t.hist.published ensures HasCopy(t, sub) || Resolved(t.hist, sub) {
      if sub !in s.hist.published {
        assert Message(sub, 0) in t.main;
      } else if !Resolved(s.hist, sub) {
        CopySurvives(cfg, s, step, sub);
      }
    }
  }

  lemma CopySurvives(cfg: Config, s: State, step: Step, sub: Submission)
    requires Enabled(cfg, s, step) && HasCopy(s, sub)
    ensures var t := Next(cfg, s, step); HasCopy(t, sub) || Resolved(t.hist, sub)
  {
    var t := Next(cfg, s, step);
    if m :| m in s.main && m.sub == sub {
      if m !in t.main {
        assert t.slots[step.w] == Received(m);
      }
    } else if m :| m in s.retry && m.sub == sub {
      if m !in t.retry {
        assert m in t.main;
      }
    } else {
      var w :| 0 <= w < |s.slots| && Carries(s.slots[w], sub);
      FlightSurvives(cfg, s, step, sub, w);
    }
  }

  lemma FlightSurvives(cfg: Config, s: State, step: Step, sub: Submission, w: nat)
    requires Enabled(cfg, s, step)
    requires w < |s.slots| && Carries(s.slots[w], sub)
    ensures var t := Next(cfg, s, step); HasCopy(t, sub) || Resolved(t.hist, sub)
  {
    var t := Next(cfg, s, step);
    if step.Crash? {
      UnacknowledgedHolds(s.slots, w);
      assert s.slots[w].m in t.main;
    } else if t.slots[w] == s.slots[w] {
    } else if step.Republish? {
      var m := s.slots[w].m;
      assert (if step.marshalled then m.(retryCount := m.retryCount + 1) else m) in t.retry;
    } else if step.DatabaseDown? || step.FetchFails? || step.PublishFails? || step.WorkspaceFails? {
      assert s.slots[w].m in t.main;
    }
  }

  lemma {:induction false} RunLosesNothing(cfg: Config, s: State, steps: seq<Step>, t: State)
    requires NothingLost(s) && AttemptedBeforeAck(s) && Run(cfg, s, steps, t)
    ensures NothingLost(t) && AttemptedBeforeAck(t)
    decreases |steps|
  {
    if steps == [] {
    } else {
      StepLosesNothing(cfg, s, steps[0]);
      AttemptsPrecedeAcks(cfg, s, steps[0]);
      RunLosesNothing(cfg, Next(cfg, s, steps[0]), steps[1..], t);
    }
  }

  /** Over every run, with crashes, failed publishes and starvation: a published submission has a copy
      in a queue or in flight, or it was rejected or acknowledged for good. */
  lemma NoSubmissionIsLost(cfg: Config, s: State, sub: Submission)
    requires Reachable(cfg, s) && sub in s.hist.published
    ensures HasCopy(s, sub) || Resolved(s.hist, sub)
  {
    var init, steps :| Initial(init) && Run(cfg, init, steps, s);
    RunLosesNothing(cfg, init, steps, s);
  }

  /** What was acknowledged for good had its outcome sent to the database exactly when its id is one. */
  lemma AckedIsAttemptedIff(cfg: Config, s: State, sub: Submission)
    requires Reachable(cfg, s) && sub in s.hist.acked
    ensures sub in s.hist.attempted <==> IsObjectId(sub.id)
  {
    var init, steps :| Initial(init) && Run(cfg, init, steps, s);
    RunLosesNothing(cfg, init, steps, s);
  }

  /** Every submission with another id can be run and acknowledged, and its outcome is not recorded anywhere. */
  lemma SomeAckIsUnrecorded(cfg: Config, sub: Submission) returns (s: State)
    requires cfg.workers > 0 && sub.decodes && !IsObjectId(sub.id)
    ensures Reachable(cfg, s) && sub in s.hist.acked && sub !in s.hist.attempted && sub !in s.hist.rejected
  {
    s := ReachLeased(cfg, sub);
    s := ReachNext(cfg, s, Store(0, ALL_WELL));
    s := ReachNext(cfg, s, Ack(0));
  }

  // One submission, one container, and one slot that runs the first in the second.
  lemma ReachLeased(cfg: Config, sub: Submission) returns (s: State)
    requires cfg.workers > 0 && sub.decodes
    ensures Reachable(cfg, s) && s.slots == [Leased(Message(sub, 0), 0, 1 >= cfg.maxExecutions)]
    ensures s.hist.attempted == {} && s.hist.rejected == {}
  {
    s := ReachDelivered(cfg, sub);
    s := ReachNext(cfg, s, Load(0));
    s := ReachNext(cfg, s, Acquire(0, 0));
  }

  lemma ReachDelivered(cfg: Config, sub: Submission) returns (s: State)
    requires cfg.workers > 0
    ensures Reachable(cfg, s) && s.slots == [Received(Message(sub, 0))] && s.unfetchable == {}
    ensures s.pool.available == {0} && s.pool.uses == map[0 := 0]
    ensures s.hist.published == {sub} && s.hist.attempted == {} && s.hist.rejected == {} && s.hist.acked == {}
  {
    s := Blank(1);
    s := ReachNext(cfg, s, PoolGrows);
    s := ReachNext(cfg, s, Publish(sub));
    assert s.main == [Message(sub, 0)];
    s := ReachNext(cfg, s, Deliver(0, 0));
  }

  function Blank(slots: nat): (s: State)
    ensures Initial(s) && |s.slots| == slots && s.unfetchable == {}
  {
    State([], [], seq(slots, _ => Idle), Pool({}, {}, {}, 0, map[], {}, {}),
          History({}, {}, {}, {}, multiset{}, multiset{}, multiset{}), {})
  }

  lemma ReachNext(cfg: Config, s: State, step: Step) returns (t: State)
    requires (Initial(s) || Reachable(cfg, s)) && Enabled(cfg, s, step)
    ensures t == Next(cfg, s, step) && Reachable(cfg, t)
  {
    t := Next(cfg, s, step);
    if Initial(s) {
      assert Run(cfg, t, [step][1..], t);
      assert Run(cfg, s, [step], t);
    } else {
      var init, steps :| Initial(init) && Run(cfg, init, steps, s);
      RunThenStep(cfg, init, steps, s, step);
    }
  }

  // -- retries are bounded ----------------------------------------------------------------------------

  ghost predicate RetriesBounded(cfg: Config, s: State) {
    && (forall m | m in s.main :: m.retryCount <= cfg.maxRetries)
    && (forall m | m in s.retry :: m.retryCount <= cfg.maxRetries)
    && (forall w | 0 <= w < |s.slots| && HasMessage(s.slots[w]) :: s.slots[w].m.retryCount <= cfg.maxRetries)
  }

  lemma {:induction false} UnacknowledgedComesFrom(slots: seq<Phase>, m: Message)
    requires m in Unacknowledged(slots)
    ensures exists w :: 0 <= w < |slots| && HasMessage(slots[w]) && slots[w].m == m
  {
    if HasMessage(slots[0]) && slots[0].m == m {
    } else {
      UnacknowledgedComesFrom(slots[1..], m);
      var w :| 0 <= w < |slots[1..]| && HasMessage(slots[1..][w]) && slots[1..][w].m == m;
      assert slots[w + 1] == slots[1..][w];
    }
  }

  lemma RetriesStayBounded(cfg: Config, s: State, step: Step)
    requires RetriesBounded(cfg, s) && Enabled(cfg, s, step)
    ensures RetriesBounded(cfg, Next(cfg, s, step))
  {
    if step.Crash? {
      CrashKeepsRetriesBounded(cfg, s);
    } else {
      QueuesStayBounded(cfg, s, step);
      SlotsStayBounded(cfg, s, step);
    }
  }

  lemma QueuesStayBounded(cfg: Config, s: State, step: Step)
    requires RetriesBounded(cfg, s) && Enabled(cfg, s, step) && !step.Crash?
    ensures var t := Next(cfg, s, step);
      && (forall m | m in t.main :: m.retryCount <= cfg.maxRetries)
      && (forall m | m in t.retry :: m.retryCount <= cfg.maxRetries)
  {
  }

  lemma SlotsStayBounded(cfg: Config, s: State, step: Step)
    requires RetriesBounded(cfg, s) && Enabled(cfg, s, step) && !step.Crash?
    ensures var t := Next(cfg, s, step);
      forall w | 0 <= w < |t.slots| && HasMessage(t.slots[w]) :: t.slots[w].m.retryCount <= cfg.maxRetries
  {
  }

  lemma CrashKeepsRetriesBounded(cfg: Config, s: State)
    requires RetriesBounded(cfg, s)
    ensures RetriesBounded(cfg, Next(cfg, s, Crash))
  {
    forall m | m in Unacknowledged(s.slots) ensures m.retryCount <= cfg.maxRetries {
      UnacknowledgedComesFrom(s.slots, m);
    }
  }

  lemma {:induction false} RunKeepsRetriesBounded(cfg: Config, s: State, steps: seq<Step>, t: State)
    requires RetriesBounded(cfg, s) && Run(cfg, s, steps, t)
    ensures RetriesBounded(cfg, t)
    decreases |steps|
  {
    if steps == [] {
    } else {
      RetriesStayBounded(cfg, s, steps[0]);
      RunKeepsRetriesBounded(cfg, Next(cfg, s, steps[0]), steps[1..], t);
    }
  }

  /** No copy of a message ever carries more retries than allowed. */
  lemma RetriesAreBounded(cfg: Config, s: State)
    requires Reachable(cfg, s)
    ensures RetriesBounded(cfg, s)
  {
    var init, steps :| Initial(init) && Run(cfg, init, steps, s);
    RunKeepsRetriesBounded(cfg, init, steps, s);
  }

  /** A republish puts a copy into the retry queue, and raises its count exactly when the message could be
      encoded again. */
  lemma RepublishCountsIff(cfg: Config, s: State, w: nat, at: nat, marshalled: bool)
    requires Enabled(cfg, s, Republish(w, at, marshalled))
    ensures var t, m := Next(cfg, s, Republish(w, at, marshalled)), s.slots[w].m;
      && |t.retry| == |s.retry| + 1 && RemoveAt(t.retry, at) == s.retry
      && t.retry[at].sub == m.sub
      && m.retryCount <= t.retry[at].retryCount <= m.retryCount + 1
      && (t.retry[at].retryCount == m.retryCount + 1 <==> marshalled)
  {
  }

  /** Runs can be extended at their end. */
  lemma {:induction false} RunThenStep(cfg: Config, s: State, steps: seq<Step>, t: State, step: Step)
    requires Run(cfg, s, steps, t) && Enabled(cfg, t, step)
    ensures Run(cfg, s, steps + [step], Next(cfg, t, step))
    decreases |steps|
  {
    if steps == [] {
    } else {
      assert (steps + [step])[1..] == steps[1..] + [step];
      RunThenStep(cfg, Next(cfg, s, steps[0]), steps[1..], t, step);
    }
  }
}
