/** The worker's code: `ProcessSubmission` handles one delivery from decoding to the deferred return
    of its container, updating the queues and the pool as it goes. */
module JudgeProcess {
  import opened Options
  import opened Discard
  import opened CentralRuns
  import opened Judge

  /** What the outside world answers while one delivery is processed. */
  datatype Environment = Environment(
    databaseUp: bool, problemValid: bool, languageKnown: bool, strategyKnown: bool,
    container: Option<Container>,             // what Acquire returned before its timeout
    marshals: bool, publishes: bool,          // the retry message
    outcome: Outcome, resultMarshals: bool,
    workspaceCreated: bool, filesPrepared: bool,
    replaced: bool)                           // Discard managed to create a replacement

  datatype Settlement = Acked | RetriedLater | Requeued | Rejected

  class Process {
    const cfg: Config
    var main: seq<Message>
    var retry: seq<Message>
    var pool: Pool
    // What the database holds: the ids whose problem cannot be fetched.
    var unfetchable: set<string>
    // Where each worker is in its code, and what happened so far.
    ghost var slots: seq<Phase>
    ghost var hist: History

    constructor (cfg: Config, slots: nat, unfetchable: set<string>)
      ensures this.cfg == cfg && Initial(View()) && |this.slots| == slots && this.unfetchable == unfetchable
    {
      this.cfg := cfg;
      main, retry, pool := [], [], Pool({}, {}, {}, 0, map[], {}, {});
      this.unfetchable := unfetchable;
      this.slots := seq(slots, _ => Idle);
      hist := History({}, {}, {}, {}, multiset{}, multiset{}, multiset{});
    }

    ghost function View(): State
      reads this
    {
      State(main, retry, slots, pool, hist, unfetchable)
    }

    /** Nack without requeueing; a container held stays held until the deferred return. */
    method RejectDelivery(w: nat, m: Message)
      requires w < |slots| && (slots[w] == Loaded(m) || (slots[w] == Received(m) && !m.sub.decodes))
      modifies this`slots, this`hist
      ensures View() == Next(cfg, old(View()), Reject(w))
    {
      hist := hist.(rejected := hist.rejected + {m.sub});
      slots := slots[w := Idle];
    }

    /** Nack with requeueing, at a position the broker chooses. */
    method RequeueDelivery(w: nat, m: Message) returns (at: nat)
      requires w < |slots| && (slots[w] == Received(m) || slots[w] == Starved(m))
      modifies this`main, this`slots
      ensures at <= |old(main)|
      ensures View() == old(View()).(main := InsertAt(old(main), at, m), slots := old(slots)[w := Idle])
    {
      at :| 0 <= at <= |main|;
      main := InsertAt(main, at, m);
      slots := slots[w := Idle];
    }

    method AckDelivery(w: nat)
      requires w < |slots| && (slots[w].Marked? || slots[w].Republished? || slots[w].Stored?)
      modifies this`slots, this`hist
      ensures View() == Next(cfg, old(View()), Ack(w))
    {
      hist := if slots[w].Republished? then hist else hist.(acked := hist.acked + {slots[w].m.sub});
      slots := slots[w := if slots[w].Stored? then Settled(slots[w].c, slots[w].discard) else Idle];
    }

    /** finishWithContainer: the last thing that happens to a container in use. */
    method FinishWithContainer(w: nat, c: Container, discard: bool, cleanupFailed: bool, replaced: bool)
      requires w < |slots| && (slots[w].Settled? || slots[w].Serving?) && slots[w].c == c
      requires discard == (slots[w].discard || cleanupFailed)
      modifies this`pool, this`slots, this`hist
      ensures View() == Next(cfg, old(View()), Finish(w, cleanupFailed, replaced))
      ensures if discard then c in pool.removed else c in pool.available
    {
      if discard {
        pool := pool.(inUse := pool.inUse - {c}, removed := pool.removed + {c});
        if replaced {
          pool := AddFresh(pool);
        }
      } else {
        pool := pool.(inUse := pool.inUse - {c}, available := pool.available + {c});
      }
      hist := hist.(ended := hist.ended + multiset{c});
      slots := slots[w := Idle];
    }

    /** The submission is marked as failed, and done with. */
    method MarkAndAck(w: nat, d: Message) returns (ghost steps: seq<Step>)
      requires w < |slots| && slots[w] == Starved(d) && d.retryCount >= cfg.maxRetries
      modifies this`slots, this`hist
      ensures Run(cfg, old(View()), steps, View()) && slots == old(slots)[w := Idle]
      ensures Settles(old(hist), hist, Acked, d.sub) && steps == [MarkFailed(w), Ack(w)]
    {
      ghost var start := View();
      hist := Attempt(hist, d.sub);
      slots := slots[w := Marked(d)];
      assert View() == Next(cfg, start, MarkFailed(w));
      AckDelivery(w);
      TwoSteps(cfg, start, MarkFailed(w), Ack(w));
      steps := [MarkFailed(w), Ack(w)];
    }

    /** A copy goes to the retry queue, its count raised if it can be encoded; then the delivery is done with. */
    method RepublishAndAck(w: nat, d: Message, marshals: bool) returns (ghost steps: seq<Step>)
      requires w < |slots| && slots[w] == Starved(d) && d.retryCount < cfg.maxRetries
      modifies this`retry, this`slots, this`hist
      ensures Run(cfg, old(View()), steps, View()) && slots == old(slots)[w := Idle]
      ensures hist == old(hist) && |steps| == 2 && steps[0].Republish? && steps[1] == Ack(w)
      ensures (if marshals then d.(retryCount := d.retryCount + 1) else d) in retry
    {
      ghost var start := View();
      var body := if marshals then d.(retryCount := d.retryCount + 1) else d;
      var at: nat :| at <= |retry|;
      retry := InsertAt(retry, at, body);
      slots := slots[w := Republished(d)];
      ghost var republish := Republish(w, at, marshals);
      assert View() == Next(cfg, start, republish);
      AckDelivery(w);
      TwoSteps(cfg, start, republish, Ack(w));
      steps := [republish, Ack(w)];
    }

    /** No container came in time: give up for good, or come back later with a raised retry count. */
    method RetryOrGiveUp(w: nat, d: Message, env: Environment) returns (how: Settlement, ghost steps: seq<Step>)
      requires w < |slots| && slots[w] == Starved(d)
      modifies this`main, this`retry, this`slots, this`hist
      ensures Run(cfg, old(View()), steps, View())
      ensures slots == old(slots)[w := Idle]
      ensures how == if d.retryCount >= cfg.maxRetries then Acked else if env.publishes then RetriedLater else Requeued
      ensures how == Acked ==> main == old(main) && retry == old(retry)
      ensures how == RetriedLater ==>
                main == old(main) && (if env.marshals then d.(retryCount := d.retryCount + 1) else d) in retry
      ensures how == Requeued ==> d in main && retry == old(retry)
      ensures Settles(old(hist), hist, how, d.sub) && !HasStore(steps)
    {
      ghost var start := View();
      if d.retryCount >= cfg.maxRetries {
        steps := MarkAndAck(w, d);
        return Acked, steps;
      }
      if env.publishes {
        steps := RepublishAndAck(w, d, env.marshals);
        return RetriedLater, steps;
      }
      var at := RequeueDelivery(w, d);
      OneStep(cfg, start, PublishFails(w, at));
      return Requeued, [PublishFails(w, at)];
    }

    method StoreResult(w: nat, d: Message, c: Container, spent: bool, o: Outcome, discard: bool)
      requires w < |slots| && slots[w] == Leased(d, c, spent) && discard == (spent || RaisesDiscard(o))
      requires !(o.Central? && o.run.NotSetUp?)
      modifies this`pool, this`slots, this`hist
      ensures View() == Next(cfg, old(View()), Store(w, o))
      ensures slots == old(slots)[w := Stored(d, c, discard)] && hist == Attempt(old(hist), d.sub)
    {
      pool := NoteUse(pool, c, o);
      hist := Attempt(hist, d.sub);
      slots := slots[w := Stored(d, c, discard)];
    }

    /** What the run left is stored, and the delivery is done with; the container is still held. */
    method StoreAndAck(w: nat, d: Message, c: Container, spent: bool, o: Outcome, discard: bool)
      returns (ghost steps: seq<Step>)
      requires w < |slots| && slots[w] == Leased(d, c, spent) && discard == (spent || RaisesDiscard(o))
      requires !(o.Central? && o.run.NotSetUp?)
      modifies this`pool, this`slots, this`hist
      ensures Run(cfg, old(View()), steps, View()) && slots == old(slots)[w := Settled(c, discard)]
      ensures Settles(old(hist), hist, Acked, d.sub) && steps == [Store(w, o), Ack(w)]
    {
      ghost var start := View();
      StoreResult(w, d, c, spent, o, discard);
      AckDelivery(w);
      TwoSteps(cfg, start, Store(w, o), Ack(w));
      steps := [Store(w, o), Ack(w)];
    }

    /** The run ended in a way that no retry would change. */
    method RejectRun(w: nat, d: Message, c: Container, spent: bool, o: Outcome, discard: bool)
      returns (ghost steps: seq<Step>)
      requires w < |slots| && slots[w] == Leased(d, c, spent) && discard == (spent || RaisesDiscard(o))
      modifies this`pool, this`slots, this`hist
      ensures Run(cfg, old(View()), steps, View()) && slots == old(slots)[w := Settled(c, discard)]
      ensures Settles(old(hist), hist, Rejected, d.sub) && steps == [RunRejected(w, o)]
    {
      ghost var start := View();
      pool := NoteUse(pool, c, o);
      hist := hist.(rejected := hist.rejected + {d.sub});
      slots := slots[w := Settled(c, discard)];
      OneStep(cfg, start, RunRejected(w, o));
      steps := [RunRejected(w, o)];
    }

    /** No workspace: the delivery goes back, the container is still held. */
    method RequeueLeased(w: nat, d: Message, c: Container, spent: bool) returns (ghost steps: seq<Step>)
      requires w < |slots| && slots[w] == Leased(d, c, spent)
      modifies this`main, this`slots
      ensures Run(cfg, old(View()), steps, View()) && slots == old(slots)[w := Settled(c, spent)]
      ensures d in main && |steps| == 1 && steps[0].WorkspaceFails?
    {
      ghost var start := View();
      var at: nat :| at <= |main|;
      main := InsertAt(main, at, d);
      slots := slots[w := Settled(c, spent)];
      OneStep(cfg, start, WorkspaceFails(w, at));
      steps := [WorkspaceFails(w, at)];
    }

    /** The strategy path: the flag, then a rejection or the store and the ack. */
    method RunCentral(w: nat, d: Message, c: Container, spent: bool, env: Environment)
      returns (how: Settlement, discard: bool, ghost steps: seq<Step>)
      requires w < |slots| && slots[w] == Leased(d, c, spent) && env.outcome.Central?
      modifies this`pool, this`slots, this`hist
      ensures Run(cfg, old(View()), steps, View())
      ensures slots == old(slots)[w := Settled(c, discard)]
      ensures discard == (spent || RaisesDiscard(env.outcome))
      ensures how == if env.outcome.run.NotSetUp? || !env.resultMarshals then Rejected else Acked
      ensures steps == if how == Acked then [Store(w, env.outcome), Ack(w)] else [RunRejected(w, env.outcome)]
      ensures Settles(old(hist), hist, how, d.sub)
    {
      var o := env.outcome;
      discard := spent;
      if ShouldDiscard(SetupError(o.run), SummaryOf(o.run), o.cleanupFailed) {
        discard := true;
      }
      if o.run.NotSetUp? || !env.resultMarshals {
        how := Rejected;
        steps := RejectRun(w, d, c, spent, o, discard);
      } else {
        how := Acked;
        steps := StoreAndAck(w, d, c, spent, o, discard);
      }
    }

    /** The wrapper path: the flag is decided on the error alone, and whether cleanup failed only shows
        in the deferred call that runs after the delivery is settled. */
    method RunLegacy(w: nat, d: Message, c: Container, spent: bool, env: Environment)
      returns (how: Settlement, discard: bool, ghost steps: seq<Step>)
      requires w < |slots| && slots[w] == Leased(d, c, spent) && env.outcome.Legacy?
      modifies this`main, this`pool, this`slots, this`hist
      ensures Run(cfg, old(View()), steps, View())
      ensures slots == old(slots)[w := Settled(c, discard)]
      ensures discard == (spent || (how == Acked && RaisesDiscard(Legacy(env.outcome.error, env.outcome.output, false))))
      ensures how == if !env.workspaceCreated then Requeued else if !env.filesPrepared then Rejected else Acked
      ensures how == Acked ==> steps == [Store(w, Legacy(env.outcome.error, env.outcome.output, false)), Ack(w)]
      ensures how != Acked ==> |steps| == 1 && (steps[0].WorkspaceFails? || steps[0].RunRejected?)
      ensures how == Requeued ==> d in main
      ensures Settles(old(hist), hist, how, d.sub)
    {
      discard := spent;
      if !env.workspaceCreated {
        how := Requeued;
        steps := RequeueLeased(w, d, c, spent);
      } else if !env.filesPrepared {
        how := Rejected;
        steps := RejectRun(w, d, c, spent, Legacy(None, Nothing, false), discard);
      } else {
        var o := Legacy(env.outcome.error, env.outcome.output, false);
        if ShouldDiscard(o.error, None, false) {
          discard := true;
        }
        how := Acked;
        steps := StoreAndAck(w, d, c, spent, o, discard);
      }
    }

    /** From a container in hand to the settled delivery, on whichever path. */
    method RunOnPath(w: nat, d: Message, c: Container, spent: bool, env: Environment)
      returns (how: Settlement, discard: bool, cleanupFailed: bool, ghost steps: seq<Step>)
      requires w < |slots| && slots[w] == Leased(d, c, spent)
      modifies this`main, this`pool, this`slots, this`hist
      ensures Run(cfg, old(View()), steps, View())
      ensures slots == old(slots)[w := Settled(c, discard)]
      ensures Settles(old(hist), hist, how, d.sub)
      ensures how == Requeued ==> d in main
      ensures RunsTo(env, how) && (HasStore(steps) <==> how == Acked)
      ensures discard || cleanupFailed <==> Discards(spent, env)
    {
      cleanupFailed := false;
      if env.outcome.Central? {
        how, discard, steps := RunCentral(w, d, c, spent, env);
      } else {
        how, discard, steps := RunLegacy(w, d, c, spent, env);
        cleanupFailed := how != Requeued && env.outcome.cleanupFailed;
      }
    }

    /** From a container in hand to its deferred return. */
    method RunWithContainer(w: nat, d: Message, c: Container, spent: bool, env: Environment)
      returns (how: Settlement, ghost steps: seq<Step>)
      requires w < |slots| && slots[w] == Leased(d, c, spent)
      modifies this`main, this`pool, this`slots, this`hist
      ensures Run(cfg, old(View()), steps, View())
      ensures slots == old(slots)[w := Idle]
      ensures Settles(old(hist), hist.(ended := old(hist.ended)), how, d.sub)
      ensures hist.ended == old(hist.ended) + multiset{c}
      ensures how == Requeued ==> d in main
      ensures RunsTo(env, how) && (HasStore(steps) <==> how == Acked)
      ensures if Discards(spent, env) then c in pool.removed else c in pool.available
    {
      ghost var start := View();
      var discard, cleanupFailed;
      how, discard, cleanupFailed, steps := RunOnPath(w, d, c, spent, env);
      steps := EndLease(w, c, discard, cleanupFailed, env.replaced, start, steps);
    }

    /** The deferred calls: cleaning up the workspace may raise the flag, then the container goes back. */
    method EndLease(w: nat, c: Container, discard: bool, cleanupFailed: bool, replaced: bool,
                    ghost start: State, ghost before: seq<Step>) returns (ghost steps: seq<Step>)
      requires w < |slots| && slots[w] == Settled(c, discard) && Run(cfg, start, before, View())
      modifies this`pool, this`slots, this`hist
      ensures Run(cfg, start, steps, View()) && slots == old(slots)[w := Idle]
      ensures hist == old(hist).(ended := old(hist.ended) + multiset{c})
      ensures if discard || cleanupFailed then c in pool.removed else c in pool.available
      ensures HasStore(steps) <==> HasStore(before)
    {
      ghost var settled := View();
      FinishWithContainer(w, c, discard || cleanupFailed, cleanupFailed, replaced);
      RunThenStep(cfg, start, before, settled, Finish(w, cleanupFailed, replaced));
      StoreAmong(before, [Finish(w, cleanupFailed, replaced)]);
      steps := before + [Finish(w, cleanupFailed, replaced)];
    }

    /** From a problem in hand: rejected, or a container is waited for. */
    method Execute(w: nat, d: Message, env: Environment) returns (how: Settlement, ghost steps: seq<Step>)
      requires w < |slots| && slots[w] == Loaded(d)
      requires env.container.Some? ==> env.container.value in pool.available && env.container.value in pool.uses
      modifies this`main, this`retry, this`pool, this`slots, this`hist
      ensures Run(cfg, old(View()), steps, View())
      ensures slots == old(slots)[w := Idle]
      ensures EndsAs(env, d.retryCount, cfg.maxRetries, how)
      ensures HasStore(steps) <==> Sound(env) && env.container.Some? && Stores(env)
      ensures var lease := if Sound(env) && env.container.Some? then multiset{env.container.value} else multiset{};
        hist.granted == old(hist.granted) + lease && hist.ended == old(hist.ended) + lease
      ensures Sound(env) && env.container.Some? ==>
        var c := env.container.value;
        if Discards(old(pool.uses[c]) + 1 >= cfg.maxExecutions, env) then c in pool.removed else c in pool.available
      ensures Settles(old(hist), hist.(granted := old(hist.granted), ended := old(hist.ended)), how, d.sub)
      ensures how == Requeued ==> d in main
      ensures how == RetriedLater ==>
                d.retryCount < cfg.maxRetries && (if env.marshals then d.(retryCount := d.retryCount + 1) else d) in retry
    {
      ghost var start := View();
      if !env.problemValid || !env.languageKnown || !env.strategyKnown {
        RejectDelivery(w, d);
        OneStep(cfg, start, Reject(w));
        return Rejected, [Reject(w)];
      }
      if env.container.None? {
        how, steps := Wait(w, d, env);
      } else {
        how, steps := Lease(w, d, env.container.value, env);
      }
    }

    method Wait(w: nat, d: Message, env: Environment) returns (how: Settlement, ghost steps: seq<Step>)
      requires w < |slots| && slots[w] == Loaded(d)
      modifies this`main, this`retry, this`slots, this`hist
      ensures Run(cfg, old(View()), steps, View())
      ensures slots == old(slots)[w := Idle]
      ensures Settles(old(hist), hist, how, d.sub) && !HasStore(steps)
      ensures how == if d.retryCount >= cfg.maxRetries then Acked else if env.publishes then RetriedLater else Requeued
      ensures how == Requeued ==> d in main
      ensures how == RetriedLater ==>
                d.retryCount < cfg.maxRetries && (if env.marshals then d.(retryCount := d.retryCount + 1) else d) in retry
    {
      ghost var start := View();
      slots := slots[w := Starved(d)];
      ghost var starved := View();
      how, steps := RetryOrGiveUp(w, d, env);
      StepThenRun(cfg, start, Starve(w), starved, steps, View());
      StoreAmong([Starve(w)], steps);
      steps := [Starve(w)] + steps;
    }

    method Lease(w: nat, d: Message, c: Container, env: Environment) returns (how: Settlement, ghost steps: seq<Step>)
      requires w < |slots| && slots[w] == Loaded(d) && c in pool.available && c in pool.uses
      modifies this`main, this`pool, this`slots, this`hist
      ensures Run(cfg, old(View()), steps, View())
      ensures slots == old(slots)[w := Idle]
      ensures Settles(old(hist), hist.(granted := old(hist.granted), ended := old(hist.ended)), how, d.sub)
      ensures hist.granted == old(hist.granted) + multiset{c} && hist.ended == old(hist.ended) + multiset{c}
      ensures how == Requeued ==> d in main
      ensures RunsTo(env, how) && (HasStore(steps) <==> how == Acked)
      ensures if Discards(old(pool.uses[c]) + 1 >= cfg.maxExecutions, env) then c in pool.removed else c in pool.available
    {
      ghost var start := View();
      var spent := TakeContainer(w, d, c);
      ghost var leased := View();
      how, steps := RunWithContainer(w, d, c, spent, env);
      StepThenRun(cfg, start, Acquire(w, c), leased, steps, View());
      StoreAmong([Acquire(w, c)], steps);
      steps := [Acquire(w, c)] + steps;
    }

    /** One more use is counted, and shows whether it is the container's last. */
    method TakeContainer(w: nat, d: Message, c: Container) returns (spent: bool)
      requires w < |slots| && slots[w] == Loaded(d) && c in pool.available && c in pool.uses
      modifies this`pool, this`slots, this`hist
      ensures Enabled(cfg, old(View()), Acquire(w, c)) && View() == Next(cfg, old(View()), Acquire(w, c))
      ensures slots == old(slots)[w := Leased(d, c, spent)] && hist == Open(old(hist), c)
      ensures hist.granted == old(hist.granted) + multiset{c}
      ensures pool.uses == old(pool.uses)[c := old(pool.uses[c]) + 1] && c !in pool.available && c in pool.inUse
      ensures spent <==> old(pool.uses[c]) + 1 >= cfg.maxExecutions
    {
      var count := pool.uses[c] + 1;
      pool := TakeOut(pool, c, true);
      hist := Open(hist, c);
      spent := count >= cfg.maxExecutions;
      slots := slots[w := Leased(d, c, spent)];
    }

    /** One delivery, whatever the environment answers: it is settled exactly once, the lease it may
        have taken is ended exactly once, and everything done is a run of the state machine. A message
        that does not decode is rejected, and one whose problem cannot be fetched goes back as it came. */
    method ProcessSubmission(w: nat, d: Message, env: Environment) returns (how: Settlement, ghost steps: seq<Step>)
      requires w < |slots| && slots[w] == Received(d)
      requires env.container.Some? ==> env.container.value in pool.available && env.container.value in pool.uses
      modifies this`main, this`retry, this`pool, this`slots, this`hist
      ensures Run(cfg, old(View()), steps, View())
      ensures slots == old(slots)[w := Idle]
      ensures if !d.sub.decodes then how == Rejected
              else if !Fetched(d, env, unfetchable) then how == Requeued
              else EndsAs(env, d.retryCount, cfg.maxRetries, how)
      ensures HasStore(steps) <==> Fetched(d, env, unfetchable) && Sound(env) && env.container.Some? && Stores(env)
      ensures var lease :=
          if Fetched(d, env, unfetchable) && Sound(env) && env.container.Some? then multiset{env.container.value} else multiset{};
        hist.granted == old(hist.granted) + lease && hist.ended == old(hist.ended) + lease
      ensures Fetched(d, env, unfetchable) && Sound(env) && env.container.Some? ==>
        var c := env.container.value;
        if Discards(old(pool.uses[c]) + 1 >= cfg.maxExecutions, env) then c in pool.removed else c in pool.available
      ensures Settles(old(hist), hist.(granted := old(hist.granted), ended := old(hist.ended)), how, d.sub)
      ensures how == Requeued ==> d in main
      ensures how == RetriedLater ==>
                d.retryCount < cfg.maxRetries && (if env.marshals then d.(retryCount := d.retryCount + 1) else d) in retry
    {
      ghost var start := View();
      if !d.sub.decodes {
        RejectDelivery(w, d);
        OneStep(cfg, start, Reject(w));
        return Rejected, [Reject(w)];
      }
      if !env.databaseUp || d.sub.problem in unfetchable {
        var at := RequeueDelivery(w, d);
        ghost var back := if !env.databaseUp then DatabaseDown(w, at) else FetchFails(w, at);
        OneStep(cfg, start, back);
        return Requeued, [back];
      }
      slots := slots[w := Loaded(d)];
      ghost var loaded := View();
      how, steps := Execute(w, d, env);
      StepThenRun(cfg, start, Load(w), loaded, steps, View());
      StoreAmong([Load(w)], steps);
      steps := [Load(w)] + steps;
    }
  }

  /** What settling a delivery records of its submission, and of no other. */
  predicate Settles(before: History, after: History, how: Settlement, sub: Submission) {
    match how
    case Acked => after == Attempt(before, sub).(acked := before.acked + {sub})
    case Rejected => after == before.(rejected := before.rejected + {sub})
    case _ => after == before
  }

  // -- what is decided by the message and the environment ------------------------------------------------

  /** The message decodes, and its problem is fetched. */
  predicate Fetched(d: Message, env: Environment, unfetchable: set<string>) {
    d.sub.decodes && env.databaseUp && d.sub.problem !in unfetchable
  }

  predicate Sound(env: Environment) {
    env.problemValid && env.languageKnown && env.strategyKnown
  }

  /** With a container in hand, the run comes to a result that is stored. */
  predicate Stores(env: Environment) {
    match env.outcome
    case Central(run, _) => !run.NotSetUp? && env.resultMarshals
    case Legacy(_, _, _) => env.workspaceCreated && env.filesPrepared
  }

  predicate Refuses(env: Environment) {
    match env.outcome
    case Central(run, _) => run.NotSetUp? || !env.resultMarshals
    case Legacy(_, _, _) => env.workspaceCreated && !env.filesPrepared
  }

  predicate LacksWorkspace(env: Environment) {
    env.outcome.Legacy? && !env.workspaceCreated
  }

  /** How a delivery with a container in hand ends. */
  predicate RunsTo(env: Environment, how: Settlement) {
    && (how == Acked <==> Stores(env))
    && (how == Rejected <==> Refuses(env))
    && (how == Requeued <==> LacksWorkspace(env))
    && how != RetriedLater
  }

  /** How a delivery with a problem in hand ends, with a container and without. */
  predicate EndsAs(env: Environment, retries: nat, maxRetries: nat, how: Settlement) {
    var has := env.container.Some?;
    && (how == Rejected <==> !Sound(env) || (has && Refuses(env)))
    && (how == Acked <==> Sound(env) && if has then Stores(env) else retries >= maxRetries)
    && (how == RetriedLater <==> Sound(env) && !has && retries < maxRetries && env.publishes)
    && (how == Requeued <==> Sound(env) && if has then LacksWorkspace(env) else retries < maxRetries && !env.publishes)
  }

  /** Whether the container is spent, or the run or the cleanup after it marks it. */
  predicate Discards(spent: bool, env: Environment) {
    || spent
    || match env.outcome
       case Central(_, _) => RaisesDiscard(env.outcome)
       case Legacy(error, output, cleanupFailed) =>
         env.workspaceCreated && (cleanupFailed || (env.filesPrepared && RaisesDiscard(Legacy(error, output, false))))
  }

  ghost predicate HasStore(steps: seq<Step>) {
    exists i :: 0 <= i < |steps| && steps[i].Store?
  }

  lemma StoreAmong(xs: seq<Step>, ys: seq<Step>)
    ensures HasStore(xs + ys) <==> HasStore(xs) || HasStore(ys)
  {
    if i :| 0 <= i < |xs| && xs[i].Store? {
      assert (xs + ys)[i].Store?;
    }
    if i :| 0 <= i < |ys| && ys[i].Store? {
      assert (xs + ys)[|xs| + i].Store?;
    }
  }

  lemma OneStep(cfg: Config, s: State, step: Step)
    requires Enabled(cfg, s, step)
    ensures Run(cfg, s, [step], Next(cfg, s, step))
  {
    assert Run(cfg, Next(cfg, s, step), [step][1..], Next(cfg, s, step));
  }

  lemma TwoSteps(cfg: Config, s: State, x: Step, y: Step)
    requires Enabled(cfg, s, x) && Enabled(cfg, Next(cfg, s, x), y)
    ensures Run(cfg, s, [x, y], Next(cfg, Next(cfg, s, x), y))
  {
    OneStep(cfg, Next(cfg, s, x), y);
    assert [x, y][1..] == [y];
  }

  lemma StepThenRun(cfg: Config, s: State, step: Step, t: State, steps: seq<Step>, u: State)
    requires Enabled(cfg, s, step) && t == Next(cfg, s, step) && Run(cfg, t, steps, u)
    ensures Run(cfg, s, [step] + steps, u)
  {
    assert ([step] + steps)[1..] == steps;
  }
}
