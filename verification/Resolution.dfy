/** Which submissions can still be resolved: all but those whose problem cannot be fetched and of which no
    delivery got past fetching it. For these no run helps, whatever does or does not fail. */
module Resolution {
  import opened Options
  import opened Discard
  import opened Judge
  import opened Progress

  // A delivery that can only end in the queue again, where its problem is missed.
  predicate BackToQueue(cfg: Config, p: Phase) {
    p.Received? || p.Republished? || (p.Starved? && p.m.retryCount < cfg.maxRetries)
  }

  /** The problem cannot be fetched, and no delivery of the submission has it in hand for a run, or is about to be
      given up. */
  ghost predicate Stuck(cfg: Config, s: State, sub: Submission) {
    && Doomed(s, sub) && !Resolved(s.hist, sub)
    && forall w | 0 <= w < |s.slots| && HasMessage(s.slots[w]) && s.slots[w].m.sub == sub :: BackToQueue(cfg, s.slots[w])
  }

  lemma StepKeepsStuck(cfg: Config, s: State, step: Step, sub: Submission)
    requires Stuck(cfg, s, sub) && Enabled(cfg, s, step)
    ensures Stuck(cfg, Next(cfg, s, step), sub)
  {
  }

  /** Once stuck, a submission is never resolved, in any run, with faults or without. */
  lemma {:induction false} StuckForEver(cfg: Config, s: State, steps: seq<Step>, t: State, sub: Submission)
    requires Stuck(cfg, s, sub) && Run(cfg, s, steps, t)
    ensures Stuck(cfg, t, sub)
    decreases |steps|
  {
    if steps == [] {
    } else {
      StepKeepsStuck(cfg, s, steps[0], sub);
      StuckForEver(cfg, Next(cfg, s, steps[0]), steps[1..], t, sub);
    }
  }

  // -- runs without faults ----------------------------------------------------------------------------

  ghost predicate Leads(cfg: Config, s: State, t: State) {
    exists steps :: Run(cfg, s, steps, t) && Tally(cfg, steps, Fault) == 0
  }

  lemma LeadsOn(cfg: Config, s: State, t: State, step: Step)
    requires Leads(cfg, s, t) && Enabled(cfg, t, step) && !IsFault(step)
    ensures Leads(cfg, s, Next(cfg, t, step))
  {
    var steps :| Run(cfg, s, steps, t) && Tally(cfg, steps, Fault) == 0;
    RunThenStep(cfg, s, steps, t, step);
    TallyThenStep(cfg, steps, step);
  }

  lemma {:induction false} TallyThenStep(cfg: Config, steps: seq<Step>, step: Step)
    requires !IsFault(step)
    ensures Tally(cfg, steps + [step], Fault) == Tally(cfg, steps, Fault)
  {
    if steps == [] {
      assert [] + [step] == [step] && [step][1..] == [];
    } else {
      assert (steps + [step])[1..] == steps[1..] + [step];
      TallyThenStep(cfg, steps[1..], step);
    }
  }

  function Rank(p: Phase): nat {
    match p
    case Received(_) => 7
    case Loaded(_) => 6
    case Starved(_) => 5
    case Leased(_, _, _) => 4
    case Stored(_, _, _) => 3
    case Settled(_, _) => 1
    case Idle => 0
    case _ => 2
  }

  // What working off one slot leaves alone.
  ghost predicate Spares(s: State, t: State, w: nat) {
    && |t.slots| == |s.slots| && t.unfetchable == s.unfetchable
    && (forall m | m in s.main :: m in t.main) && (forall m | m in s.retry :: m in t.retry)
    && (forall v | 0 <= v < |s.slots| && v != w :: t.slots[v] == s.slots[v])
  }

  lemma MoveSpares(cfg: Config, s: State, w: nat)
    requires w < |s.slots| && Enabled(cfg, s, NextMove(cfg, s, w)) && !s.slots[w].Idle? && !s.slots[w].Serving?
    ensures Spares(s, Next(cfg, s, NextMove(cfg, s, w)), w)
  {
  }

  lemma MoveLowersRank(cfg: Config, s: State, w: nat)
    requires w < |s.slots| && Enabled(cfg, s, NextMove(cfg, s, w)) && !s.slots[w].Idle? && !s.slots[w].Serving?
    ensures !IsFault(NextMove(cfg, s, w))
    ensures var t := Next(cfg, s, NextMove(cfg, s, w)); |t.slots| == |s.slots| && Rank(t.slots[w]) < Rank(s.slots[w])
  {
  }

  /** A worker can finish what it is doing. */
  lemma {:induction false} Drain(cfg: Config, s0: State, s: State, w: nat) returns (t: State)
    requires Leads(cfg, s0, s) && RolesKept(cfg, s) && w < cfg.workers && w < |s.slots|
    ensures Leads(cfg, s0, t) && Spares(s, t, w) && t.slots[w].Idle?
    decreases Rank(s.slots[w])
  {
    if s.slots[w].Idle? {
      t := s;
    } else {
      SomeWorkForBusySlot(cfg, s, w);
      MoveLowersRank(cfg, s, w);
      MoveSpares(cfg, s, w);
      RolesStayKept(cfg, s, NextMove(cfg, s, w));
      LeadsOn(cfg, s0, s, NextMove(cfg, s, w));
      t := Drain(cfg, s0, Next(cfg, s, NextMove(cfg, s, w)), w);
    }
  }

  // -- resolving one submission -----------------------------------------------------------------------

  lemma FinishMarked(cfg: Config, s0: State, s: State, w: nat) returns (t: State)
    requires Leads(cfg, s0, s) && w < |s.slots| && (s.slots[w].Stored? || s.slots[w].Marked?)
    ensures Leads(cfg, s0, t) && Resolved(t.hist, s.slots[w].m.sub)
  {
    LeadsOn(cfg, s0, s, Ack(w));
    t := Next(cfg, s, Ack(w));
  }

  lemma FinishLeased(cfg: Config, s0: State, s: State, w: nat) returns (t: State)
    requires Leads(cfg, s0, s) && w < |s.slots| && s.slots[w].Leased?
    ensures Leads(cfg, s0, t) && Resolved(t.hist, s.slots[w].m.sub)
  {
    var store := Store(w, ALL_WELL);
    LeadsOn(cfg, s0, s, store);
    t := FinishMarked(cfg, s0, Next(cfg, s, store), w);
  }

  // A new container is created and used.
  lemma FinishLoaded(cfg: Config, s0: State, s: State, w: nat) returns (t: State)
    requires Leads(cfg, s0, s) && w < |s.slots| && s.slots[w].Loaded?
    ensures Leads(cfg, s0, t) && Resolved(t.hist, s.slots[w].m.sub)
  {
    LeadsOn(cfg, s0, s, PoolGrows);
    var u := Next(cfg, s, PoolGrows);
    var acquire := Acquire(w, s.pool.created);
    LeadsOn(cfg, s0, u, acquire);
    t := FinishLeased(cfg, s0, Next(cfg, u, acquire), w);
  }

  lemma FinishStarved(cfg: Config, s0: State, s: State, w: nat) returns (t: State)
    requires Leads(cfg, s0, s) && w < |s.slots| && s.slots[w].Starved? && s.slots[w].m.retryCount >= cfg.maxRetries
    ensures Leads(cfg, s0, t) && Resolved(t.hist, s.slots[w].m.sub)
  {
    LeadsOn(cfg, s0, s, MarkFailed(w));
    t := FinishMarked(cfg, s0, Next(cfg, s, MarkFailed(w)), w);
  }

  lemma FinishReceived(cfg: Config, s0: State, s: State, w: nat) returns (t: State)
    requires Leads(cfg, s0, s) && w < |s.slots| && s.slots[w].Received? && !Doomed(s, s.slots[w].m.sub)
    ensures Leads(cfg, s0, t) && Resolved(t.hist, s.slots[w].m.sub)
  {
    if s.slots[w].m.sub.decodes {
      LeadsOn(cfg, s0, s, Load(w));
      t := FinishLoaded(cfg, s0, Next(cfg, s, Load(w)), w);
    } else {
      LeadsOn(cfg, s0, s, Reject(w));
      t := Next(cfg, s, Reject(w));
    }
  }

  lemma FinishMain(cfg: Config, s0: State, s: State, w: nat, m: Message) returns (t: State)
    requires Leads(cfg, s0, s) && m in s.main && !Doomed(s, m.sub)
    requires w < cfg.workers && w < |s.slots| && s.slots[w].Idle?
    ensures Leads(cfg, s0, t) && Resolved(t.hist, m.sub)
  {
    var i: nat :| i < |s.main| && s.main[i] == m;
    LeadsOn(cfg, s0, s, Deliver(w, i));
    t := FinishReceived(cfg, s0, Next(cfg, s, Deliver(w, i)), w);
  }

  lemma FinishQueued(cfg: Config, s0: State, s: State, w: nat, m: Message) returns (t: State)
    requires Leads(cfg, s0, s) && (m in s.main || m in s.retry) && !Doomed(s, m.sub)
    requires w < cfg.workers && w < |s.slots| && s.slots[w].Idle?
    ensures Leads(cfg, s0, t) && Resolved(t.hist, m.sub)
  {
    if m in s.main {
      t := FinishMain(cfg, s0, s, w, m);
    } else {
      var i: nat :| i < |s.retry| && s.retry[i] == m;
      LeadsOn(cfg, s0, s, RetryExpires(i, 0));
      t := FinishMain(cfg, s0, Next(cfg, s, RetryExpires(i, 0)), w, m);
    }
  }

  // Short of a container again: the copy in the retry queue is the one to resolve.
  lemma FinishRepublished(cfg: Config, s0: State, s: State, w: nat) returns (t: State)
    requires Leads(cfg, s0, s) && w < cfg.workers && w < |s.slots| && s.slots[w].Starved?
    requires s.slots[w].m.retryCount < cfg.maxRetries && !Doomed(s, s.slots[w].m.sub)
    ensures Leads(cfg, s0, t) && Resolved(t.hist, s.slots[w].m.sub)
  {
    var m := s.slots[w].m;
    var copy := m.(retryCount := m.retryCount + 1);
    LeadsOn(cfg, s0, s, Republish(w, 0, true));
    var u := Next(cfg, s, Republish(w, 0, true));
    assert copy in u.retry;
    LeadsOn(cfg, s0, u, Ack(w));
    var v := Next(cfg, u, Ack(w));
    assert v.slots[w].Idle?;
    t := FinishQueued(cfg, s0, v, w, copy);
  }

  lemma FinishSlot(cfg: Config, s: State, w: nat) returns (t: State)
    requires Leads(cfg, s, s) && RolesKept(cfg, s) && w < |s.slots| && HasMessage(s.slots[w]) && !s.slots[w].Republished?
    requires !Doomed(s, s.slots[w].m.sub) || !BackToQueue(cfg, s.slots[w])
    ensures Leads(cfg, s, t) && Resolved(t.hist, s.slots[w].m.sub)
  {
    match s.slots[w]
    case Received(_) => t := FinishReceived(cfg, s, s, w);
    case Loaded(_) => t := FinishLoaded(cfg, s, s, w);
    case Starved(m) =>
      if m.retryCount >= cfg.maxRetries {
        t := FinishStarved(cfg, s, s, w);
      } else {
        t := FinishRepublished(cfg, s, s, w);
      }
    case Leased(_, _, _) => t := FinishLeased(cfg, s, s, w);
    case _ => t := FinishMarked(cfg, s, s, w);
  }

  lemma FinishUnstuck(cfg: Config, s: State, sub: Submission) returns (t: State)
    requires Leads(cfg, s, s) && RolesKept(cfg, s) && cfg.workers > 0 && |s.slots| > 0
    requires HasCopy(s, sub) && !Resolved(s.hist, sub) && !Stuck(cfg, s, sub)
    ensures Leads(cfg, s, t) && Resolved(t.hist, sub)
  {
    if Doomed(s, sub) {
      var w :| 0 <= w < |s.slots| && HasMessage(s.slots[w]) && s.slots[w].m.sub == sub && !BackToQueue(cfg, s.slots[w]);
      t := FinishSlot(cfg, s, w);
    } else if InFlight(s.slots, sub) {
      var w :| 0 <= w < |s.slots| && Carries(s.slots[w], sub);
      t := FinishSlot(cfg, s, w);
    } else {
      var m :| (m in s.main || m in s.retry) && m.sub == sub;
      var u := Drain(cfg, s, s, 0);
      t := FinishQueued(cfg, s, u, 0, m);
    }
  }

  lemma Resolve(cfg: Config, s: State, sub: Submission) returns (t: State)
    requires Reachable(cfg, s) && sub in s.hist.published && cfg.workers > 0 && |s.slots| > 0 && !Stuck(cfg, s, sub)
    ensures Leads(cfg, s, t) && Resolved(t.hist, sub)
  {
    LeadsToItself(cfg, s);
    t := s;
    if !Resolved(s.hist, sub) {
      var init, steps :| Initial(init) && Run(cfg, init, steps, s);
      RunKeepsRoles(cfg, init, steps, s);
      NoSubmissionIsLost(cfg, s, sub);
      t := FinishUnstuck(cfg, s, sub);
    }
  }

  lemma LeadsToItself(cfg: Config, s: State)
    ensures Leads(cfg, s, s)
  {
    assert Run(cfg, s, [], s) && Tally(cfg, [], Fault) == 0;
  }

  /** Some run resolves the submission. */
  ghost predicate Resolvable(cfg: Config, s: State, sub: Submission) {
    exists steps, t :: Run(cfg, s, steps, t) && Resolved(t.hist, sub)
  }

  /** Some run without faults does. */
  ghost predicate EasilyResolvable(cfg: Config, s: State, sub: Submission) {
    exists t :: Leads(cfg, s, t) && Resolved(t.hist, sub)
  }

  /** From every reachable state, a published submission can be resolved, and then without any fault,
      exactly when it is not stuck. */
  lemma ResolvableIff(cfg: Config, s: State, sub: Submission)
    requires Reachable(cfg, s) && sub in s.hist.published && cfg.workers > 0 && |s.slots| > 0
    ensures Resolvable(cfg, s, sub) <==> !Stuck(cfg, s, sub)
    ensures EasilyResolvable(cfg, s, sub) <==> !Stuck(cfg, s, sub)
  {
    if Stuck(cfg, s, sub) {
      forall steps, t | Run(cfg, s, steps, t) ensures !Resolved(t.hist, sub) {
        StuckForEver(cfg, s, steps, t, sub);
      }
    } else {
      var t := Resolve(cfg, s, sub);
    }
  }

  /** Such a submission exists: published for a problem that is deleted before it is delivered. */
  lemma SomeSubmissionIsStuck(cfg: Config) returns (s: State, sub: Submission)
    requires cfg.workers > 0
    ensures Reachable(cfg, s) && sub in s.hist.published && Stuck(cfg, s, sub)
  {
    sub := Submission("s", "p", true);
    s := ReachDelivered(cfg, sub);
    s := ReachNext(cfg, s, SpoilProblem("p"));
  }
}
