/** Containers in the worker protocol: each lease ends once, no container is shared, and nothing worn out,
    and nothing poisoned but in the blind spots, goes back to the pool. */
module Leases {
  import opened Options
  import opened Discard
  import opened Errors
  import opened Judge

  ghost predicate Holds(slots: seq<Phase>, w: nat, c: Container) {
    w < |slots| && HasContainer(slots[w]) && slots[w].c == c
  }

  /** Available, in-use and removed containers partition those ever created. */
  ghost predicate Partitioned(p: Pool) {
    && p.available !! p.inUse && p.available !! p.removed && p.inUse !! p.removed
    && (forall c: nat :: c in p.available || c in p.inUse || c in p.removed <==> c < p.created)
    && (forall c: nat :: c in p.uses <==> c < p.created)
    && (forall c | c in p.tainted :: c < p.created)
  }

  /** The containers in use are those held by some slot, and no two slots hold the same one. */
  ghost predicate HeldOnce(s: State) {
    && (forall w: nat, c: nat | Holds(s.slots, w, c) :: c in s.pool.inUse)
    && (forall c | c in s.pool.inUse :: exists w: nat :: Holds(s.slots, w, c))
    && (forall w: nat, v: nat, c: nat | Holds(s.slots, w, c) && Holds(s.slots, v, c) :: w == v)
  }

  // Used as often as allowed, or poisoned in a way the code notices.
  predicate WornOut(cfg: Config, p: Pool, c: Container) {
    (c in p.uses && p.uses[c] >= cfg.maxExecutions) || (c in p.tainted && c !in p.missed)
  }

  /** Available containers are fit for use; a held one that is not has its discard flag up. */
  ghost predicate FitToServe(cfg: Config, s: State) {
    && s.pool.missed <= s.pool.tainted
    && (forall c | c in s.pool.available :: !WornOut(cfg, s.pool, c))
    && WornAreFlagged(cfg, s)
  }

  ghost predicate WornAreFlagged(cfg: Config, s: State) {
    forall w: nat, c: nat | Holds(s.slots, w, c) && WornOut(cfg, s.pool, c) :: s.slots[w].discard
  }

  /** Every lease handed out has ended, was lost in a crash, or is the one still running. */
  ghost predicate LedgerBalances(s: State) {
    forall c: nat :: s.hist.granted[c] == s.hist.ended[c] + s.hist.abandoned[c] + if c in s.pool.inUse then 1 else 0
  }

  ghost predicate LeasesOk(cfg: Config, s: State) {
    Partitioned(s.pool) && HeldOnce(s) && FitToServe(cfg, s) && LedgerBalances(s)
  }

  // -- the kinds of steps -------------------------------------------------------------------------------

  predicate Takes(step: Step) {
    step.Acquire? || step.HttpAcquire?
  }

  predicate Uses(step: Step) {
    step.Store? || step.RunRejected? || step.HttpRun?
  }

  /** Steps that may create or remove containers no slot holds, or all of them. */
  predicate Resizes(step: Step) {
    step.PoolGrows? || step.PoolShrinks? || step.Crash?
  }

  /** Steps that leave pool and leases alone. */
  predicate Bypasses(step: Step) {
    !Takes(step) && !Uses(step) && !Resizes(step) && !step.Finish?
  }

  // The same slots hold the same containers, marked or not as before.
  ghost predicate SameLeases(s: State, t: State) {
    && t.pool == s.pool && |t.slots| == |s.slots|
    && t.hist.granted == s.hist.granted && t.hist.ended == s.hist.ended && t.hist.abandoned == s.hist.abandoned
    && forall w | 0 <= w < |s.slots| ::
         && HasContainer(t.slots[w]) == HasContainer(s.slots[w])
         && (HasContainer(s.slots[w]) ==> t.slots[w].c == s.slots[w].c && t.slots[w].discard == s.slots[w].discard)
  }

  lemma BypassKeepsLeases(cfg: Config, s: State, step: Step)
    requires Enabled(cfg, s, step) && Bypasses(step)
    ensures SameLeases(s, Next(cfg, s, step))
  {
  }

  lemma SameLeasesSameHolders(s: State, t: State)
    requires SameLeases(s, t)
    ensures forall w: nat, c: nat :: Holds(t.slots, w, c) <==> Holds(s.slots, w, c)
  {
  }

  lemma BypassKeepsInvariants(cfg: Config, s: State, step: Step)
    requires Enabled(cfg, s, step) && Bypasses(step)
    ensures var t := Next(cfg, s, step);
      && (Partitioned(s.pool) ==> Partitioned(t.pool)) && (HeldOnce(s) ==> HeldOnce(t))
      && (FitToServe(cfg, s) ==> FitToServe(cfg, t)) && (LedgerBalances(s) ==> LedgerBalances(t))
  {
    BypassKeepsLeases(cfg, s, step);
    SameLeasesSameHolders(s, Next(cfg, s, step));
  }

  // What the other steps do to the slots: one of them changes, or all are emptied.
  lemma OthersHold(cfg: Config, s: State, step: Step)
    requires Enabled(cfg, s, step) && (Takes(step) || Uses(step) || step.Finish?)
    ensures var t := Next(cfg, s, step);
      && |t.slots| == |s.slots|
      && (forall v: nat, c: nat | v != step.w :: Holds(t.slots, v, c) <==> Holds(s.slots, v, c))
      && (forall v | 0 <= v < |s.slots| && v != step.w :: t.slots[v] == s.slots[v])
  {
  }

  // -- what every step keeps ------------------------------------------------------------------------------

  lemma PoolStaysPartitioned(cfg: Config, s: State, step: Step)
    requires Partitioned(s.pool) && HeldOnce(s) && Enabled(cfg, s, step)
    ensures Partitioned(Next(cfg, s, step).pool)
  {
    if Bypasses(step) {
      BypassKeepsInvariants(cfg, s, step);
    } else if Takes(step) || Resizes(step) {
      TakingKeepsPartition(cfg, s, step);
    } else {
      UsingKeepsPartition(cfg, s, step);
    }
  }

  lemma TakingKeepsPartition(cfg: Config, s: State, step: Step)
    requires Partitioned(s.pool) && Enabled(cfg, s, step) && (Takes(step) || Resizes(step))
    ensures Partitioned(Next(cfg, s, step).pool)
  {
  }

  lemma UsingKeepsPartition(cfg: Config, s: State, step: Step)
    requires Partitioned(s.pool) && HeldOnce(s) && Enabled(cfg, s, step) && (Uses(step) || step.Finish?)
    ensures Partitioned(Next(cfg, s, step).pool)
  {
    assert Holds(s.slots, step.w, s.slots[step.w].c);
  }

  lemma ContainersStayHeldOnce(cfg: Config, s: State, step: Step)
    requires Partitioned(s.pool) && HeldOnce(s) && Enabled(cfg, s, step)
    ensures HeldOnce(Next(cfg, s, step))
  {
    if Bypasses(step) {
      BypassKeepsInvariants(cfg, s, step);
    } else if Resizes(step) {
      ResizingKeepsHeldOnce(cfg, s, step);
    } else if Takes(step) {
      TakingKeepsHeldOnce(cfg, s, step);
    } else {
      UsingKeepsHeldOnce(cfg, s, step);
    }
  }

  lemma ResizingKeepsHeldOnce(cfg: Config, s: State, step: Step)
    requires Partitioned(s.pool) && HeldOnce(s) && Enabled(cfg, s, step) && Resizes(step)
    ensures HeldOnce(Next(cfg, s, step))
  {
  }

  lemma TakingKeepsHeldOnce(cfg: Config, s: State, step: Step)
    requires Partitioned(s.pool) && HeldOnce(s) && Enabled(cfg, s, step) && Takes(step)
    ensures HeldOnce(Next(cfg, s, step))
  {
    var t := Next(cfg, s, step);
    OthersHold(cfg, s, step);
    assert Holds(t.slots, step.w, step.c) && !HasContainer(s.slots[step.w]);
  }

  lemma UsingKeepsHeldOnce(cfg: Config, s: State, step: Step)
    requires Partitioned(s.pool) && HeldOnce(s) && Enabled(cfg, s, step) && (Uses(step) || step.Finish?)
    ensures HeldOnce(Next(cfg, s, step))
  {
    var t := Next(cfg, s, step);
    OthersHold(cfg, s, step);
    assert Holds(s.slots, step.w, s.slots[step.w].c);
    if Uses(step) {
      assert Holds(t.slots, step.w, s.slots[step.w].c);
    }
  }

  lemma OnlyFitContainersReturn(cfg: Config, s: State, step: Step)
    requires cfg.maxExecutions > 0
    requires Partitioned(s.pool) && HeldOnce(s) && FitToServe(cfg, s) && Enabled(cfg, s, step)
    ensures FitToServe(cfg, Next(cfg, s, step))
  {
    if Bypasses(step) {
      BypassKeepsInvariants(cfg, s, step);
    } else {
      AvailableStayFit(cfg, s, step);
      WornHeldAreFlagged(cfg, s, step);
    }
  }

  lemma AvailableStayFit(cfg: Config, s: State, step: Step)
    requires cfg.maxExecutions > 0 && !Bypasses(step)
    requires Partitioned(s.pool) && HeldOnce(s) && FitToServe(cfg, s) && Enabled(cfg, s, step)
    ensures var p := Next(cfg, s, step).pool; p.missed <= p.tainted && forall c | c in p.available :: !WornOut(cfg, p, c)
  {
    if Uses(step) || step.Finish? {
      assert Holds(s.slots, step.w, s.slots[step.w].c);
    }
  }

  lemma WornHeldAreFlagged(cfg: Config, s: State, step: Step)
    requires Partitioned(s.pool) && HeldOnce(s) && FitToServe(cfg, s) && Enabled(cfg, s, step) && !Bypasses(step)
    ensures WornAreFlagged(cfg, Next(cfg, s, step))
  {
    if Resizes(step) {
      ResizingKeepsFlags(cfg, s, step);
    } else if Uses(step) {
      UsingKeepsFlags(cfg, s, step);
    } else {
      TakingKeepsFlags(cfg, s, step);
    }
  }

  lemma ResizingKeepsFlags(cfg: Config, s: State, step: Step)
    requires Partitioned(s.pool) && HeldOnce(s) && FitToServe(cfg, s) && Enabled(cfg, s, step) && Resizes(step)
    ensures WornAreFlagged(cfg, Next(cfg, s, step))
  {
  }

  lemma UsingKeepsFlags(cfg: Config, s: State, step: Step)
    requires HeldOnce(s) && FitToServe(cfg, s) && Enabled(cfg, s, step) && Uses(step)
    ensures WornAreFlagged(cfg, Next(cfg, s, step))
  {
    OthersHold(cfg, s, step);
    assert Holds(s.slots, step.w, s.slots[step.w].c);
    if Poisonous(step.o) {
      PoisonIsOverlookedIff(step.o);
    }
  }

  lemma TakingKeepsFlags(cfg: Config, s: State, step: Step)
    requires Partitioned(s.pool) && HeldOnce(s) && FitToServe(cfg, s) && Enabled(cfg, s, step)
    requires Takes(step) || step.Finish?
    ensures WornAreFlagged(cfg, Next(cfg, s, step))
  {
    OthersHold(cfg, s, step);
    if step.Finish? {
      assert Holds(s.slots, step.w, s.slots[step.w].c);
    }
  }

  lemma LedgerStaysBalanced(cfg: Config, s: State, step: Step)
    requires Partitioned(s.pool) && HeldOnce(s) && LedgerBalances(s) && Enabled(cfg, s, step)
    ensures LedgerBalances(Next(cfg, s, step))
  {
    if Bypasses(step) {
      BypassKeepsInvariants(cfg, s, step);
    } else if Resizes(step) {
      ResizingKeepsBalance(cfg, s, step);
    } else if Takes(step) {
      TakingKeepsBalance(cfg, s, step);
    } else {
      UsingKeepsBalance(cfg, s, step);
    }
  }

  lemma ResizingKeepsBalance(cfg: Config, s: State, step: Step)
    requires Partitioned(s.pool) && LedgerBalances(s) && Enabled(cfg, s, step) && Resizes(step)
    ensures LedgerBalances(Next(cfg, s, step))
  {
  }

  lemma TakingKeepsBalance(cfg: Config, s: State, step: Step)
    requires Partitioned(s.pool) && LedgerBalances(s) && Enabled(cfg, s, step) && Takes(step)
    ensures LedgerBalances(Next(cfg, s, step))
  {
  }

  lemma UsingKeepsBalance(cfg: Config, s: State, step: Step)
    requires Partitioned(s.pool) && HeldOnce(s) && LedgerBalances(s) && Enabled(cfg, s, step)
    requires Uses(step) || step.Finish?
    ensures LedgerBalances(Next(cfg, s, step))
  {
    if step.Finish? {
      FinishKeepsBalance(cfg, s, step);
    }
  }

  lemma FinishKeepsBalance(cfg: Config, s: State, step: Step)
    requires Partitioned(s.pool) && HeldOnce(s) && LedgerBalances(s) && Enabled(cfg, s, step) && step.Finish?
    ensures LedgerBalances(Next(cfg, s, step))
  {
    assert Holds(s.slots, step.w, s.slots[step.w].c);
  }

  lemma {:induction false} RunKeepsLeases(cfg: Config, s: State, steps: seq<Step>, t: State)
    requires cfg.maxExecutions > 0 && LeasesOk(cfg, s) && Run(cfg, s, steps, t)
    ensures LeasesOk(cfg, t)
    decreases |steps|
  {
    if steps == [] {
    } else {
      PoolStaysPartitioned(cfg, s, steps[0]);
      ContainersStayHeldOnce(cfg, s, steps[0]);
      OnlyFitContainersReturn(cfg, s, steps[0]);
      LedgerStaysBalanced(cfg, s, steps[0]);
      RunKeepsLeases(cfg, Next(cfg, s, steps[0]), steps[1..], t);
    }
  }

  /** In every reachable state, across all interleavings of queue workers and HTTP requests. */
  lemma LeasesAreSound(cfg: Config, s: State)
    requires cfg.maxExecutions > 0 && Reachable(cfg, s)
    ensures LeasesOk(cfg, s)
  {
    var init, steps :| Initial(init) && Run(cfg, init, steps, s);
    RunKeepsLeases(cfg, init, steps, s);
  }

  /** A container that may be handed out has been used less often than allowed, and its last use was
      poisonous exactly when that was overlooked. */
  lemma AvailableIsFit(cfg: Config, s: State, c: Container)
    requires cfg.maxExecutions > 0 && Reachable(cfg, s) && c in s.pool.available
    ensures c in s.pool.uses && s.pool.uses[c] < cfg.maxExecutions
    ensures c in s.pool.tainted <==> c in s.pool.missed
  {
    LeasesAreSound(cfg, s);
  }

  ghost predicate Spoiled(s: State, c: Container) {
    c in s.pool.available && c in s.pool.tainted
  }

  /** And then it does happen: from every reachable state in which a worker holds a container not yet
      marked, such an outcome leads to that container being available all the same. */
  lemma OverlookedContainerReturns(cfg: Config, s: State, w: nat, o: Outcome) returns (t: State)
    requires Reachable(cfg, s) && w < |s.slots| && s.slots[w].Leased? && !s.slots[w].discard
    requires Poisonous(o) && Overlooked(o)
    ensures Reachable(cfg, t) && Spoiled(t, s.slots[w].c)
  {
    PoisonIsOverlookedIff(o);
    var c := s.slots[w].c;
    if o.Central? && o.run.NotSetUp? {
      t := ReachNext(cfg, s, RunRejected(w, o));
    } else {
      t := ReachNext(cfg, s, Store(w, o));
      assert t.slots[w] == Stored(s.slots[w].m, c, false) && c in t.pool.tainted;
      t := ReachNext(cfg, t, Ack(w));
    }
    assert t.slots[w] == Settled(c, false) && c in t.pool.tainted;
    t := ReachNext(cfg, t, Finish(w, false, false));
  }

  /** Such states exist. */
  lemma SomeContainerIsUnmarked(cfg: Config) returns (s: State)
    requires cfg.workers > 0 && cfg.maxExecutions > 1
    ensures Reachable(cfg, s) && |s.slots| > 0 && s.slots[0].Leased? && !s.slots[0].discard
  {
    s := ReachLeased(cfg, Submission("s", "p", true));
  }

  /** So a container is available again after an exec in it could not be started, on either path, and after
      a batch in it ran out of time. */
  lemma SomeContainerIsOverlooked(cfg: Config) returns (unstarted: State, late: State)
    requires cfg.workers > 0 && cfg.maxExecutions > 1
    ensures Reachable(cfg, unstarted) && Spoiled(unstarted, 0)
    ensures Reachable(cfg, late) && Spoiled(late, 0)
  {
    var s := ReachLeased(cfg, Submission("s", "p", true));
    var failed := Legacy(Some(Other(FAILED_EXEC)), Nothing, false);
    FailedExecIsOverlooked(failed);
    unstarted := OverlookedContainerReturns(cfg, s, 0, failed);
    var timedOut := SomeTimeoutIsLate();
    late := OverlookedContainerReturns(cfg, s, 0, timedOut);
  }

  /** When nobody holds a container and the process never died, every lease that was handed out was
      ended by exactly one Release or Discard. */
  lemma QuietMeansAllReturned(cfg: Config, s: State)
    requires cfg.maxExecutions > 0 && Reachable(cfg, s)
    requires s.hist.abandoned == multiset{} && forall w | 0 <= w < |s.slots| :: !HasContainer(s.slots[w])
    ensures s.hist.granted == s.hist.ended && s.pool.inUse == {}
  {
    LeasesAreSound(cfg, s);
    assert forall w: nat, c: nat :: !Holds(s.slots, w, c);
    assert s.pool.inUse == {};
    forall c: nat ensures s.hist.granted[c] == s.hist.ended[c] {
    }
  }
}
