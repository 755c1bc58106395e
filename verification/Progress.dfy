/** How much work the worker protocol can do. Retries are counted, so as long as the problems of all
    submissions can be fetched, a run without new faults runs out of work, and then everything is resolved.
    But a delivery whose problem cannot be fetched is put back uncounted, and goes round for ever. */
module Progress {
  import opened Options
  import opened Discard
  import opened Judge
  import opened Matching

  /** What can go wrong, or be undone, on the way. */
  predicate IsFault(step: Step) {
    || step.DatabaseDown? || step.PublishFails? || step.WorkspaceFails? || step.Crash?
    || (step.Republish? && !step.marshalled)
  }

  /** Requests and pool maintenance, which run beside the queue for ever. */
  predicate IsBackground(cfg: Config, step: Step) {
    || step.HttpAcquire? || step.HttpRun? || step.PoolGrows? || step.PoolShrinks? || step.SpoilProblem?
    || (step.Finish? && step.w >= cfg.workers)
  }

  /** A step that handles some delivery. */
  predicate IsWork(cfg: Config, step: Step) {
    !step.Publish? && !IsFault(step) && !IsBackground(cfg, step)
  }

  /** Only HTTP slots serve requests, and only queue slots handle deliveries. */
  predicate RolesKept(cfg: Config, s: State) {
    forall w | 0 <= w < |s.slots| :: if w < cfg.workers then !s.slots[w].Serving? else s.slots[w].Idle? || s.slots[w].Serving?
  }

  lemma RolesStayKept(cfg: Config, s: State, step: Step)
    requires RolesKept(cfg, s) && Enabled(cfg, s, step)
    ensures RolesKept(cfg, Next(cfg, s, step))
  {
  }

  // -- the measure ------------------------------------------------------------------------------------

  function Left(cfg: Config, m: Message): nat {
    if m.retryCount <= cfg.maxRetries then 10 * (cfg.maxRetries - m.retryCount) else 0
  }

  function QueueEffort(cfg: Config, q: seq<Message>, each: nat): nat {
    if q == [] then 0 else Left(cfg, q[0]) + each + QueueEffort(cfg, q[1..], each)
  }

  function PhaseEffort(cfg: Config, p: Phase): nat {
    match p
    case Received(m) => Left(cfg, m) + 8
    case Loaded(m) => Left(cfg, m) + 7
    case Starved(m) => Left(cfg, m) + 6
    case Leased(m, _, _) => Left(cfg, m) + 6
    case Stored(_, _, _) => 3
    case Marked(_) => 2
    case Republished(_) => 2
    case Settled(_, _) => 1
    case _ => 0
  }

  function SlotEffort(cfg: Config, slots: seq<Phase>): nat {
    if slots == [] then 0 else PhaseEffort(cfg, slots[0]) + SlotEffort(cfg, slots[1..])
  }

  /** An upper bound on the work still to be done if nothing goes wrong. */
  function Effort(cfg: Config, s: State): nat {
    QueueEffort(cfg, s.main, 9) + QueueEffort(cfg, s.retry, 10) + SlotEffort(cfg, s.slots)
  }

  lemma {:induction false} QueueEffortAppends(cfg: Config, q: seq<Message>, r: seq<Message>, each: nat)
    ensures QueueEffort(cfg, q + r, each) == QueueEffort(cfg, q, each) + QueueEffort(cfg, r, each)
  {
    if q == [] {
      assert q + r == r;
    } else {
      assert (q + r)[1..] == q[1..] + r;
      QueueEffortAppends(cfg, q[1..], r, each);
    }
  }

  lemma InsertEffort(cfg: Config, q: seq<Message>, at: nat, m: Message, each: nat)
    requires at <= |q|
    ensures QueueEffort(cfg, InsertAt(q, at, m), each) == QueueEffort(cfg, q, each) + Left(cfg, m) + each
  {
    assert q == q[..at] + q[at..];
    QueueEffortAppends(cfg, q[..at], q[at..], each);
    QueueEffortAppends(cfg, q[..at], [m] + q[at..], each);
    assert InsertAt(q, at, m) == q[..at] + ([m] + q[at..]);
  }

  lemma RemoveEffort(cfg: Config, q: seq<Message>, i: nat, each: nat)
    requires i < |q|
    ensures QueueEffort(cfg, q, each) == QueueEffort(cfg, RemoveAt(q, i), each) + Left(cfg, q[i]) + each
  {
    InsertEffort(cfg, RemoveAt(q, i), i, q[i], each);
    assert InsertAt(RemoveAt(q, i), i, q[i]) == q;
  }

  lemma {:induction false} SlotChange(cfg: Config, slots: seq<Phase>, w: nat, p: Phase)
    requires w < |slots|
    ensures SlotEffort(cfg, slots[w := p]) + PhaseEffort(cfg, slots[w]) == SlotEffort(cfg, slots) + PhaseEffort(cfg, p)
  {
    if w == 0 {
      assert slots[w := p][1..] == slots[1..];
    } else {
      assert slots[w := p][1..] == slots[1..][w - 1 := p];
      SlotChange(cfg, slots[1..], w - 1, p);
    }
  }

  // The most one message can cost.
  function MostPerMessage(cfg: Config): nat {
    10 * cfg.maxRetries + 10
  }

  lemma {:induction false} CrashEffort(cfg: Config, slots: seq<Phase>)
    ensures QueueEffort(cfg, Unacknowledged(slots), 9) <= |slots| * MostPerMessage(cfg)
    ensures SlotEffort(cfg, seq(|slots|, _ => Idle)) == 0
  {
    if slots == [] {
    } else {
      CrashEffort(cfg, slots[1..]);
      assert seq(|slots|, _ => Idle)[1..] == seq(|slots| - 1, _ => Idle);
      var rest := Unacknowledged(slots[1..]);
      if HasMessage(slots[0]) {
        assert ([slots[0].m] + rest)[1..] == rest;
      }
      assert |slots| * MostPerMessage(cfg) == |slots[1..]| * MostPerMessage(cfg) + MostPerMessage(cfg);
    }
  }

  lemma PublishEffort(cfg: Config, s: State, sub: Submission)
    requires Enabled(cfg, s, Publish(sub))
    ensures Effort(cfg, Next(cfg, s, Publish(sub))) <= Effort(cfg, s) + MostPerMessage(cfg)
  {
    assert [Message(sub, 0)][1..] == [];
    QueueEffortAppends(cfg, s.main, [Message(sub, 0)], 9);
  }

  /** Every step of work but one kind brings a delivery nearer to its end. */
  lemma WorkLowersEffort(cfg: Config, s: State, step: Step)
    requires RolesKept(cfg, s) && Enabled(cfg, s, step) && IsWork(cfg, step) && !step.FetchFails?
    ensures Effort(cfg, Next(cfg, s, step)) < Effort(cfg, s)
  {
    if step.RetryExpires? || step.Deliver? || step.Republish? {
      MovingLowersEffort(cfg, s, step);
    } else {
      SlotWorkLowersEffort(cfg, s, step);
    }
  }

  lemma MovingLowersEffort(cfg: Config, s: State, step: Step)
    requires Enabled(cfg, s, step) && IsWork(cfg, step) && (step.RetryExpires? || step.Deliver? || step.Republish?)
    ensures Effort(cfg, Next(cfg, s, step)) < Effort(cfg, s)
  {
    if step.RetryExpires? {
      RemoveEffort(cfg, s.retry, step.i, 10);
      InsertEffort(cfg, s.main, step.at, s.retry[step.i], 9);
    } else if step.Deliver? {
      SlotChange(cfg, s.slots, step.w, Received(s.main[step.i]));
      RemoveEffort(cfg, s.main, step.i, 9);
    } else {
      var m := s.slots[step.w].m;
      SlotChange(cfg, s.slots, step.w, Republished(m));
      InsertEffort(cfg, s.retry, step.at, m.(retryCount := m.retryCount + 1), 10);
    }
  }

  lemma SlotWorkLowersEffort(cfg: Config, s: State, step: Step)
    requires RolesKept(cfg, s) && Enabled(cfg, s, step) && IsWork(cfg, step) && !step.FetchFails?
    requires !step.RetryExpires? && !step.Deliver? && !step.Republish?
    ensures Effort(cfg, Next(cfg, s, step)) < Effort(cfg, s)
  {
    var t := Next(cfg, s, step);
    SlotChange(cfg, s.slots, step.w, t.slots[step.w]);
    assert t.slots == s.slots[step.w := t.slots[step.w]];
  }

  lemma BackgroundKeepsEffort(cfg: Config, s: State, step: Step)
    requires RolesKept(cfg, s) && Enabled(cfg, s, step) && IsBackground(cfg, step)
    ensures Effort(cfg, Next(cfg, s, step)) == Effort(cfg, s)
  {
    var t := Next(cfg, s, step);
    if !step.PoolGrows? && !step.PoolShrinks? && !step.SpoilProblem? {
      SlotChange(cfg, s.slots, step.w, t.slots[step.w]);
      assert t.slots == s.slots[step.w := t.slots[step.w]];
    }
  }

  lemma RequeueEffort(cfg: Config, s: State, step: Step)
    requires Enabled(cfg, s, step) && IsFault(step) && !step.Crash?
    ensures Effort(cfg, Next(cfg, s, step)) <= Effort(cfg, s) + MostPerMessage(cfg)
  {
    var t := Next(cfg, s, step);
    SlotChange(cfg, s.slots, step.w, t.slots[step.w]);
    assert t.slots == s.slots[step.w := t.slots[step.w]];
    if step.Republish? {
      InsertEffort(cfg, s.retry, step.at, s.slots[step.w].m, 10);
    } else {
      InsertEffort(cfg, s.main, step.at, s.slots[step.w].m, 9);
    }
  }

  lemma FaultEffort(cfg: Config, s: State, step: Step)
    requires Enabled(cfg, s, step) && IsFault(step)
    ensures Effort(cfg, Next(cfg, s, step)) <= Effort(cfg, s) + |s.slots| * MostPerMessage(cfg)
  {
    if step.Crash? {
      CrashEffort(cfg, s.slots);
      QueueEffortAppends(cfg, s.main, Unacknowledged(s.slots), 9);
    } else {
      RequeueEffort(cfg, s, step);
      TimesAtLeastOne(|s.slots|, MostPerMessage(cfg));
    }
  }

  lemma TimesAtLeastOne(n: nat, k: nat)
    requires n > 0
    ensures n * k >= k
  {
  }

  // -- whole runs ---------------------------------------------------------------------------------------

  datatype Kind = Submitting | Fault | Background | Work

  function KindOf(cfg: Config, step: Step): Kind {
    if step.Publish? then Submitting
    else if IsFault(step) then Fault
    else if IsBackground(cfg, step) then Background
    else Work
  }

  function Tally(cfg: Config, steps: seq<Step>, kind: Kind): nat {
    if steps == [] then 0
    else (if KindOf(cfg, steps[0]) == kind then 1 else 0) + Tally(cfg, steps[1..], kind)
  }

  /** What a run may cost: one message's worth for each submission, and one for each slot and fault. */
  function Budget(cfg: Config, slots: nat, steps: seq<Step>): nat {
    Tally(cfg, steps, Submitting) * MostPerMessage(cfg) + Tally(cfg, steps, Fault) * (slots * MostPerMessage(cfg))
  }

  lemma StepFitsBudget(cfg: Config, s: State, step: Step)
    requires RolesKept(cfg, s) && Enabled(cfg, s, step) && !step.FetchFails?
    ensures var t := Next(cfg, s, step);
            (if KindOf(cfg, step) == Work then 1 else 0) + Effort(cfg, t) <= Effort(cfg, s) +
              match KindOf(cfg, step)
              case Submitting => MostPerMessage(cfg)
              case Fault => |s.slots| * MostPerMessage(cfg)
              case _ => 0
  {
    match KindOf(cfg, step)
    case Submitting => PublishEffort(cfg, s, step.sub);
    case Fault => FaultEffort(cfg, s, step);
    case Background => BackgroundKeepsEffort(cfg, s, step);
    case Work => WorkLowersEffort(cfg, s, step);
  }

  /** Every submission ever published names a problem that can be fetched, or does not even decode. */
  predicate NoneDoomed(s: State) {
    forall sub | sub in s.hist.published :: !Doomed(s, sub)
  }

  /** Only published submissions are on their way. */
  predicate CopiesPublished(s: State) {
    && (forall m | m in s.main :: m.sub in s.hist.published)
    && (forall m | m in s.retry :: m.sub in s.hist.published)
    && (forall w | 0 <= w < |s.slots| && HasMessage(s.slots[w]) :: s.slots[w].m.sub in s.hist.published)
  }

  lemma CopiesStayPublished(cfg: Config, s: State, step: Step)
    requires CopiesPublished(s) && Enabled(cfg, s, step)
    ensures CopiesPublished(Next(cfg, s, step))
  {
    if step.Crash? {
      CrashKeepsPublished(cfg, s);
    } else {
      QueuesStayPublished(cfg, s, step);
      SlotsStayPublished(cfg, s, step);
    }
  }

  lemma CrashKeepsPublished(cfg: Config, s: State)
    requires CopiesPublished(s)
    ensures CopiesPublished(Next(cfg, s, Crash))
  {
    forall m | m in Unacknowledged(s.slots) ensures m.sub in s.hist.published {
      UnacknowledgedComesFrom(s.slots, m);
    }
  }

  lemma QueuesStayPublished(cfg: Config, s: State, step: Step)
    requires CopiesPublished(s) && Enabled(cfg, s, step) && !step.Crash?
    ensures var t := Next(cfg, s, step);
      && (forall m | m in t.main :: m.sub in t.hist.published)
      && (forall m | m in t.retry :: m.sub in t.hist.published)
  {
  }

  lemma SlotsStayPublished(cfg: Config, s: State, step: Step)
    requires CopiesPublished(s) && Enabled(cfg, s, step) && !step.Crash?
    ensures var t := Next(cfg, s, step);
      forall w | 0 <= w < |t.slots| && HasMessage(t.slots[w]) :: t.slots[w].m.sub in t.hist.published
  {
  }

  lemma StepOnlyAdds(cfg: Config, s: State, step: Step)
    requires Enabled(cfg, s, step)
    ensures var t := Next(cfg, s, step);
      && |t.slots| == |s.slots| && s.unfetchable <= t.unfetchable
      && t.hist.published == s.hist.published + if step.Publish? then {step.sub} else {}
  {
  }

  lemma {:induction false} RunOnlyAdds(cfg: Config, s: State, steps: seq<Step>, t: State)
    requires Run(cfg, s, steps, t)
    ensures |t.slots| == |s.slots| && s.unfetchable <= t.unfetchable && s.hist.published <= t.hist.published
    decreases |steps|
  {
    if steps == [] {
    } else {
      StepOnlyAdds(cfg, s, steps[0]);
      RunOnlyAdds(cfg, Next(cfg, s, steps[0]), steps[1..], t);
    }
  }

  /** A run in which all problems can be fetched does no more work than its submissions and faults pay for,
      however its steps interleave: with finitely many of those it cannot go round for ever. */
  lemma {:induction false} RunFitsBudget(cfg: Config, s: State, steps: seq<Step>, t: State)
    requires RolesKept(cfg, s) && CopiesPublished(s) && Run(cfg, s, steps, t) && NoneDoomed(t)
    ensures Tally(cfg, steps, Work) + Effort(cfg, t) <= Effort(cfg, s) + Budget(cfg, |s.slots|, steps)
    decreases |steps|
  {
    if steps == [] {
    } else {
      var step, next := steps[0], Next(cfg, s, steps[0]);
      RunOnlyAdds(cfg, s, steps, t);
      assert !step.FetchFails?;
      StepFitsBudget(cfg, s, step);
      RolesStayKept(cfg, s, step);
      CopiesStayPublished(cfg, s, step);
      StepOnlyAdds(cfg, s, step);
      RunFitsBudget(cfg, next, steps[1..], t);
      BudgetUnrolls(cfg, |s.slots|, steps);
    }
  }

  lemma {:induction false} RunKeepsRoles(cfg: Config, s: State, steps: seq<Step>, t: State)
    requires RolesKept(cfg, s) && CopiesPublished(s) && Run(cfg, s, steps, t)
    ensures RolesKept(cfg, t) && CopiesPublished(t)
    decreases |steps|
  {
    if steps == [] {
    } else {
      RolesStayKept(cfg, s, steps[0]);
      CopiesStayPublished(cfg, s, steps[0]);
      RunKeepsRoles(cfg, Next(cfg, s, steps[0]), steps[1..], t);
    }
  }

  lemma BudgetUnrolls(cfg: Config, slots: nat, steps: seq<Step>)
    requires steps != []
    ensures Budget(cfg, slots, steps) == Budget(cfg, slots, steps[1..]) +
              match KindOf(cfg, steps[0])
              case Submitting => MostPerMessage(cfg)
              case Fault => slots * MostPerMessage(cfg)
              case _ => 0
  {
    Distribute(Tally(cfg, steps[1..], Submitting), MostPerMessage(cfg));
    Distribute(Tally(cfg, steps[1..], Fault), slots * MostPerMessage(cfg));
  }

  lemma Distribute(n: nat, k: nat)
    ensures (1 + n) * k == k + n * k
  {
  }

  lemma TotalWorkIsBounded(cfg: Config, init: State, steps: seq<Step>, t: State)
    requires Initial(init) && Run(cfg, init, steps, t) && NoneDoomed(t)
    ensures Tally(cfg, steps, Work) <= Budget(cfg, |init.slots|, steps)
  {
    RunFitsBudget(cfg, init, steps, t);
    IdleCostsNothing(cfg, init.slots);
  }

  lemma {:induction false} IdleCostsNothing(cfg: Config, slots: seq<Phase>)
    requires forall w | 0 <= w < |slots| :: slots[w].Idle?
    ensures SlotEffort(cfg, slots) == 0
  {
    if slots == [] {
    } else {
      IdleCostsNothing(cfg, slots[1..]);
    }
  }

  // -- the same, exactly --------------------------------------------------------------------------------

  /** No run from the start that publishes only `subs`, in which only problems in `unfetchable` cannot be fetched and
      at most `faults` faults happen, does more than `bound` steps of work. */
  ghost predicate WorkBoundedBy(cfg: Config, slots: nat, subs: set<Submission>, unfetchable: set<string>, faults: nat, bound: nat) {
    forall init, steps, t |
      && Initial(init) && |init.slots| == slots && Run(cfg, init, steps, t)
      && t.hist.published <= subs && t.unfetchable <= unfetchable && Tally(cfg, steps, Fault) <= faults ::
      Tally(cfg, steps, Work) <= bound
  }

  /** The work is bounded exactly when every submission's problem can be fetched. */
  lemma BoundedWorkIff(cfg: Config, slots: nat, subs: set<Submission>, unfetchable: set<string>, faults: nat)
    requires cfg.workers > 0 && slots > 0
    ensures (exists bound: nat :: WorkBoundedBy(cfg, slots, subs, unfetchable, faults, bound)) <==>
            forall sub | sub in subs :: !sub.decodes || sub.problem !in unfetchable
  {
    if forall sub | sub in subs :: !sub.decodes || sub.problem !in unfetchable {
      var bound := |subs| * MostPerMessage(cfg) + faults * (slots * MostPerMessage(cfg));
      forall init, steps, t |
        && Initial(init) && |init.slots| == slots && Run(cfg, init, steps, t)
        && t.hist.published <= subs && t.unfetchable <= unfetchable && Tally(cfg, steps, Fault) <= faults
        ensures Tally(cfg, steps, Work) <= bound
      {
        TotalWorkIsBounded(cfg, init, steps, t);
        EachPublishedOnce(cfg, init, steps, t);
        SubsetSize(t.hist.published, subs);
        TimesGrows(Tally(cfg, steps, Submitting), |subs|, MostPerMessage(cfg));
        TimesGrows(Tally(cfg, steps, Fault), faults, slots * MostPerMessage(cfg));
      }
      assert WorkBoundedBy(cfg, slots, subs, unfetchable, faults, bound);
    } else {
      var sub :| sub in subs && sub.decodes && sub.problem in unfetchable;
      forall bound: nat ensures !WorkBoundedBy(cfg, slots, subs, unfetchable, faults, bound) {
        var init, steps, t := UnboundedRun(cfg, slots, sub, unfetchable, bound);
      }
    }
  }

  lemma TimesGrows(x: nat, y: nat, k: nat)
    requires x <= y
    ensures x * k <= y * k
  {
  }

  lemma {:induction false} EachPublishedOnce(cfg: Config, s: State, steps: seq<Step>, t: State)
    requires Run(cfg, s, steps, t)
    ensures |t.hist.published| == |s.hist.published| + Tally(cfg, steps, Submitting)
    decreases |steps|
  {
    if steps == [] {
    } else {
      StepOnlyAdds(cfg, s, steps[0]);
      EachPublishedOnce(cfg, Next(cfg, s, steps[0]), steps[1..], t);
    }
  }

  // There and back.
  lemma OneRound(cfg: Config, s: State, w: nat, i: nat)
    requires w < cfg.workers && w < |s.slots| && s.slots[w].Idle?
    requires i < |s.main| && Doomed(s, s.main[i].sub)
    ensures Enabled(cfg, s, Deliver(w, i))
    ensures var t := Next(cfg, s, Deliver(w, i)); Enabled(cfg, t, FetchFails(w, i)) && Next(cfg, t, FetchFails(w, i)) == s
  {
    var t := Next(cfg, s, Deliver(w, i));
    assert InsertAt(RemoveAt(s.main, i), i, s.main[i]) == s.main && t.slots[w := Idle] == s.slots;
  }

  /** A worker that is free, and a message whose problem cannot be fetched: it can be delivered and put back
      any number of times. Nothing fails, nothing is counted, and nothing has changed. */
  lemma {:induction false} UnfetchableGoesRound(cfg: Config, s: State, w: nat, i: nat, rounds: nat) returns (steps: seq<Step>)
    requires w < cfg.workers && w < |s.slots| && s.slots[w].Idle?
    requires i < |s.main| && Doomed(s, s.main[i].sub)
    ensures Run(cfg, s, steps, s)
    ensures Tally(cfg, steps, Work) == 2 * rounds == |steps| && Tally(cfg, steps, Fault) == 0
    decreases rounds
  {
    steps := [];
    if rounds == 0 {
    } else {
      var rest := UnfetchableGoesRound(cfg, s, w, i, rounds - 1);
      var there, back := Deliver(w, i), FetchFails(w, i);
      OneRound(cfg, s, w, i);
      var t := Next(cfg, s, there);
      Prepend(cfg, t, back, s, rest, s);
      Prepend(cfg, s, there, t, [back] + rest, s);
      steps := [there] + ([back] + rest);
    }
  }

  lemma Prepend(cfg: Config, s: State, step: Step, t: State, steps: seq<Step>, u: State)
    requires Enabled(cfg, s, step) && t == Next(cfg, s, step) && Run(cfg, t, steps, u)
    ensures Run(cfg, s, [step] + steps, u)
    ensures forall kind ::
      Tally(cfg, [step] + steps, kind) == Tally(cfg, steps, kind) + if KindOf(cfg, step) == kind then 1 else 0
  {
    assert ([step] + steps)[1..] == steps;
  }

  lemma UnboundedRun(cfg: Config, slots: nat, sub: Submission, unfetchable: set<string>, rounds: nat)
    returns (init: State, steps: seq<Step>, t: State)
    requires cfg.workers > 0 && slots > 0 && sub.decodes && sub.problem in unfetchable
    ensures Initial(init) && |init.slots| == slots && Run(cfg, init, steps, t)
    ensures t.hist.published == {sub} && t.unfetchable == unfetchable
    ensures Tally(cfg, steps, Fault) == 0 && Tally(cfg, steps, Work) > rounds
  {
    init := Blank(slots).(unfetchable := unfetchable);
    t := Next(cfg, init, Publish(sub));
    assert t.main == [Message(sub, 0)];
    steps := UnfetchableGoesRound(cfg, t, 0, 0, rounds + 1);
    Prepend(cfg, init, Publish(sub), t, steps, t);
    steps := [Publish(sub)] + steps;
  }

  // -- running out of work ----------------------------------------------------------------------------

  /** No delivery can be handled. */
  ghost predicate OutOfWork(cfg: Config, s: State) {
    forall step | IsWork(cfg, step) :: !Enabled(cfg, s, step)
  }

  /** What the worker in slot `w` does next if containers are short and nothing fails. */
  function NextMove(cfg: Config, s: State, w: nat): Step
    requires w < |s.slots|
  {
    match s.slots[w]
    case Received(m) => if !m.sub.decodes then Reject(w) else if Doomed(s, m.sub) then FetchFails(w, 0) else Load(w)
    case Loaded(_) => Starve(w)
    case Starved(m) => if m.retryCount >= cfg.maxRetries then MarkFailed(w) else Republish(w, 0, true)
    case Leased(_, _, _) => Store(w, ALL_WELL)
    case Settled(_, _) => Finish(w, false, false)
    case _ => Ack(w)
  }

  lemma SomeWorkForBusySlot(cfg: Config, s: State, w: nat)
    requires RolesKept(cfg, s) && w < cfg.workers && w < |s.slots| && !s.slots[w].Idle?
    ensures IsWork(cfg, NextMove(cfg, s, w)) && Enabled(cfg, s, NextMove(cfg, s, w))
  {
  }

  lemma OutOfWorkMeansEmpty(cfg: Config, s: State)
    requires cfg.workers > 0 && RolesKept(cfg, s) && |s.slots| > 0 && OutOfWork(cfg, s)
    ensures s.main == [] && s.retry == []
    ensures forall w | 0 <= w < cfg.workers && w < |s.slots| :: s.slots[w].Idle?
  {
    forall w | 0 <= w < cfg.workers && w < |s.slots| ensures s.slots[w].Idle? {
      if !s.slots[w].Idle? {
        SomeWorkForBusySlot(cfg, s, w);
      }
    }
    assert !Enabled(cfg, s, Deliver(0, 0)) && !Enabled(cfg, s, RetryExpires(0, 0));
  }

  /** The protocol only runs out of work when its queues are empty, its workers idle, and every
      submission ever published has been rejected or acknowledged for good. */
  lemma OutOfWorkMeansResolved(cfg: Config, s: State)
    requires cfg.workers > 0 && Reachable(cfg, s) && |s.slots| > 0 && OutOfWork(cfg, s)
    ensures s.main == [] && s.retry == []
    ensures forall w | 0 <= w < cfg.workers && w < |s.slots| :: s.slots[w].Idle?
    ensures forall sub | sub in s.hist.published :: Resolved(s.hist, sub)
  {
    var init, steps :| Initial(init) && Run(cfg, init, steps, s);
    RunKeepsRoles(cfg, init, steps, s);
    OutOfWorkMeansEmpty(cfg, s);
    forall sub | sub in s.hist.published ensures Resolved(s.hist, sub) {
      NoSubmissionIsLost(cfg, s, sub);
    }
  }
}
