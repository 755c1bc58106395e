/** Students starting attempts at the same time: each start looks for an attempt, then tries to create
    one, and reads again if the unique index refuses. Steps of different starts interleave freely. */
module StartRace {
  import opened Options

  type Key = (string, string)   // assessment and student

  datatype Attempt = Attempt(id: nat, key: Key)

  datatype Phase =
    | Checking            // assessment read and valid; about to look for an attempt
    | Creating            // none was found
    | Rereading           // creation hit the unique index
    | Returned(attempt: Option<Attempt>)
    | Refused             // not allowed to start now, or storage failed
    | Waiting             // not yet begun

  datatype Client = Client(key: Key, phase: Phase)

  datatype State = State(attempts: seq<Attempt>, clients: seq<Client>)

  datatype Step =
    | Admit(c: nat)
    | Refuse(c: nat)
    | Look(c: nat)
    | Create(c: nat)
    | StorageFails(c: nat)
    | Reread(c: nat)

  predicate HasKey(attempts: seq<Attempt>, key: Key) {
    exists i :: 0 <= i < |attempts| && attempts[i].key == key
  }

  /** The first stored attempt for the key. */
  function Find(attempts: seq<Attempt>, key: Key): (a: Option<Attempt>)
    ensures a.Some? ==> a.value in attempts && a.value.key == key
    ensures a.None? <==> !HasKey(attempts, key)
  {
    if attempts == [] then None
    else if attempts[0].key == key then Some(attempts[0])
    else
      var a := Find(attempts[1..], key);
      assert forall i | 1 <= i < |attempts| :: attempts[i] == attempts[1..][i - 1];
      a
  }

  predicate Enabled(s: State, step: Step) {
    step.c < |s.clients| &&
    match step
    case Admit(c) => s.clients[c].phase.Waiting?
    case Refuse(c) => s.clients[c].phase.Waiting?
    case Look(c) => s.clients[c].phase.Checking?
    case Create(c) => s.clients[c].phase.Creating?
    case StorageFails(c) => s.clients[c].phase.Creating?
    case Reread(c) => s.clients[c].phase.Rereading?
  }

  function Moved(s: State, c: nat, phase: Phase): State
    requires c < |s.clients|
  {
    s.(clients := s.clients[c := s.clients[c].(phase := phase)])
  }

  function Next(s: State, step: Step): State
    requires Enabled(s, step)
  {
    var key := s.clients[step.c].key;
    match step
    case Admit(c) => Moved(s, c, Checking)
    case Refuse(c) => Moved(s, c, Refused)
    case Look(c) =>
      var found := Find(s.attempts, key);
      Moved(s, c, if found.Some? then Returned(found) else Creating)
    case Create(c) =>
      if Find(s.attempts, key).Some? then Moved(s, c, Rereading)  // duplicate key
      else
        var a := Attempt(|s.attempts|, key);
        Moved(s.(attempts := s.attempts + [a]), c, Returned(Some(a)))
    case StorageFails(c) => Moved(s, c, Refused)
    case Reread(c) => Moved(s, c, Returned(Find(s.attempts, key)))
  }

  ghost predicate Run(s: State, steps: seq<Step>, t: State)
    decreases |steps|
  {
    if steps == [] then s == t else Enabled(s, steps[0]) && Run(Next(s, steps[0]), steps[1..], t)
  }

  predicate OnePerKey(attempts: seq<Attempt>) {
    forall i, j | 0 <= i < j < |attempts| :: attempts[i].key != attempts[j].key
  }

  /** What was handed to a client is stored, and is for that client's assessment and student; a client
      about to read again has an attempt to find. */
  predicate ClientsServed(s: State) {
    forall c | 0 <= c < |s.clients| ::
      && (s.clients[c].phase.Returned? ==>
            s.clients[c].phase.attempt.Some? && s.clients[c].phase.attempt.value in s.attempts
            && s.clients[c].phase.attempt.value.key == s.clients[c].key)
      && (s.clients[c].phase.Rereading? ==> HasKey(s.attempts, s.clients[c].key))
  }

  lemma FoundStaysFound(attempts: seq<Attempt>, a: Attempt, key: Key)
    requires HasKey(attempts, key)
    ensures HasKey(attempts + [a], key)
  {
    var i :| 0 <= i < |attempts| && attempts[i].key == key;
    assert (attempts + [a])[i].key == key;
  }

  lemma StepKeepsRace(s: State, step: Step)
    requires OnePerKey(s.attempts) && ClientsServed(s) && Enabled(s, step)
    ensures OnePerKey(Next(s, step).attempts) && ClientsServed(Next(s, step))
    ensures s.attempts <= Next(s, step).attempts
  {
    var t := Next(s, step);
    if t.attempts != s.attempts {
      var a := t.attempts[|s.attempts|];
      assert !HasKey(s.attempts, a.key);
      forall c | 0 <= c < |s.clients| && HasKey(s.attempts, s.clients[c].key) ensures HasKey(t.attempts, s.clients[c].key) {
        FoundStaysFound(s.attempts, a, s.clients[c].key);
      }
    }
  }

  lemma {:induction false} RunKeepsRace(s: State, steps: seq<Step>, t: State)
    requires OnePerKey(s.attempts) && ClientsServed(s) && Run(s, steps, t)
    ensures OnePerKey(t.attempts) && ClientsServed(t)
    decreases |steps|
  {
    if steps == [] {
    } else {
      StepKeepsRace(s, steps[0]);
      RunKeepsRace(Next(s, steps[0]), steps[1..], t);
    }
  }

  // -- what a start brings about ----------------------------------------------------------------------------

  /** Looking hands out the attempt there is, or goes on to create one. */
  lemma LookFinds(s: State, c: nat)
    requires Enabled(s, Look(c))
    ensures var t, key := Next(s, Look(c)), s.clients[c].key;
      && t.attempts == s.attempts
      && t.clients == s.clients[c := Client(key, if HasKey(s.attempts, key) then Returned(Find(s.attempts, key)) else Creating)]
  {
  }

  /** Creating stores one new attempt and hands it out, unless there is one by now: then nothing is stored, and
      the start reads again. */
  lemma CreateStores(s: State, c: nat)
    requires Enabled(s, Create(c))
    ensures var t, key := Next(s, Create(c)), s.clients[c].key;
      && (HasKey(s.attempts, key) ==> t.attempts == s.attempts && t.clients == s.clients[c := Client(key, Rereading)])
      && (!HasKey(s.attempts, key) ==>
            && |t.attempts| == |s.attempts| + 1 && t.attempts[..|s.attempts|] == s.attempts
            && t.attempts[|s.attempts|].key == key
            && t.clients == s.clients[c := Client(key, Returned(Some(t.attempts[|s.attempts|])))])
  {
  }

  /** Whatever the others have done, a start that was admitted can finish by itself, with a stored attempt of
      its own assessment and student. */
  lemma StartFinishes(s: State, c: nat) returns (steps: seq<Step>, t: State)
    requires c < |s.clients| && ClientsServed(s)
    requires s.clients[c].phase.Checking? || s.clients[c].phase.Creating? || s.clients[c].phase.Rereading?
    ensures Run(s, steps, t) && |steps| <= 2 && forall i | 0 <= i < |steps| :: steps[i].c == c && !steps[i].StorageFails?
    ensures c < |t.clients| && t.clients[c].phase.Returned? && t.clients[c].phase.attempt.Some?
    ensures var a := t.clients[c].phase.attempt.value; a in t.attempts && a.key == s.clients[c].key
  {
    var first := match s.clients[c].phase
      case Checking => Look(c)
      case Creating => Create(c)
      case _ => Reread(c);
    t := Next(s, first);
    steps := [first];
    assert Run(t, steps[1..], t);
    if !t.clients[c].phase.Returned? {
      var u, second := t, if t.clients[c].phase.Creating? then Create(c) else Reread(c);
      t := Next(u, second);
      steps := [first, second];
      assert steps[1..] == [second] && [second][1..] == [];
      assert Run(t, [], t);
      assert Run(u, [second], t);
    }
  }

  /** However the starts interleave, whatever attempts were stored before: at most one attempt exists for each
      assessment and student, and all starts that return give back that same attempt. */
  lemma StartsAgree(stored: seq<Attempt>, clients: seq<Client>, steps: seq<Step>, t: State, c: nat, d: nat)
    requires forall i | 0 <= i < |clients| :: clients[i].phase.Waiting?
    requires OnePerKey(stored) && Run(State(stored, clients), steps, t)
    requires c < |t.clients| && d < |t.clients| && t.clients[c].key == t.clients[d].key
    requires t.clients[c].phase.Returned? && t.clients[d].phase.Returned?
    ensures OnePerKey(t.attempts)
    ensures t.clients[c].phase == t.clients[d].phase && t.clients[c].phase.attempt == Find(t.attempts, t.clients[c].key)
    ensures t.clients[c].phase.attempt.Some?
  {
    RunKeepsRace(State(stored, clients), steps, t);
    var key := t.clients[c].key;
    assert t.clients[c].phase.attempt.value in t.attempts && t.clients[d].phase.attempt.value in t.attempts;
    var i :| 0 <= i < |t.attempts| && t.attempts[i] == t.clients[c].phase.attempt.value;
    assert HasKey(t.attempts, key);
    var found := Find(t.attempts, key).value;
    var j :| 0 <= j < |t.attempts| && t.attempts[j] == found;
    var k :| 0 <= k < |t.attempts| && t.attempts[k] == t.clients[d].phase.attempt.value;
    assert i == j == k;
  }
}
