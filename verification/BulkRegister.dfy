/** Registering a list of students in one call: which rows are accepted, and what happens to the users. */
module BulkRegister {
  import opened Options
  import opened Text

  datatype Role = SuperAdmin | Admin | Faculty | Student

  datatype User = User(
    name: string, email: string, usn: Option<string>, section: Option<string>, role: Role, college: Option<nat>)

  // A field that is missing and one that is empty are treated alike.
  datatype Row = Row(name: string, email: string, usn: string, section: string, password: string)

  datatype RowError =
    NameRequired | EmailRequired | BadEmail | DuplicateEmail | DuplicateUsn | EmailRegistered | UsnRegistered
    | LookupFailed

  datatype Report = Report(row: nat, email: string, usn: string, error: RowError)

  // A row that passed, waiting to be created.
  datatype Verified = Verified(name: string, email: string, password: string, usn: Option<string>, section: Option<string>)

  datatype Created = Created(id: nat, user: User, password: string)

  datatype Reply =
    | Done(created: seq<Created>, errors: seq<Report>, count: nat)
    | SeatLimitReached
    | RolledBack
    | RollbackFailed

  datatype Limit = Unlimited | Seats(seats: nat)

  // What comes from outside: passwords made up, and which calls of the database fail, by row or by number.
  datatype Env = Env(
    lower: string -> string, random: nat -> string, emailLookupFails: nat -> bool, usnLookupFails: nat -> bool,
    createFails: nat -> bool, rollbackFails: bool)

  /** What the verdicts on the rows depend on: the rows, and the users there are. */
  datatype Batch = Batch(rows: seq<Row>, defaultPassword: string, users: map<nat, User>, env: Env)

  // -- one row --------------------------------------------------------------------------------------------

  predicate EmailFormat(e: string) {
    exists at, dot | 0 < at < dot - 1 && dot < |e| - 1 ::
      && e[at] == '@' && e[dot] == '.'
      && forall k | 0 <= k < |e| && k != at :: e[k] != '@' && !IsWhite(e[k])
  }

  function Email(b: Batch, i: nat): string
    requires i < |b.rows|
  {
    b.env.lower(Trim(b.rows[i].email, IsWhite))
  }

  function Usn(b: Batch, i: nat): string
    requires i < |b.rows|
  {
    Trim(b.rows[i].usn, IsWhite)
  }

  function Optional(s: string): Option<string> {
    if s == "" then None else Some(s)
  }

  function Password(b: Batch, i: nat): string
    requires i < |b.rows|
  {
    if b.rows[i].password != "" then b.rows[i].password
    else if b.defaultPassword != "" then b.defaultPassword
    else b.env.random(i)
  }

  function VerifiedOf(b: Batch, i: nat): Verified
    requires i < |b.rows|
  {
    Verified(Trim(b.rows[i].name, IsWhite), Email(b, i), Password(b, i), Optional(Usn(b, i)),
             Optional(Trim(b.rows[i].section, IsWhite)))
  }

  predicate EmailTaken(users: map<nat, User>, email: string) {
    exists id | id in users :: users[id].email == email
  }

  predicate UsnTaken(users: map<nat, User>, usn: string) {
    exists id | id in users :: users[id].usn == Some(usn)
  }

  // -- the verdicts, each said of the whole batch ------------------------------------------------------------

  predicate Named(b: Batch, i: nat)
    requires i < |b.rows|
  {
    Trim(b.rows[i].name, IsWhite) != "" && Email(b, i) != "" && EmailFormat(Email(b, i))
  }

  /** An earlier row with a name and a proper email has this row's email. */
  predicate RepeatsEmail(b: Batch, i: nat)
    requires i < |b.rows|
  {
    exists j: nat | j < i :: Named(b, j) && Email(b, j) == Email(b, i)
  }

  /** An earlier row whose email was the first of its kind has this row's USN. */
  predicate RepeatsUsn(b: Batch, i: nat)
    requires i < |b.rows|
  {
    Usn(b, i) != "" && exists j: nat | j < i :: Named(b, j) && !RepeatsEmail(b, j) && Usn(b, j) == Usn(b, i)
  }

  function Verdict(b: Batch, i: nat): Option<RowError>
    requires i < |b.rows|
  {
    if Trim(b.rows[i].name, IsWhite) == "" then Some(NameRequired)
    else if Email(b, i) == "" then Some(EmailRequired)
    else if !EmailFormat(Email(b, i)) then Some(BadEmail)
    else if RepeatsEmail(b, i) then Some(DuplicateEmail)
    else if RepeatsUsn(b, i) then Some(DuplicateUsn)
    else if b.env.emailLookupFails(i) then Some(LookupFailed)
    else if EmailTaken(b.users, Email(b, i)) then Some(EmailRegistered)
    else if Usn(b, i) != "" && b.env.usnLookupFails(i) then Some(LookupFailed)
    else if Usn(b, i) != "" && UsnTaken(b.users, Usn(b, i)) then Some(UsnRegistered)
    else None
  }

  /** The numbers below `n` with property `p`, in order. */
  function Picked(p: nat -> bool, n: nat): seq<nat> {
    if n == 0 then [] else Picked(p, n - 1) + if p(n - 1) then [n - 1] else []
  }

  function Passes(b: Batch): nat -> bool {
    (i: nat) => i < |b.rows| && Verdict(b, i).None?
  }

  function Fails(b: Batch): nat -> bool {
    (i: nat) => i < |b.rows| && Verdict(b, i).Some?
  }

  function Accepted(b: Batch, n: nat): seq<nat> {
    Picked(Passes(b), n)
  }

  function Refused(b: Batch, n: nat): seq<nat> {
    Picked(Fails(b), n)
  }

  function ReportOf(b: Batch, i: nat): Report
    requires i < |b.rows| && Verdict(b, i).Some?
  {
    Report(i + 1, Email(b, i), Usn(b, i), Verdict(b, i).value)
  }

  /** The accepted rows, cleaned. */
  function VerifiedRows(b: Batch): seq<Verified> {
    PickedAre(Passes(b), |b.rows|);
    var acc := Accepted(b, |b.rows|);
    seq(|acc|, k requires 0 <= k < |acc| => VerifiedOf(b, acc[k]))
  }

  /** A report for each row that was refused. */
  function Reports(b: Batch): seq<Report> {
    PickedAre(Fails(b), |b.rows|);
    var ref := Refused(b, |b.rows|);
    seq(|ref|, k requires 0 <= k < |ref| => ReportOf(b, ref[k]))
  }

  lemma {:induction false} PickedAre(p: nat -> bool, n: nat)
    ensures forall i: nat :: i in Picked(p, n) <==> i < n && p(i)
    ensures forall j, k | 0 <= j < k < |Picked(p, n)| :: Picked(p, n)[j] < Picked(p, n)[k]
    ensures forall k | 0 <= k < |Picked(p, n)| :: Picked(p, n)[k] < n && p(Picked(p, n)[k])
  {
    if n == 0 {
    } else {
      PickedAre(p, n - 1);
    }
  }

  lemma {:induction false} PickedOrNot(p: nat -> bool, q: nat -> bool, n: nat)
    requires forall i: nat | i < n :: p(i) <==> !q(i)
    ensures |Picked(p, n)| + |Picked(q, n)| == n
  {
    if n == 0 {
    } else {
      PickedOrNot(p, q, n - 1);
    }
  }

  // -- the users afterwards -------------------------------------------------------------------------------

  function NewUser(v: Verified, college: Option<nat>): User {
    User(v.name, v.email, v.usn, v.section, Student, college)
  }

  /** The users after `todo` was created, with ids from `next` on. */
  function WithUsers(users: map<nat, User>, next: nat, todo: seq<Verified>, college: Option<nat>): map<nat, User> {
    if todo == [] then users
    else
      var n := |todo| - 1;
      WithUsers(users, next, todo[..n], college)[next + n := NewUser(todo[n], college)]
  }

  function CreatedRows(next: nat, todo: seq<Verified>, college: Option<nat>): seq<Created> {
    seq(|todo|, k requires 0 <= k < |todo| => Created(next + k, NewUser(todo[k], college), todo[k].password))
  }

  function SeatsTaken(users: map<nat, User>, college: nat): nat {
    |Members(users, college)|
  }

  function Members(users: map<nat, User>, college: nat): set<nat> {
    set id | id in users && users[id].college == Some(college)
  }

  predicate HasCapacity(users: map<nat, User>, college: Option<nat>, colleges: map<nat, Limit>, incoming: nat) {
    college.None? || college.value !in colleges ||
    match colleges[college.value]
    case Unlimited => true
    case Seats(limit) => SeatsTaken(users, college.value) + incoming <= limit
  }

  /** No two users share an email, or a USN. */
  predicate KeysAreUnique(users: map<nat, User>) {
    forall i, j | i in users && j in users && i != j ::
      users[i].email != users[j].email && (users[i].usn.Some? ==> users[i].usn != users[j].usn)
  }

  ghost predicate FirstFault(env: Env, k: nat) {
    env.createFails(k) && forall j: nat | j < k :: !env.createFails(j)
  }

  /** What a call does, given the users before it: the reply, and the users after it. */
  ghost predicate Registers(b: Batch, next: nat, college: Option<nat>, colleges: map<nat, Limit>,
                            reply: Reply, after: map<nat, User>)
  {
    var n := |b.rows|;
    var todo := VerifiedRows(b);
    match reply
    case SeatLimitReached =>
      todo != [] && !HasCapacity(b.users, college, colleges, |todo|) && after == b.users
    case Done(created, errors, count) =>
      && (todo != [] ==> HasCapacity(b.users, college, colleges, |todo|))
      && (forall k: nat | k < |todo| :: !b.env.createFails(k))
      && created == CreatedRows(next, todo, college) && errors == Reports(b) && count == |todo|
      && after == WithUsers(b.users, next, todo, college)
    case RolledBack =>
      && HasCapacity(b.users, college, colleges, |todo|)
      && (exists k: nat :: k < |todo| && FirstFault(b.env, k) && (k == 0 || !b.env.rollbackFails))
      && after == b.users
    case RollbackFailed =>
      && HasCapacity(b.users, college, colleges, |todo|) && b.env.rollbackFails
      && exists k: nat :: 0 < k < |todo| && FirstFault(b.env, k) && after == WithUsers(b.users, next, todo[..k], college)
  }

  // -- what the verdicts say together ----------------------------------------------------------------------

  lemma AcceptedAre(b: Batch)
    ensures var acc := Accepted(b, |b.rows|);
      && |VerifiedRows(b)| == |acc|
      && (forall k | 0 <= k < |acc| ::
            acc[k] < |b.rows| && Verdict(b, acc[k]).None? && VerifiedRows(b)[k] == VerifiedOf(b, acc[k]))
      && (forall j, k | 0 <= j < k < |acc| :: acc[j] < acc[k])
  {
    PickedAre(Passes(b), |b.rows|);
    assert forall k | 0 <= k < |Accepted(b, |b.rows|)| :: Passes(b)(Accepted(b, |b.rows|)[k]);
  }

  lemma ReportsAre(b: Batch)
    ensures var rep := Reports(b);
      && (forall k | 0 <= k < |rep| :: 1 <= rep[k].row <= |b.rows| && Fails(b)(rep[k].row - 1) && rep[k] == ReportOf(b, rep[k].row - 1))
      && (forall j, k | 0 <= j < k < |rep| :: rep[j].row < rep[k].row)
  {
    PickedAre(Fails(b), |b.rows|);
    var ref, rep := Refused(b, |b.rows|), Reports(b);
    forall k | 0 <= k < |rep| ensures rep[k].row == ref[k] + 1 && Fails(b)(ref[k]) && rep[k] == ReportOf(b, ref[k]) {
    }
  }

  /** Every row is accepted or reported, once, and in the order of the rows. */
  lemma EveryRowOnce(b: Batch)
    ensures var acc, rep := Accepted(b, |b.rows|), Reports(b);
      && |VerifiedRows(b)| == |acc| && |acc| + |rep| == |b.rows|
      && (forall i: nat :: i in acc <==> i < |b.rows| && Verdict(b, i).None?)
      && (forall j, k | 0 <= j < k < |acc| :: acc[j] < acc[k])
      && (forall k | 0 <= k < |rep| :: 1 <= rep[k].row <= |b.rows| && Verdict(b, rep[k].row - 1) == Some(rep[k].error))
      && (forall k | 0 <= k < |rep| :: rep[k].email == Email(b, rep[k].row - 1) && rep[k].usn == Usn(b, rep[k].row - 1))
      && (forall j, k | 0 <= j < k < |rep| :: rep[j].row < rep[k].row)
  {
    PickedAre(Passes(b), |b.rows|);
    AcceptedAre(b);
    ReportsAre(b);
    PickedOrNot(Passes(b), Fails(b), |b.rows|);
  }

  /** Two accepted rows differ in their emails, and in their USNs if they have any. */
  lemma AcceptedDiffer(b: Batch, i: nat, j: nat)
    requires i < j < |b.rows| && Verdict(b, i).None? && Verdict(b, j).None?
    ensures Email(b, i) != Email(b, j) && (Usn(b, i) != "" ==> Usn(b, i) != Usn(b, j))
  {
  }

  // Users that can be created one after the other: the indexes of the database refuse none of them.
  ghost predicate Creatable(users: map<nat, User>, todo: seq<Verified>) {
    && (forall k | 0 <= k < |todo| :: todo[k].name != "" && todo[k].email != "" && !EmailTaken(users, todo[k].email))
    && (forall k | 0 <= k < |todo| && todo[k].usn.Some? :: !UsnTaken(users, todo[k].usn.value))
    && (forall j, k | 0 <= j < k < |todo| ::
          todo[j].email != todo[k].email && (todo[j].usn.Some? ==> todo[j].usn != todo[k].usn))
  }

  lemma VerifiedAreCreatable(b: Batch)
    ensures Creatable(b.users, VerifiedRows(b))
  {
    var todo, acc := VerifiedRows(b), Accepted(b, |b.rows|);
    AcceptedAre(b);
    forall k | 0 <= k < |todo|
      ensures todo[k].name != "" && todo[k].email != "" && !EmailTaken(b.users, todo[k].email)
      ensures todo[k].usn.Some? ==> !UsnTaken(b.users, todo[k].usn.value)
    {
      assert Verdict(b, acc[k]).None?;
    }
    forall j, k | 0 <= j < k < |todo|
      ensures todo[j].email != todo[k].email && (todo[j].usn.Some? ==> todo[j].usn != todo[k].usn)
    {
      assert Verdict(b, acc[j]).None? && Verdict(b, acc[k]).None?;
      AcceptedDiffer(b, acc[j], acc[k]);
    }
  }

  lemma {:induction false} WithUsersIs(users: map<nat, User>, next: nat, todo: seq<Verified>, college: Option<nat>)
    requires forall id | id in users :: id < next
    ensures var after := WithUsers(users, next, todo, college);
      forall id: nat :: id in after <==> id in users || next <= id < next + |todo|
    ensures var after := WithUsers(users, next, todo, college);
      && (forall id | id in users :: after[id] == users[id])
      && (forall k | 0 <= k < |todo| :: after[next + k] == NewUser(todo[k], college))
  {
    if todo == [] {
    } else {
      WithUsersIs(users, next, todo[..|todo| - 1], college);
    }
  }

  lemma NextIsCreatable(users: map<nat, User>, next: nat, todo: seq<Verified>, college: Option<nat>, k: nat)
    requires forall id | id in users :: id < next
    requires Creatable(users, todo) && k < |todo|
    ensures var sofar := WithUsers(users, next, todo[..k], college);
      !EmailTaken(sofar, todo[k].email) && (todo[k].usn.Some? ==> !UsnTaken(sofar, todo[k].usn.value))
  {
    WithUsersIs(users, next, todo[..k], college);
    var sofar := WithUsers(users, next, todo[..k], college);
    forall id | id in sofar
      ensures sofar[id].email != todo[k].email && (todo[k].usn.Some? ==> sofar[id].usn != todo[k].usn)
    {
      if id in users {
        assert !EmailTaken(users, todo[k].email);
      } else {
        assert sofar[next + (id - next)] == NewUser(todo[..k][id - next], college);
        assert todo[..k][id - next] == todo[id - next];
      }
    }
  }

  lemma OnlyNewIdsGo(users: map<nat, User>, next: nat, todo: seq<Verified>, college: Option<nat>, ids: seq<nat>)
    requires forall id | id in users :: id < next
    requires ids == seq(|todo|, j requires 0 <= j < |todo| => next + j)
    ensures var after := WithUsers(users, next, todo, college);
      (map id | id in after && id !in ids :: after[id]) == users
  {
    WithUsersIs(users, next, todo, college);
    forall id: nat ensures id in ids <==> next <= id < next + |todo| {
      if next <= id < next + |todo| {
        assert ids[id - next] == id;
      }
    }
  }

  lemma CreatingOneMore(users: map<nat, User>, next: nat, todo: seq<Verified>, college: Option<nat>, k: nat)
    requires k < |todo|
    ensures WithUsers(users, next, todo[..k + 1], college)
         == WithUsers(users, next, todo[..k], college)[next + k := NewUser(todo[k], college)]
    ensures CreatedRows(next, todo[..k + 1], college)
         == CreatedRows(next, todo[..k], college) + [Created(next + k, NewUser(todo[k], college), todo[k].password)]
  {
    assert todo[..k + 1][..k] == todo[..k];
  }

  // -- the call -------------------------------------------------------------------------------------------

  ghost function NamedEmails(b: Batch, n: nat): set<string>
    requires n <= |b.rows|
  {
    set j: nat | j < n && Named(b, j) :: Email(b, j)
  }

  ghost function ClaimedUsns(b: Batch, n: nat): set<string>
    requires n <= |b.rows|
  {
    set j: nat | j < n && Named(b, j) && !RepeatsEmail(b, j) && Usn(b, j) != "" :: Usn(b, j)
  }

  // The first `i` rows are divided between `todo` and `errors`.
  ghost predicate Listed(b: Batch, i: nat, todo: seq<Verified>, errors: seq<Report>) {
    && |todo| == |Accepted(b, i)| && |errors| == |Refused(b, i)|
    && (forall k | 0 <= k < |todo| :: Passes(b)(Accepted(b, i)[k]) && todo[k] == VerifiedOf(b, Accepted(b, i)[k]))
    && (forall k | 0 <= k < |errors| :: Fails(b)(Refused(b, i)[k]) && errors[k] == ReportOf(b, Refused(b, i)[k]))
  }

  lemma ListedStep(b: Batch, i: nat, todo: seq<Verified>, errors: seq<Report>)
    requires i < |b.rows| && Listed(b, i, todo, errors)
    ensures Verdict(b, i).None? ==> Listed(b, i + 1, todo + [VerifiedOf(b, i)], errors)
    ensures Verdict(b, i).Some? ==> Listed(b, i + 1, todo, errors + [ReportOf(b, i)])
  {
  }

  lemma SeenStep(b: Batch, i: nat)
    requires i < |b.rows|
    ensures NamedEmails(b, i + 1) == NamedEmails(b, i) + if Named(b, i) then {Email(b, i)} else {}
    ensures ClaimedUsns(b, i + 1) == ClaimedUsns(b, i)
      + if Named(b, i) && !RepeatsEmail(b, i) && Usn(b, i) != "" then {Usn(b, i)} else {}
    ensures RepeatsEmail(b, i) <==> Email(b, i) in NamedEmails(b, i)
    ensures RepeatsUsn(b, i) <==> Usn(b, i) in ClaimedUsns(b, i)
  {
  }

  /** The collection of users. */
  class Directory {
    var users: map<nat, User>
    var next: nat

    // Ids are never given twice.
    predicate Valid()
      reads this
    {
      forall id | id in users :: id < next
    }

    constructor ()
      ensures Valid() && users == map[]
    {
      users, next := map[], 0;
    }

    /** Stores a user, unless the database fails, a required field is empty or a unique one is taken. */
    method Create(user: User, fails: bool) returns (id: Option<nat>)
      requires Valid()
      modifies this
      ensures Valid()
      ensures id.Some? <==>
        && !fails && user.name != "" && user.email != "" && !EmailTaken(old(users), user.email)
        && (user.usn.Some? ==> !UsnTaken(old(users), user.usn.value))
      ensures id.Some? ==> id.value == old(next) && users == old(users)[old(next) := user] && next == old(next) + 1
      ensures id.None? ==> users == old(users) && next == old(next)
    {
      if fails || user.name == "" || user.email == "" || EmailTaken(users, user.email) {
        return None;
      }
      if user.usn.Some? && UsnTaken(users, user.usn.value) {
        return None;
      }
      id := Some(next);
      users, next := users[next := user], next + 1;
    }

    method DeleteMany(ids: seq<nat>)
      requires Valid()
      modifies this
      ensures Valid() && next == old(next)
      ensures users == map id | id in old(users) && id !in ids :: old(users)[id]
    {
      users := map id | id in users && id !in ids :: users[id];
    }

    /** One row of the first loop: its verdict, from what was seen in the rows before it and from the users. */
    method CheckRow(b: Batch, i: nat, seenEmails: set<string>, seenUsns: set<string>)
      returns (error: Option<RowError>, emails: set<string>, usns: set<string>)
      requires b.users == users && i < |b.rows|
      requires seenEmails == NamedEmails(b, i) && seenUsns == ClaimedUsns(b, i)
      ensures error == Verdict(b, i)
      ensures emails == NamedEmails(b, i + 1) && usns == ClaimedUsns(b, i + 1)
    {
      SeenStep(b, i);
      emails, usns := seenEmails, seenUsns;
      var email, usn := Email(b, i), Usn(b, i);
      if Trim(b.rows[i].name, IsWhite) == "" {
        return Some(NameRequired), emails, usns;
      }
      if email == "" {
        return Some(EmailRequired), emails, usns;
      }
      if !EmailFormat(email) {
        return Some(BadEmail), emails, usns;
      }
      if email in emails {
        return Some(DuplicateEmail), emails, usns;
      }
      emails := emails + {email};
      if usn != "" {
        if usn in usns {
          return Some(DuplicateUsn), emails, usns;
        }
        usns := usns + {usn};
      }
      if b.env.emailLookupFails(i) {
        return Some(LookupFailed), emails, usns;
      }
      if EmailTaken(users, email) {
        return Some(EmailRegistered), emails, usns;
      }
      if usn != "" {
        if b.env.usnLookupFails(i) {
          return Some(LookupFailed), emails, usns;
        }
        if UsnTaken(users, usn) {
          return Some(UsnRegistered), emails, usns;
        }
      }
      return None, emails, usns;
    }

    /** The first loop. */
    method Check(b: Batch) returns (todo: seq<Verified>, errors: seq<Report>)
      requires b.users == users
      ensures todo == VerifiedRows(b) && errors == Reports(b)
    {
      var seenEmails: set<string>, seenUsns: set<string> := {}, {};
      todo, errors := [], [];
      for i := 0 to |b.rows|
        invariant Listed(b, i, todo, errors)
        invariant seenEmails == NamedEmails(b, i) && seenUsns == ClaimedUsns(b, i)
      {
        var error;
        error, seenEmails, seenUsns := CheckRow(b, i, seenEmails, seenUsns);
        ListedStep(b, i, todo, errors);
        if error.Some? {
          errors := errors + [Report(i + 1, Email(b, i), Usn(b, i), error.value)];
        } else {
          todo := todo + [VerifiedOf(b, i)];
        }
      }
    }

    /** The second loop: creates the users one by one, and deletes those created if one cannot be. */
    method CreateAll(todo: seq<Verified>, college: Option<nat>, env: Env) returns (reply: Reply)
      requires Valid() && Creatable(users, todo)
      modifies this
      ensures Valid()
      ensures match reply
        case Done(created, errors, count) =>
          && (forall k: nat | k < |todo| :: !env.createFails(k))
          && created == CreatedRows(old(next), todo, college) && errors == [] && count == |todo|
          && users == WithUsers(old(users), old(next), todo, college)
        case SeatLimitReached => false
        case RolledBack =>
          && (exists k: nat :: k < |todo| && FirstFault(env, k) && (k == 0 || !env.rollbackFails))
          && users == old(users)
        case RollbackFailed =>
          && env.rollbackFails
          && (exists k: nat :: 0 < k < |todo| && FirstFault(env, k)
                && users == WithUsers(old(users), old(next), todo[..k], college))
    {
      ghost var was, first := users, next;
      var createdIds: seq<nat>, created: seq<Created>, count := [], [], 0;
      var k := 0;
      while k < |todo|
        invariant 0 <= k <= |todo| && Valid() && next == first + k && count == k
        invariant users == WithUsers(was, first, todo[..k], college)
        invariant createdIds == seq(k, j requires 0 <= j < k => first + j)
        invariant created == CreatedRows(first, todo[..k], college)
        invariant forall j: nat | j < k :: !env.createFails(j)
      {
        NextIsCreatable(was, first, todo, college, k);
        CreatingOneMore(was, first, todo, college, k);
        var user := NewUser(todo[k], college);
        var id := Create(user, env.createFails(k));
        if id.None? {
          assert FirstFault(env, k);
          if |createdIds| > 0 {
            if env.rollbackFails {
              return RollbackFailed;
            }
            OnlyNewIdsGo(was, first, todo[..k], college, createdIds);
            DeleteMany(createdIds);
          }
          return RolledBack;
        }
        createdIds := createdIds + [id.value];
        created := created + [Created(id.value, user, todo[k].password)];
        count := count + 1;
        k := k + 1;
      }
      assert todo[..k] == todo;
      return Done(created, [], count);
    }

    method BulkRegister(b: Batch, college: Option<nat>, colleges: map<nat, Limit>) returns (reply: Reply)
      requires Valid() && b.users == users
      modifies this
      ensures Valid()
      ensures Registers(b, old(next), college, colleges, reply, users)
    {
      var todo, errors := Check(b);
      if |todo| > 0 && !HasCapacity(users, college, colleges, |todo|) {
        return SeatLimitReached;
      }
      VerifiedAreCreatable(b);
      reply := CreateAll(todo, college, b.env);
      if reply.Done? {
        reply := reply.(errors := errors);
      }
    }
  }

  // -- what each verdict means -------------------------------------------------------------------------------

  /** An email is a name, an at sign, and a domain with a dot inside, none with white space or another at sign. */
  lemma EmailFormatIff(e: string)
    ensures EmailFormat(e) <==> exists name, host, rest :: IsEmail(e, name, host, rest)
  {
    if at, dot :|
      && 0 < at < dot - 1 && dot < |e| - 1 && e[at] == '@' && e[dot] == '.'
      && forall k | 0 <= k < |e| && k != at :: e[k] != '@' && !IsWhite(e[k])
    {
      EmailSplits(e, at, dot);
    }
    if name, host, rest :| IsEmail(e, name, host, rest) {
      SplitIsEmail(e, name, host, rest);
    }
  }

  lemma EmailSplits(e: string, at: nat, dot: nat)
    requires 0 < at < dot - 1 && dot < |e| - 1 && e[at] == '@' && e[dot] == '.'
    requires forall k | 0 <= k < |e| && k != at :: e[k] != '@' && !IsWhite(e[k])
    ensures IsEmail(e, e[..at], e[at + 1..dot], e[dot + 1..])
  {
    assert e == e[..at] + "@" + e[at + 1..dot] + "." + e[dot + 1..];
  }

  lemma SplitIsEmail(e: string, name: string, host: string, rest: string)
    requires IsEmail(e, name, host, rest)
    ensures EmailFormat(e)
  {
    var at, dot := |name|, |name| + 1 + |host|;
    assert e[..at] == name && e[at + 1..dot] == host && e[dot + 1..] == rest && e[at] == '@' && e[dot] == '.';
    forall k | 0 <= k < |e| && k != at ensures e[k] != '@' && !IsWhite(e[k]) {
      if k < at {
        assert e[k] == name[k];
      } else if k < dot {
        assert e[k] == host[k - at - 1];
      } else if k > dot {
        assert e[k] == rest[k - dot - 1];
      }
    }
  }

  predicate Plain(s: string) {
    s != "" && forall i | 0 <= i < |s| :: s[i] != '@' && !IsWhite(s[i])
  }

  predicate IsEmail(e: string, name: string, host: string, rest: string) {
    Plain(name) && Plain(host) && Plain(rest) && e == name + "@" + host + "." + rest
  }

  /** Each verdict said of the row, and of the rows and users before it. */
  lemma VerdictMeans(b: Batch, i: nat)
    requires i < |b.rows|
    ensures var v, e, u := Verdict(b, i), Email(b, i), Usn(b, i);
      var named := Trim(b.rows[i].name, IsWhite) != "";
      var looked := Named(b, i) && !RepeatsEmail(b, i) && !RepeatsUsn(b, i);
      var fails := b.env.emailLookupFails(i);
      && (v == Some(NameRequired) <==> !named)
      && (v == Some(EmailRequired) <==> named && e == "")
      && (v == Some(BadEmail) <==> named && e != "" && !EmailFormat(e))
      && (v == Some(DuplicateEmail) <==> Named(b, i) && RepeatsEmail(b, i))
      && (v == Some(DuplicateUsn) <==> Named(b, i) && !RepeatsEmail(b, i) && RepeatsUsn(b, i))
      && (v == Some(EmailRegistered) <==> looked && !fails && EmailTaken(b.users, e))
      && (v == Some(UsnRegistered) <==>
            looked && !fails && !EmailTaken(b.users, e) && u != "" && !b.env.usnLookupFails(i) && UsnTaken(b.users, u))
      && (v == Some(LookupFailed) <==>
            looked && (fails || (!EmailTaken(b.users, e) && u != "" && b.env.usnLookupFails(i))))
      && (v == None <==>
            && looked && !fails && !EmailTaken(b.users, e)
            && (u != "" ==> !b.env.usnLookupFails(i) && !UsnTaken(b.users, u)))
  {
  }

  /** A call is refused for its seats exactly when rows passed and a finite limit has no room for all of them. */
  lemma SeatLimitReachedIff(b: Batch, next: nat, college: Option<nat>, colleges: map<nat, Limit>,
                            reply: Reply, after: map<nat, User>)
    requires Registers(b, next, college, colleges, reply, after)
    ensures var n := |Accepted(b, |b.rows|)|;
      reply.SeatLimitReached? <==>
      && n > 0 && college.Some? && college.value in colleges && colleges[college.value].Seats?
      && |Members(b.users, college.value)| + n > colleges[college.value].seats
  {
    AcceptedAre(b);
  }

  /** Nothing is changed by a call that is refused or rolled back, and one that says it could not be has created
      the users before the first that failed. */
  lemma FailuresRestore(b: Batch, next: nat, college: Option<nat>, colleges: map<nat, Limit>,
                        reply: Reply, after: map<nat, User>)
    requires IdsBelow(b.users, next) && Registers(b, next, college, colleges, reply, after)
    ensures reply.SeatLimitReached? || reply.RolledBack? ==> after == b.users
    ensures reply.Done? ==> forall k: nat | k < reply.count :: !b.env.createFails(k)
    ensures reply.RolledBack? || reply.RollbackFailed? ==> exists k: nat :: b.env.createFails(k)
    ensures reply.RollbackFailed? ==> b.env.rollbackFails && exists k: nat ::
      0 < k && FirstFault(b.env, k) && forall id: nat :: id in after <==> id in b.users || next <= id < next + k
  {
    var todo := VerifiedRows(b);
    if reply.RollbackFailed? {
      var k: nat :| 0 < k < |todo| && FirstFault(b.env, k) && after == WithUsers(b.users, next, todo[..k], college);
      WithUsersIs(b.users, next, todo[..k], college);
    } else if reply.RolledBack? {
      var k: nat :| k < |todo| && FirstFault(b.env, k) && (k == 0 || !b.env.rollbackFails);
    }
  }

  /** A student of the college with the row's own data. */
  predicate IsStudentOf(b: Batch, i: nat, college: Option<nat>, c: Created)
    requires i < |b.rows|
  {
    var row := b.rows[i];
    && c.user.name == Trim(row.name, IsWhite) && c.user.email == b.env.lower(Trim(row.email, IsWhite))
    && c.user.usn == (if Trim(row.usn, IsWhite) == "" then None else Some(Trim(row.usn, IsWhite)))
    && c.user.section == (if Trim(row.section, IsWhite) == "" then None else Some(Trim(row.section, IsWhite)))
    && c.user.role == Student && c.user.college == college
    && c.password == (if row.password != "" then row.password
                      else if b.defaultPassword != "" then b.defaultPassword else b.env.random(i))
  }

  lemma NewUserIsStudent(b: Batch, i: nat, college: Option<nat>, id: nat)
    requires i < |b.rows|
    ensures IsStudentOf(b, i, college, Created(id, NewUser(VerifiedOf(b, i), college), Password(b, i)))
  {
  }

  lemma CreatedAt(users: map<nat, User>, next: nat, todo: seq<Verified>, college: Option<nat>, k: nat)
    requires IdsBelow(users, next) && k < |todo|
    ensures CreatedRows(next, todo, college)[k] == Created(next + k, NewUser(todo[k], college), todo[k].password)
    ensures next + k !in users && next + k in WithUsers(users, next, todo, college)
    ensures WithUsers(users, next, todo, college)[next + k] == NewUser(todo[k], college)
  {
    WithUsersIs(users, next, todo, college);
  }

  /** After a finished call every row that passed is a student of the college, with the row's own data, under
      an id that was free; and the users there were are as they were. */
  lemma AcceptedRowIsStudent(b: Batch, next: nat, college: Option<nat>, colleges: map<nat, Limit>,
                             reply: Reply, after: map<nat, User>, i: nat) returns (k: nat)
    requires IdsBelow(b.users, next) && Registers(b, next, college, colleges, reply, after) && reply.Done?
    requires i < |b.rows| && Verdict(b, i).None?
    ensures k < |reply.created| && IsStudentOf(b, i, college, reply.created[k])
    ensures var c := reply.created[k]; c.id !in b.users && c.id in after && after[c.id] == c.user
  {
    k := AcceptedIsVerified(b, i);
    DoneReports(b, next, college, colleges, reply, after);
    VerifiedIsStudent(b, next, college, VerifiedRows(b), i, k);
  }

  lemma VerifiedIsStudent(b: Batch, next: nat, college: Option<nat>, todo: seq<Verified>, i: nat, k: nat)
    requires IdsBelow(b.users, next) && i < |b.rows| && k < |todo| && todo[k] == VerifiedOf(b, i)
    ensures var created, after := CreatedRows(next, todo, college), WithUsers(b.users, next, todo, college);
      && k < |created| && IsStudentOf(b, i, college, created[k])
      && created[k].id !in b.users && created[k].id in after && after[created[k].id] == created[k].user
  {
    CreatedAt(b.users, next, todo, college, k);
    NewUserIsStudent(b, i, college, next + k);
  }

  lemma DoneReports(b: Batch, next: nat, college: Option<nat>, colleges: map<nat, Limit>,
                    reply: Reply, after: map<nat, User>)
    requires Registers(b, next, college, colleges, reply, after) && reply.Done?
    ensures after == WithUsers(b.users, next, VerifiedRows(b), college)
    ensures reply.created == CreatedRows(next, VerifiedRows(b), college) && reply.errors == Reports(b)
    ensures reply.count == |reply.created|
  {
  }

  lemma OthersStay(b: Batch, next: nat, college: Option<nat>, colleges: map<nat, Limit>,
                   reply: Reply, after: map<nat, User>)
    requires IdsBelow(b.users, next) && Registers(b, next, college, colleges, reply, after)
    ensures forall id | id in b.users :: id in after && after[id] == b.users[id]
  {
    var todo := VerifiedRows(b);
    if reply.Done? {
      WithUsersIs(b.users, next, todo, college);
    } else if reply.RollbackFailed? {
      var k: nat :| 0 < k < |todo| && FirstFault(b.env, k) && after == WithUsers(b.users, next, todo[..k], college);
      WithUsersIs(b.users, next, todo[..k], college);
    }
  }

  // -- what a call keeps and means ---------------------------------------------------------------------------

  predicate IdsBelow(users: map<nat, User>, next: nat) {
    forall id | id in users :: id < next
  }

  /** The reply and the users afterwards are determined. */
  lemma RegistersOneWay(b: Batch, next: nat, college: Option<nat>, colleges: map<nat, Limit>,
                        r: Reply, after: map<nat, User>, r': Reply, after': map<nat, User>)
    requires Registers(b, next, college, colleges, r, after) && Registers(b, next, college, colleges, r', after')
    ensures r == r' && after == after'
  {
    if r.RollbackFailed? && r'.RollbackFailed? {
      var todo := VerifiedRows(b);
      var k: nat :| 0 < k < |todo| && FirstFault(b.env, k) && after == WithUsers(b.users, next, todo[..k], college);
      var k': nat :| 0 < k' < |todo| && FirstFault(b.env, k') && after' == WithUsers(b.users, next, todo[..k'], college);
      assert k == k';
    }
  }

  lemma PrefixIsCreatable(users: map<nat, User>, todo: seq<Verified>, k: nat)
    requires Creatable(users, todo) && k <= |todo|
    ensures Creatable(users, todo[..k])
  {
  }

  lemma CreatingKeepsKeysUnique(users: map<nat, User>, next: nat, todo: seq<Verified>, college: Option<nat>)
    requires IdsBelow(users, next) && KeysAreUnique(users) && Creatable(users, todo)
    ensures KeysAreUnique(WithUsers(users, next, todo, college))
  {
    var after := WithUsers(users, next, todo, college);
    WithUsersIs(users, next, todo, college);
    forall i, j | i in after && j in after && i < j
      ensures after[i].email != after[j].email
      ensures after[i].usn.Some? || after[j].usn.Some? ==> after[i].usn != after[j].usn
    {
      if j >= next && j !in users {
        var v := todo[j - next];
        assert after[next + (j - next)] == NewUser(v, college);
        if i in users {
          assert !EmailTaken(users, v.email);
        } else {
          assert after[next + (i - next)] == NewUser(todo[i - next], college);
        }
      }
    }
  }

  /** Whatever the reply, no two users come to share an email or a USN. */
  lemma KeysStayUnique(b: Batch, next: nat, college: Option<nat>, colleges: map<nat, Limit>,
                       reply: Reply, after: map<nat, User>)
    requires IdsBelow(b.users, next) && KeysAreUnique(b.users)
    requires Registers(b, next, college, colleges, reply, after)
    ensures KeysAreUnique(after)
  {
    var todo := VerifiedRows(b);
    VerifiedAreCreatable(b);
    if reply.Done? {
      CreatingKeepsKeysUnique(b.users, next, todo, college);
    } else if reply.RollbackFailed? {
      var k: nat :| 0 < k < |todo| && FirstFault(b.env, k) && after == WithUsers(b.users, next, todo[..k], college);
      PrefixIsCreatable(b.users, todo, k);
      CreatingKeepsKeysUnique(b.users, next, todo[..k], college);
    }
  }

  lemma {:induction false} SeatsGrow(users: map<nat, User>, next: nat, todo: seq<Verified>, c: nat)
    requires IdsBelow(users, next)
    ensures SeatsTaken(WithUsers(users, next, todo, Some(c)), c) == SeatsTaken(users, c) + |todo|
  {
    if todo == [] {
    } else {
      var n := |todo| - 1;
      var before, after := WithUsers(users, next, todo[..n], Some(c)), WithUsers(users, next, todo, Some(c));
      SeatsGrow(users, next, todo[..n], c);
      WithUsersIs(users, next, todo[..n], Some(c));
      assert Members(after, c) == Members(before, c) + {next + n};
    }
  }

  /** A college with a finite limit has, after a call that changed anything, no more users than seats. */
  lemma SeatLimitHolds(b: Batch, next: nat, c: nat, colleges: map<nat, Limit>, reply: Reply, after: map<nat, User>)
    requires IdsBelow(b.users, next) && Registers(b, next, Some(c), colleges, reply, after)
    requires c in colleges && colleges[c].Seats?
    ensures after == b.users || SeatsTaken(after, c) <= colleges[c].seats
    ensures reply.Done? ==> SeatsTaken(after, c) == SeatsTaken(b.users, c) + reply.count
  {
    var todo := VerifiedRows(b);
    if reply.Done? {
      SeatsGrow(b.users, next, todo, c);
    } else if reply.RollbackFailed? {
      var k: nat :| 0 < k < |todo| && FirstFault(b.env, k) && after == WithUsers(b.users, next, todo[..k], Some(c));
      SeatsGrow(b.users, next, todo[..k], c);
    }
  }

  lemma EmailsOfWithUsers(users: map<nat, User>, next: nat, todo: seq<Verified>, college: Option<nat>, email: string)
    requires IdsBelow(users, next)
    ensures EmailTaken(WithUsers(users, next, todo, college), email)
       <==> EmailTaken(users, email) || exists k :: 0 <= k < |todo| && todo[k].email == email
  {
    var after := WithUsers(users, next, todo, college);
    WithUsersIs(users, next, todo, college);
    if id :| id in after && after[id].email == email && id !in users {
      assert after[next + (id - next)] == NewUser(todo[id - next], college);
    }
    if id :| id in users && users[id].email == email {
      assert after[id].email == email;
    }
    if k :| 0 <= k < |todo| && todo[k].email == email {
      assert after[next + k].email == email;
    }
  }

  ghost predicate EmailAccepted(b: Batch, email: string) {
    exists i: nat :: i < |b.rows| && Verdict(b, i).None? && Email(b, i) == email
  }

  lemma VerifiedEmailIsAccepted(b: Batch, k: nat)
    requires k < |VerifiedRows(b)|
    ensures EmailAccepted(b, VerifiedRows(b)[k].email)
  {
    AcceptedAre(b);
    var i := Accepted(b, |b.rows|)[k];
    assert Email(b, i) == VerifiedRows(b)[k].email;
  }

  lemma AcceptedIsVerified(b: Batch, i: nat) returns (k: nat)
    requires i < |b.rows| && Verdict(b, i).None?
    ensures k < |VerifiedRows(b)| && VerifiedRows(b)[k] == VerifiedOf(b, i)
  {
    AcceptedAre(b);
    PickedAre(Passes(b), |b.rows|);
    assert Passes(b)(i);
    var acc := Accepted(b, |b.rows|);
    k :| k < |acc| && acc[k] == i;
  }

  lemma EmailsAfter(b: Batch, next: nat, college: Option<nat>, email: string)
    requires IdsBelow(b.users, next)
    ensures EmailTaken(WithUsers(b.users, next, VerifiedRows(b), college), email)
       <==> EmailTaken(b.users, email) || EmailAccepted(b, email)
  {
    EmailsOfWithUsers(b.users, next, VerifiedRows(b), college, email);
    var todo := VerifiedRows(b);
    if k :| 0 <= k < |todo| && todo[k].email == email {
      VerifiedEmailIsAccepted(b, k);
    }
    if EmailAccepted(b, email) {
      var i: nat :| i < |b.rows| && Verdict(b, i).None? && Email(b, i) == email;
      var k := AcceptedIsVerified(b, i);
    }
  }

  lemma FirstWithEmail(b: Batch, i: nat, j: nat)
    requires i < |b.rows| && j < |b.rows| && Named(b, i) && Named(b, j) && Email(b, i) == Email(b, j)
    requires !RepeatsEmail(b, i) && !RepeatsEmail(b, j)
    ensures i == j
  {
  }

  // What lets the first row of its email through.
  predicate RegistersEmail(b: Batch, j: nat)
    requires j < |b.rows|
  {
    && !RepeatsUsn(b, j) && !b.env.emailLookupFails(j)
    && (Usn(b, j) != "" ==> !b.env.usnLookupFails(j) && !UsnTaken(b.users, Usn(b, j)))
  }

  /** A row refused because an earlier one, `j` the first of them, has its email: that email is a user's
      afterwards exactly when it was before, or row `j` repeats no USN, no lookup for it fails and its USN
      is free. */
  lemma DuplicateEmailIsTakenIff(b: Batch, next: nat, college: Option<nat>, colleges: map<nat, Limit>,
                                 reply: Reply, after: map<nat, User>, i: nat, j: nat)
    requires IdsBelow(b.users, next) && Registers(b, next, college, colleges, reply, after) && reply.Done?
    requires i < |b.rows| && Verdict(b, i) == Some(DuplicateEmail)
    requires j < i && Named(b, j) && Email(b, j) == Email(b, i) && !RepeatsEmail(b, j)
    ensures EmailTaken(after, Email(b, i)) <==> EmailTaken(b.users, Email(b, i)) || RegistersEmail(b, j)
  {
    EmailsAfter(b, next, college, Email(b, i));
    forall k: nat | k < |b.rows| && Verdict(b, k).None? && Email(b, k) == Email(b, i) ensures k == j {
      FirstWithEmail(b, k, j);
    }
  }

  lemma UsnsOfWithUsers(users: map<nat, User>, next: nat, todo: seq<Verified>, college: Option<nat>, usn: string)
    requires IdsBelow(users, next)
    ensures UsnTaken(WithUsers(users, next, todo, college), usn)
       <==> UsnTaken(users, usn) || exists k :: 0 <= k < |todo| && todo[k].usn == Some(usn)
  {
    var after := WithUsers(users, next, todo, college);
    WithUsersIs(users, next, todo, college);
    if id :| id in after && after[id].usn == Some(usn) && id !in users {
      assert after[next + (id - next)] == NewUser(todo[id - next], college);
    }
    if id :| id in users && users[id].usn == Some(usn) {
      assert after[id].usn == Some(usn);
    }
    if k :| 0 <= k < |todo| && todo[k].usn == Some(usn) {
      assert after[next + k].usn == Some(usn);
    }
  }

  ghost predicate UsnAccepted(b: Batch, usn: string) {
    exists i: nat :: i < |b.rows| && Verdict(b, i).None? && Usn(b, i) == usn
  }

  lemma UsnsAfter(b: Batch, next: nat, college: Option<nat>, usn: string)
    requires IdsBelow(b.users, next) && usn != ""
    ensures UsnTaken(WithUsers(b.users, next, VerifiedRows(b), college), usn)
       <==> UsnTaken(b.users, usn) || UsnAccepted(b, usn)
  {
    var todo := VerifiedRows(b);
    UsnsOfWithUsers(b.users, next, todo, college, usn);
    if k :| 0 <= k < |todo| && todo[k].usn == Some(usn) {
      VerifiedUsnIsAccepted(b, k);
    }
    if UsnAccepted(b, usn) {
      var i: nat :| i < |b.rows| && Verdict(b, i).None? && Usn(b, i) == usn;
      var k := AcceptedIsVerified(b, i);
    }
  }

  lemma VerifiedUsnIsAccepted(b: Batch, k: nat)
    requires k < |VerifiedRows(b)| && VerifiedRows(b)[k].usn.Some?
    ensures UsnAccepted(b, VerifiedRows(b)[k].usn.value)
  {
    AcceptedAre(b);
    var i := Accepted(b, |b.rows|)[k];
    assert Optional(Usn(b, i)) == VerifiedRows(b)[k].usn;
  }

  lemma FirstWithUsn(b: Batch, i: nat, j: nat)
    requires i < |b.rows| && j < |b.rows| && Usn(b, i) == Usn(b, j) != ""
    requires Named(b, i) && !RepeatsEmail(b, i) && !RepeatsUsn(b, i)
    requires Named(b, j) && !RepeatsEmail(b, j) && !RepeatsUsn(b, j)
    ensures i == j
  {
  }

  /** The same for USNs: a row refused because an earlier one, `j` the first of them, laid claim to its
      USN. */
  lemma DuplicateUsnIsTakenIff(b: Batch, next: nat, college: Option<nat>, colleges: map<nat, Limit>,
                               reply: Reply, after: map<nat, User>, i: nat, j: nat)
    requires IdsBelow(b.users, next) && Registers(b, next, college, colleges, reply, after) && reply.Done?
    requires i < |b.rows| && Verdict(b, i) == Some(DuplicateUsn)
    requires j < i && Named(b, j) && !RepeatsEmail(b, j) && Usn(b, j) == Usn(b, i) && !RepeatsUsn(b, j)
    ensures UsnTaken(after, Usn(b, i)) <==>
            UsnTaken(b.users, Usn(b, i)) ||
            (!b.env.emailLookupFails(j) && !EmailTaken(b.users, Email(b, j)) && !b.env.usnLookupFails(j))
  {
    DuplicateHasUsn(b, i);
    DoneCreatesAll(b, next, college, colleges, reply, after);
    ClaimedUsnAfter(b, next, college, j);
  }

  lemma DuplicateHasUsn(b: Batch, i: nat)
    requires i < |b.rows| && Verdict(b, i) == Some(DuplicateUsn)
    ensures Usn(b, i) != ""
  {
  }

  lemma DoneCreatesAll(b: Batch, next: nat, college: Option<nat>, colleges: map<nat, Limit>,
                       reply: Reply, after: map<nat, User>)
    requires Registers(b, next, college, colleges, reply, after) && reply.Done?
    ensures after == WithUsers(b.users, next, VerifiedRows(b), college)
  {
  }

  lemma ClaimedUsnAfter(b: Batch, next: nat, college: Option<nat>, j: nat)
    requires IdsBelow(b.users, next) && j < |b.rows| && Usn(b, j) != ""
    requires Named(b, j) && !RepeatsEmail(b, j) && !RepeatsUsn(b, j)
    ensures UsnTaken(WithUsers(b.users, next, VerifiedRows(b), college), Usn(b, j)) <==>
            UsnTaken(b.users, Usn(b, j)) ||
            (!b.env.emailLookupFails(j) && !EmailTaken(b.users, Email(b, j)) && !b.env.usnLookupFails(j))
  {
    UsnsAfter(b, next, college, Usn(b, j));
    AcceptedIfClaimed(b, j);
    ClaimIsPassed(b, j);
  }

  // Only the first row with a USN can bring it in.
  lemma AcceptedIfClaimed(b: Batch, j: nat)
    requires j < |b.rows| && Usn(b, j) != "" && Named(b, j) && !RepeatsEmail(b, j) && !RepeatsUsn(b, j)
    ensures UsnAccepted(b, Usn(b, j)) <==> Verdict(b, j).None?
  {
    if UsnAccepted(b, Usn(b, j)) {
      var k: nat :| k < |b.rows| && Verdict(b, k).None? && Usn(b, k) == Usn(b, j);
      FirstWithUsn(b, k, j);
    }
  }

  lemma ClaimIsPassed(b: Batch, j: nat)
    requires j < |b.rows| && Usn(b, j) != "" && Named(b, j) && !RepeatsEmail(b, j) && !RepeatsUsn(b, j)
    ensures Verdict(b, j).None? <==>
            && !b.env.emailLookupFails(j) && !EmailTaken(b.users, Email(b, j))
            && !b.env.usnLookupFails(j) && !UsnTaken(b.users, Usn(b, j))
  {
  }

  lemma CleanStays(s: string)
    requires Solid(s, IsWhite)
    ensures Trim(s, IsWhite) == s
  {
    TrimRemoves("", s, "", IsWhite);
    assert "" + s + "" == s;
  }

  lemma GoodEmail(e: string)
    requires |e| == 5 && e[1] == '@' && e[3] == '.' && forall k | 0 <= k < 5 && k != 1 :: e[k] != '@' && !IsWhite(e[k])
    ensures EmailFormat(e) && Trim(e, IsWhite) == e
  {
    CleanStays(e);
    var at, dot := 1, 3;
    assert 0 < at < dot - 1 && dot < |e| - 1 && e[at] == '@' && e[dot] == '.';
  }

  lemma RowIs(b: Batch, i: nat, name: string, email: string, usn: string)
    requires i < |b.rows| && b.rows[i] == Row(name, email, usn, "", "") && b.env.lower(email) == email
    requires Solid(name, IsWhite) && (usn == "" || Solid(usn, IsWhite))
    requires EmailFormat(email) && Trim(email, IsWhite) == email
    ensures Named(b, i) && Email(b, i) == email && Usn(b, i) == usn
  {
    CleanStays(name);
    if usn != "" {
      CleanStays(usn);
    }
  }

  // Nothing fails, and nothing is in capitals.
  function QuietEnv(): Env {
    Env((s: string) => s, (n: nat) => "p", (n: nat) => false, (n: nat) => false, (n: nat) => false, false)
  }

  /** A batch of three rows, with no user there and nothing failing: the second is refused for its USN,
      and the third for the second's email, which nobody has. */
  lemma RefusedForNobody() returns (b: Batch)
    ensures |b.rows| == 3 && b.users == map[]
    ensures Verdict(b, 1) == Some(DuplicateUsn) && Verdict(b, 2) == Some(DuplicateEmail)
    ensures !EmailAccepted(b, Email(b, 2))
  {
    var rows := [Row("A", "a@b.c", "U", "", ""), Row("B", "d@e.f", "U", "", ""), Row("B", "d@e.f", "", "", "")];
    b := Batch(rows, "", map[], QuietEnv());
    GoodEmail("a@b.c");
    GoodEmail("d@e.f");
    RowIs(b, 0, "A", "a@b.c", "U");
    RowIs(b, 1, "B", "d@e.f", "U");
    RowIs(b, 2, "B", "d@e.f", "");
    assert "a@b.c"[0] != "d@e.f"[0];
    ThirdForSecond(b);
  }

  lemma ThirdForSecond(b: Batch)
    requires |b.rows| == 3 && Named(b, 0) && Named(b, 1) && Named(b, 2)
    requires Email(b, 0) != Email(b, 1) == Email(b, 2) && Usn(b, 0) == Usn(b, 1) != ""
    ensures Verdict(b, 1) == Some(DuplicateUsn) && Verdict(b, 2) == Some(DuplicateEmail)
    ensures !EmailAccepted(b, Email(b, 2))
  {
    SecondRepeatsUsn(b);
    assert RepeatsEmail(b, 2);
  }

  /** A batch of two rows: the first is refused for its email, which a user has, and the second for the
      first's USN, which nobody has. */
  lemma UsnRefusedForNobody() returns (b: Batch)
    ensures |b.rows| == 2 && Verdict(b, 0) == Some(EmailRegistered) && Verdict(b, 1) == Some(DuplicateUsn)
    ensures Usn(b, 1) != "" && !UsnTaken(b.users, Usn(b, 1)) && !UsnAccepted(b, Usn(b, 1))
  {
    var users: map<nat, User> := map[0 := User("A", "a@b.c", None, None, Student, None)];
    b := Batch([Row("A", "a@b.c", "U", "", ""), Row("B", "d@e.f", "U", "", "")], "", users, QuietEnv());
    GoodEmail("a@b.c");
    GoodEmail("d@e.f");
    RowIs(b, 0, "A", "a@b.c", "U");
    RowIs(b, 1, "B", "d@e.f", "U");
    assert "a@b.c"[0] != "d@e.f"[0];
    assert users[0].email == Email(b, 0);
    SecondForFirst(b);
  }

  lemma SecondForFirst(b: Batch)
    requires |b.rows| == 2 && Named(b, 0) && Named(b, 1) && !b.env.emailLookupFails(0)
    requires Email(b, 0) != Email(b, 1) && Usn(b, 0) == Usn(b, 1) != "" && EmailTaken(b.users, Email(b, 0))
    ensures Verdict(b, 0) == Some(EmailRegistered) && Verdict(b, 1) == Some(DuplicateUsn)
    ensures !UsnAccepted(b, Usn(b, 1))
  {
    SecondRepeatsUsn(b);
    NeitherAccepted(b);
  }

  lemma NeitherAccepted(b: Batch)
    requires |b.rows| == 2 && Verdict(b, 0).Some? && Verdict(b, 1).Some?
    ensures !UsnAccepted(b, Usn(b, 1))
  {
    forall i: nat | i < |b.rows| ensures Verdict(b, i).Some? {
      assert i == 0 || i == 1;
    }
  }

  lemma SecondRepeatsUsn(b: Batch)
    requires 2 <= |b.rows| && Named(b, 0) && Named(b, 1)
    requires Email(b, 0) != Email(b, 1) && Usn(b, 0) == Usn(b, 1) != ""
    ensures !RepeatsEmail(b, 0) && !RepeatsEmail(b, 1) && RepeatsUsn(b, 1) && Verdict(b, 1) == Some(DuplicateUsn)
  {
    assert !RepeatsEmail(b, 0);
  }

  /** Sending the same rows once more creates nobody, if no lookup had failed. */
  lemma SecondCallCreatesNobody(b: Batch, next: nat, college: Option<nat>, colleges: map<nat, Limit>,
                                reply: Reply, after: map<nat, User>)
    requires IdsBelow(b.users, next) && Registers(b, next, college, colleges, reply, after) && reply.Done?
    requires forall i: nat | i < |b.rows| :: !b.env.emailLookupFails(i) && !b.env.usnLookupFails(i)
    ensures VerifiedRows(b.(users := after)) == []
  {
    var again := b.(users := after);
    forall i: nat | i < |b.rows| ensures Verdict(again, i).Some? {
      SecondVerdict(b, next, college, after, i);
    }
    NonePass(again);
  }

  lemma {:induction false} NonePicked(p: nat -> bool, n: nat)
    requires forall i: nat | i < n :: !p(i)
    ensures Picked(p, n) == []
  {
    if n == 0 {
    } else {
      NonePicked(p, n - 1);
    }
  }

  lemma NonePass(b: Batch)
    requires forall i: nat | i < |b.rows| :: Verdict(b, i).Some?
    ensures VerifiedRows(b) == []
  {
    NonePicked(Passes(b), |b.rows|);
  }

  lemma SecondVerdict(b: Batch, next: nat, college: Option<nat>, after: map<nat, User>, i: nat)
    requires IdsBelow(b.users, next) && i < |b.rows| && !b.env.emailLookupFails(i) && !b.env.usnLookupFails(i)
    requires after == WithUsers(b.users, next, VerifiedRows(b), college)
    ensures Verdict(b.(users := after), i).Some?
  {
    var again := b.(users := after);
    WithUsersIs(b.users, next, VerifiedRows(b), college);
    EmailsAfter(b, next, college, Email(b, i));
    assert Named(again, i) == Named(b, i) && Email(again, i) == Email(b, i) && Usn(again, i) == Usn(b, i);
    SameRepeats(b, again, i);
    if UsnTaken(b.users, Usn(b, i)) {
      var id :| id in b.users && b.users[id].usn == Some(Usn(b, i));
      assert after[id].usn == Some(Usn(b, i));
    }
    assert Verdict(b, i).None? ==> EmailAccepted(b, Email(b, i));
  }

  lemma SameRepeats(b: Batch, c: Batch, i: nat)
    requires i < |b.rows| && c == b.(users := c.users)
    ensures RepeatsEmail(b, i) == RepeatsEmail(c, i) && RepeatsUsn(b, i) == RepeatsUsn(c, i)
  {
    assert forall j: nat | j <= i :: Named(b, j) == Named(c, j) && Email(b, j) == Email(c, j) && Usn(b, j) == Usn(c, j);
    assert forall j: nat | j <= i :: RepeatsEmail(b, j) == RepeatsEmail(c, j);
  }
}
