/** The fixed-window submission quota: one expiring counter per scope and window. Times are
    milliseconds; the window length is the configured number of seconds, in milliseconds. */
module Quota {
  import opened Options

  type Scope = string

  // A counter whose lifetime could not be set never expires.
  datatype Entry = Entry(count: nat, expiresAt: Option<nat>)

  // Counters by scope and window number.
  datatype Key = Key(scope: Scope, window: nat)

  type Store = map<Key, Entry>

  datatype Config = Config(limit: nat, windowMs: nat)

  /** `lifetimeSet`: if the request creates a counter, setting its lifetime succeeds. */
  datatype Request = Request(scope: Scope, at: nat, lifetimeSet: bool)

  /** The number of the window a time falls into: how many whole windows come before it. */
  function Window(cfg: Config, at: nat): nat
    requires cfg.windowMs > 0
  {
    if at < cfg.windowMs then 0 else Window(cfg, at - cfg.windowMs) + 1
  }

  lemma WindowIsFloor(cfg: Config, at: nat)
    requires cfg.windowMs > 0
    ensures Window(cfg, at) == at / cfg.windowMs
  {
    WindowStarts(cfg, at);
    QuotientIs(at, Window(cfg, at), cfg.windowMs);
  }

  lemma {:induction false} WindowStarts(cfg: Config, at: nat)
    requires cfg.windowMs > 0
    ensures Window(cfg, at) * cfg.windowMs <= at < Window(cfg, at) * cfg.windowMs + cfg.windowMs
  {
    if at < cfg.windowMs {
      OneMore(0, cfg.windowMs);
    } else {
      WindowStarts(cfg, at - cfg.windowMs);
      OneMore(Window(cfg, at - cfg.windowMs), cfg.windowMs);
    }
  }

  lemma OneMore(n: nat, w: nat)
    ensures (n + 1) * w == n * w + w && 0 * w == 0
  {
  }

  lemma QuotientIs(x: nat, q: nat, w: nat)
    requires w > 0 && q * w <= x < q * w + w
    ensures q == x / w
  {
    var p := x / w;
    DivisionLeaves(x, w);
    if p < q {
      MultiplyMonotone(p + 1, q, w);
      OneMore(p, w);
    } else if q < p {
      MultiplyMonotone(q + 1, p, w);
      OneMore(q, w);
    }
  }

  lemma DivisionLeaves(x: nat, w: nat)
    requires w > 0
    ensures (x / w) * w <= x < (x / w) * w + w
  {
    assert x == (x / w) * w + x % w;
  }

  lemma MultiplyMonotone(x: nat, y: nat, w: nat)
    requires x <= y
    ensures x * w <= y * w
  {
  }

  /** What is left in the store at time `now`. */
  function Live(db: Store, now: nat): Store {
    map k | k in db && (db[k].expiresAt.None? || now < db[k].expiresAt.value) :: db[k]
  }

  /** Increment, and set the lifetime of a counter that was just created, if that succeeds. */
  function Counted(cfg: Config, db: Store, r: Request): Store
    requires cfg.windowMs > 0
  {
    var live, key := Live(db, r.at), Key(r.scope, Window(cfg, r.at));
    if key in live then live[key := Entry(live[key].count + 1, live[key].expiresAt)]
    else live[key := Entry(1, if r.lifetimeSet then Some(r.at + cfg.windowMs) else None)]
  }

  function CountFor(cfg: Config, db: Store, r: Request): nat
    requires cfg.windowMs > 0
  {
    Counted(cfg, db, r)[Key(r.scope, Window(cfg, r.at))].count
  }

  /** Within the limit, or the first of its counter with that counter's lifetime not set: then the check
      has failed, and fails open. */
  predicate Allows(cfg: Config, db: Store, r: Request)
    requires cfg.windowMs > 0
  {
    CountFor(cfg, db, r) <= cfg.limit || (Key(r.scope, Window(cfg, r.at)) !in Live(db, r.at) && !r.lifetimeSet)
  }

  class QuotaStore {
    const cfg: Config
    var db: Store

    constructor (cfg: Config)
      ensures this.cfg == cfg && db == map[]
    {
      this.cfg := cfg;
      db := map[];
    }

    /** Without Redis, or without a scope, the check fails open and counts nothing. */
    method CheckFixedWindowQuota(redisUp: bool, lifetimeSet: bool, scope: Scope, now: nat) returns (allowed: bool)
      requires cfg.windowMs > 0
      modifies this`db
      ensures !redisUp || scope == "" ==> allowed && db == old(db)
      ensures redisUp && scope != "" ==>
                && db == Counted(cfg, old(db), Request(scope, now, lifetimeSet))
                && allowed == Allows(cfg, old(db), Request(scope, now, lifetimeSet))
    {
      if !redisUp || scope == "" {
        return true;
      }
      var windowStart := now / cfg.windowMs;
      WindowIsFloor(cfg, now);
      var key := Key(scope, windowStart);
      db := Live(db, now);
      var count := 1;
      if key in db {
        count := db[key].count + 1;
        db := db[key := Entry(count, db[key].expiresAt)];
      } else {
        db := db[key := Entry(count, None)];
        if !lifetimeSet {
          return true;
        }
        db := db[key := Entry(count, Some(now + cfg.windowMs))];
      }
      return count <= cfg.limit;
    }
  }

  // -- runs of requests -------------------------------------------------------------------------------

  ghost predicate InTimeOrder(rs: seq<Request>) {
    forall i, j | 0 <= i < j < |rs| :: rs[i].at <= rs[j].at
  }

  function After(cfg: Config, rs: seq<Request>, n: nat): Store
    requires cfg.windowMs > 0 && n <= |rs|
  {
    if n == 0 then map[] else Counted(cfg, After(cfg, rs, n - 1), rs[n - 1])
  }

  predicate Admitted(cfg: Config, rs: seq<Request>, i: nat)
    requires cfg.windowMs > 0 && i < |rs|
  {
    Allows(cfg, After(cfg, rs, i), rs[i])
  }

  /** How many of the first `n` requests were for this scope and window. */
  function Asked(cfg: Config, rs: seq<Request>, n: nat, scope: Scope, window: nat): nat
    requires cfg.windowMs > 0 && n <= |rs|
  {
    if n == 0 then 0
    else Asked(cfg, rs, n - 1, scope, window) +
         if rs[n - 1].scope == scope && Window(cfg, rs[n - 1].at) == window then 1 else 0
  }

  /** ... and how many of those were admitted. */
  function AdmittedInWindow(cfg: Config, rs: seq<Request>, n: nat, scope: Scope, window: nat): nat
    requires cfg.windowMs > 0 && n <= |rs|
  {
    if n == 0 then 0
    else AdmittedInWindow(cfg, rs, n - 1, scope, window) +
         if rs[n - 1].scope == scope && Window(cfg, rs[n - 1].at) == window && Admitted(cfg, rs, n - 1) then 1 else 0
  }

  /** How many of the first `n` requests of this scope were admitted in [from, from + one window). */
  function AdmittedWithin(cfg: Config, rs: seq<Request>, n: nat, scope: Scope, from: nat): nat
    requires cfg.windowMs > 0 && n <= |rs|
  {
    if n == 0 then 0
    else AdmittedWithin(cfg, rs, n - 1, scope, from) +
         if rs[n - 1].scope == scope && from <= rs[n - 1].at < from + cfg.windowMs && Admitted(cfg, rs, n - 1) then 1 else 0
  }

  lemma {:induction false} WindowsAreOrdered(cfg: Config, a: nat, b: nat)
    requires cfg.windowMs > 0 && a <= b
    ensures Window(cfg, a) <= Window(cfg, b)
  {
    if a < cfg.windowMs {
    } else {
      WindowsAreOrdered(cfg, a - cfg.windowMs, b - cfg.windowMs);
    }
  }

  // The counter lasts until its window is over.
  predicate NotYet(cfg: Config, k: Key, e: Entry)
    requires cfg.windowMs > 0
  {
    e.expiresAt.None? || k.window < Window(cfg, e.expiresAt.value)
  }

  /** From window `now` on, the counters hold the numbers of requests so far, and none expires before
      the window after its own. */
  ghost predicate Faithful(cfg: Config, rs: seq<Request>, n: nat, db: Store, now: nat)
    requires cfg.windowMs > 0 && n <= |rs|
  {
    && (forall k | k in db :: Counts(cfg, rs, n, k, db[k]))
    && (forall k: Key | now <= k.window && k !in db :: Asked(cfg, rs, n, k.scope, k.window) == 0)
  }

  predicate Counts(cfg: Config, rs: seq<Request>, n: nat, k: Key, e: Entry)
    requires cfg.windowMs > 0 && n <= |rs|
  {
    e.count > 0 && e.count == Asked(cfg, rs, n, k.scope, k.window) && NotYet(cfg, k, e)
  }

  /** The window of the last of the first `n` requests. */
  function LastWindow(cfg: Config, rs: seq<Request>, n: nat): nat
    requires cfg.windowMs > 0 && n <= |rs|
  {
    if n == 0 then 0 else Window(cfg, rs[n - 1].at)
  }

  lemma {:induction false} StoreIsFaithful(cfg: Config, rs: seq<Request>, n: nat)
    requires cfg.windowMs > 0 && n <= |rs| && InTimeOrder(rs)
    ensures Faithful(cfg, rs, n, After(cfg, rs, n), LastWindow(cfg, rs, n))
  {
    if n == 0 {
    } else {
      StoreIsFaithful(cfg, rs, n - 1);
      RequestKeepsFaithful(cfg, rs, n - 1);
    }
  }

  lemma RequestKeepsFaithful(cfg: Config, rs: seq<Request>, n: nat)
    requires cfg.windowMs > 0 && n < |rs| && InTimeOrder(rs)
    requires Faithful(cfg, rs, n, After(cfg, rs, n), LastWindow(cfg, rs, n))
    ensures Faithful(cfg, rs, n + 1, After(cfg, rs, n + 1), LastWindow(cfg, rs, n + 1))
  {
    var now := rs[n].at;
    NoCounterExpiresInItsWindow(cfg, rs, n, now);
    NextWindow(cfg, now);
    CountingIsFaithful(cfg, rs, n, Live(After(cfg, rs, n), now));
  }

  lemma NextWindow(cfg: Config, at: nat)
    requires cfg.windowMs > 0
    ensures Window(cfg, at + cfg.windowMs) == Window(cfg, at) + 1
  {
    assert at + cfg.windowMs - cfg.windowMs == at;
  }

  lemma AskedOnce(cfg: Config, rs: seq<Request>, n: nat, k: Key)
    requires cfg.windowMs > 0 && n < |rs|
    ensures Asked(cfg, rs, n + 1, k.scope, k.window) ==
            Asked(cfg, rs, n, k.scope, k.window) + if k == Key(rs[n].scope, Window(cfg, rs[n].at)) then 1 else 0
  {
  }

  lemma CountingIsFaithful(cfg: Config, rs: seq<Request>, n: nat, live: Store)
    requires cfg.windowMs > 0 && n < |rs| && live == Live(After(cfg, rs, n), rs[n].at)
    requires Faithful(cfg, rs, n, live, Window(cfg, rs[n].at))
    requires Window(cfg, rs[n].at + cfg.windowMs) == Window(cfg, rs[n].at) + 1
    ensures Faithful(cfg, rs, n + 1, Counted(cfg, After(cfg, rs, n), rs[n]), Window(cfg, rs[n].at))
  {
    var db, key := Counted(cfg, After(cfg, rs, n), rs[n]), Key(rs[n].scope, Window(cfg, rs[n].at));
    OnlyOneCounterMoves(cfg, After(cfg, rs, n), rs[n]);
    forall k | k in db ensures Counts(cfg, rs, n + 1, k, db[k]) {
      AskedOnce(cfg, rs, n, k);
      if k == key {
        CountsOneMore(cfg, rs, n, live);
      } else {
        assert Counts(cfg, rs, n, k, live[k]);
      }
    }
    forall k: Key | key.window <= k.window && k !in db ensures Asked(cfg, rs, n + 1, k.scope, k.window) == 0 {
      AskedOnce(cfg, rs, n, k);
    }
  }

  lemma OnlyOneCounterMoves(cfg: Config, db: Store, r: Request)
    requires cfg.windowMs > 0
    ensures var live, now, key := Live(db, r.at), Counted(cfg, db, r), Key(r.scope, Window(cfg, r.at));
      && key in now && now[key].count == (if key in live then live[key].count + 1 else 1)
      && now[key].expiresAt == (
           if key in live then live[key].expiresAt else if r.lifetimeSet then Some(r.at + cfg.windowMs) else None)
      && (forall k | k != key :: k in now <==> k in live)
      && (forall k | k in live && k != key :: now[k] == live[k])
  {
  }

  lemma CountsOneMore(cfg: Config, rs: seq<Request>, n: nat, live: Store)
    requires cfg.windowMs > 0 && n < |rs| && live == Live(After(cfg, rs, n), rs[n].at)
    requires Faithful(cfg, rs, n, live, Window(cfg, rs[n].at))
    requires Window(cfg, rs[n].at + cfg.windowMs) == Window(cfg, rs[n].at) + 1
    ensures var key := Key(rs[n].scope, Window(cfg, rs[n].at));
      key in Counted(cfg, After(cfg, rs, n), rs[n]) && Counts(cfg, rs, n + 1, key, Counted(cfg, After(cfg, rs, n), rs[n])[key])
  {
    var key := Key(rs[n].scope, Window(cfg, rs[n].at));
    OnlyOneCounterMoves(cfg, After(cfg, rs, n), rs[n]);
    AskedOnce(cfg, rs, n, key);
    if key in live {
      assert Counts(cfg, rs, n, key, live[key]);
    }
  }

  /** Purging at `now` loses only counters of windows that are over. */
  lemma NoCounterExpiresInItsWindow(cfg: Config, rs: seq<Request>, n: nat, now: nat)
    requires cfg.windowMs > 0 && n <= |rs|
    requires n > 0 ==> rs[n - 1].at <= now
    requires Faithful(cfg, rs, n, After(cfg, rs, n), LastWindow(cfg, rs, n))
    ensures Faithful(cfg, rs, n, Live(After(cfg, rs, n), now), Window(cfg, now))
    ensures forall k | k in After(cfg, rs, n) && Window(cfg, now) <= k.window :: k in Live(After(cfg, rs, n), now)
  {
    var db := After(cfg, rs, n);
    if n > 0 {
      WindowsAreOrdered(cfg, rs[n - 1].at, now);
    }
    forall k | k in db && Window(cfg, now) <= k.window ensures k in Live(db, now) {
      if db[k].expiresAt.Some? && db[k].expiresAt.value <= now {
        WindowsAreOrdered(cfg, db[k].expiresAt.value, now);
      }
    }
  }

  /** A request is admitted exactly when fewer than `limit` of its scope came before it in its window, or
      it is the first there and the lifetime of its counter could not be set. */
  lemma AdmittedIff(cfg: Config, rs: seq<Request>, i: nat)
    requires cfg.windowMs > 0 && i < |rs| && InTimeOrder(rs)
    ensures var before := Asked(cfg, rs, i, rs[i].scope, Window(cfg, rs[i].at));
      Admitted(cfg, rs, i) <==> before < cfg.limit || (before == 0 && !rs[i].lifetimeSet)
  {
    StoreIsFaithful(cfg, rs, i);
    NoCounterExpiresInItsWindow(cfg, rs, i, rs[i].at);
  }

  /** Each window admits as many requests as were made, up to the limit, whatever other scopes do; and a
      limit of zero lets one through at most. */
  lemma {:induction false} WindowAdmitsUpToLimit(cfg: Config, rs: seq<Request>, n: nat, scope: Scope, window: nat)
    requires cfg.windowMs > 0 && n <= |rs| && InTimeOrder(rs)
    ensures var asked, admitted := Asked(cfg, rs, n, scope, window), AdmittedInWindow(cfg, rs, n, scope, window);
      && admitted <= asked
      && (cfg.limit > 0 ==> admitted == if asked <= cfg.limit then asked else cfg.limit)
      && (cfg.limit == 0 ==> admitted <= 1 && (LifetimesSet(rs) ==> admitted == 0))
  {
    if n == 0 {
    } else {
      WindowAdmitsUpToLimit(cfg, rs, n - 1, scope, window);
      AdmittedIff(cfg, rs, n - 1);
    }
  }

  predicate LifetimesSet(rs: seq<Request>) {
    forall i | 0 <= i < |rs| :: rs[i].lifetimeSet
  }

  lemma {:induction false} IntervalSpansTwoWindows(cfg: Config, rs: seq<Request>, n: nat, scope: Scope, from: nat)
    requires cfg.windowMs > 0 && n <= |rs|
    ensures AdmittedWithin(cfg, rs, n, scope, from) <=
            AdmittedInWindow(cfg, rs, n, scope, Window(cfg, from)) + AdmittedInWindow(cfg, rs, n, scope, Window(cfg, from) + 1)
  {
    if n == 0 {
    } else {
      IntervalSpansTwoWindows(cfg, rs, n - 1, scope, from);
      if from <= rs[n - 1].at < from + cfg.windowMs {
        WindowsAreOrdered(cfg, from, rs[n - 1].at);
        WindowsAreOrdered(cfg, rs[n - 1].at, from + cfg.windowMs);
      }
    }
  }

  /** Any stretch of time one window long, aligned or not, admits at most twice the limit, unless that is
      zero and the lifetime of a counter could not be set: then two. */
  lemma RateIsBounded(cfg: Config, rs: seq<Request>, scope: Scope, from: nat)
    requires cfg.windowMs > 0 && InTimeOrder(rs)
    ensures AdmittedWithin(cfg, rs, |rs|, scope, from) <=
            if cfg.limit == 0 && !LifetimesSet(rs) then 2 else 2 * cfg.limit
  {
    IntervalSpansTwoWindows(cfg, rs, |rs|, scope, from);
    WindowAdmitsUpToLimit(cfg, rs, |rs|, scope, Window(cfg, from));
    WindowAdmitsUpToLimit(cfg, rs, |rs|, scope, Window(cfg, from) + 1);
  }

  /** `limit` requests in the last millisecond of window 0, and as many in the first of window 1. */
  function Burst(cfg: Config, scope: Scope): (rs: seq<Request>)
    requires cfg.windowMs > 1
    ensures |rs| == 2 * cfg.limit
  {
    seq(2 * cfg.limit, i requires 0 <= i < 2 * cfg.limit =>
      Request(scope, if i < cfg.limit then cfg.windowMs - 1 else cfg.windowMs, true))
  }

  lemma {:induction false} BurstAsks(cfg: Config, scope: Scope, n: nat)
    requires cfg.windowMs > 1 && n <= 2 * cfg.limit
    ensures Asked(cfg, Burst(cfg, scope), n, scope, 0) == (if n < cfg.limit then n else cfg.limit)
    ensures Asked(cfg, Burst(cfg, scope), n, scope, 1) == (if n < cfg.limit then 0 else n - cfg.limit)
  {
    if n == 0 {
    } else {
      BurstAsks(cfg, scope, n - 1);
      FirstWindows(cfg);
    }
  }

  lemma BurstAdmitsEach(cfg: Config, scope: Scope, n: nat)
    requires cfg.windowMs > 1 && n < 2 * cfg.limit
    ensures Admitted(cfg, Burst(cfg, scope), n)
  {
    BurstAsks(cfg, scope, n);
    FirstWindows(cfg);
    AdmittedIff(cfg, Burst(cfg, scope), n);
  }

  lemma {:induction false} BurstIsAdmitted(cfg: Config, scope: Scope, n: nat)
    requires cfg.windowMs > 1 && n <= 2 * cfg.limit
    ensures AdmittedWithin(cfg, Burst(cfg, scope), n, scope, cfg.windowMs - 1) == n
  {
    if n == 0 {
    } else {
      BurstIsAdmitted(cfg, scope, n - 1);
      BurstAdmitsEach(cfg, scope, n - 1);
    }
  }

  lemma FirstWindows(cfg: Config)
    requires cfg.windowMs > 1
    ensures Window(cfg, cfg.windowMs - 1) == 0 && Window(cfg, cfg.windowMs) == 1
  {
    assert Window(cfg, 0) == 0;
  }

  /** The bound is reached, for every limit and window, so it cannot be improved. */
  lemma RateBoundIsTight(cfg: Config, scope: Scope)
    requires cfg.windowMs > 1
    ensures var rs := Burst(cfg, scope);
            InTimeOrder(rs) && AdmittedWithin(cfg, rs, |rs|, scope, cfg.windowMs - 1) == 2 * cfg.limit
  {
    BurstIsAdmitted(cfg, scope, 2 * cfg.limit);
  }
}
