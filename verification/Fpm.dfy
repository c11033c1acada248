/** php-fpm masters: the ones running, the ones that died, and when a dead one
    may come back. */
module Fpm {
  import opened Wrappers
  import opened Ladders

  datatype Master = Master(port: nat, failures: nat)

  /** How often a master died in a row, and when it last did. */
  datatype Death = Death(count: nat, since: Time)

  /** What the machine does around one operation: the time, which running
      masters have exited, and the port each key would get if a master for it
      can be spawned now. */
  datatype Machine<Key(==)> = Machine(now: Time, exited: set<Key>, spawns: map<Key, nat>)

  datatype Pools<Key(==)> = Pools(masters: map<Key, Master>, failed: map<Key, Death>)

  predicate MayStartKey<Key(==)>(failed: map<Key, Death>, k: Key, now: Time) {
    k in failed ==>
      failed[k].count < MAX_FAILURES && now - failed[k].since >= BackoffFor(BACKEND_LADDER, failed[k].count)
  }

  // ---- the operations, as functions ----

  function Reaped<Key>(p: Pools<Key>, k: Key, m: Machine<Key>): Pools<Key> {
    if k in p.masters && k in m.exited then p.(masters := p.masters - {k}) else p
  }

  /** Whether a call of `ensure` starts a master. */
  predicate EnsureStarts<Key>(p: Pools<Key>, k: Key, m: Machine<Key>) {
    k !in Reaped(p, k, m).masters && MayStartKey(p.failed, k, m.now) && k in m.spawns
  }

  function Launched<Key>(p: Pools<Key>, k: Key, port: nat): Pools<Key> {
    Pools(p.masters[k := Master(port, if k in p.failed then p.failed[k].count else 0)], p.failed - {k})
  }

  function Ensured<Key>(p: Pools<Key>, k: Key, m: Machine<Key>): Pools<Key> {
    if EnsureStarts(p, k, m) then Launched(Reaped(p, k, m), k, m.spawns[k]) else Reaped(p, k, m)
  }

  /** The masters among `keys` that have exited move to `failed`. */
  function Buried<Key>(p: Pools<Key>, m: Machine<Key>, keys: set<Key>): Pools<Key> {
    var dead := map k | k in p.masters && k in m.exited && k in keys :: Death(p.masters[k].failures + 1, m.now);
    Pools(p.masters - dead.Keys, p.failed + dead)
  }

  function Supervised<Key>(p: Pools<Key>, m: Machine<Key>): Pools<Key> {
    Buried(p, m, p.masters.Keys)
  }

  /** The dead keys a tick brings back. */
  function Due<Key>(p: Pools<Key>, m: Machine<Key>): set<Key> {
    set k | k in p.failed && EnsureStarts(p, k, m)
  }

  /** The masters in `due` are running again, with their history. */
  function Raised<Key>(p: Pools<Key>, m: Machine<Key>, due: set<Key>): Pools<Key>
    requires due <= p.failed.Keys && due <= m.spawns.Keys
  {
    Pools(p.masters + map k | k in due :: Master(m.spawns[k], p.failed[k].count), p.failed - due)
  }

  function Respawned<Key>(p: Pools<Key>, m: Machine<Key>): Pools<Key> {
    Raised(p, m, Due(p, m))
  }

  /** A pool that answered its status page is healthy. */
  function Answered<Key>(p: Pools<Key>, keys: set<Key>): Pools<Key> {
    p.(masters := map k | k in p.masters :: if k in keys then p.masters[k].(failures := 0) else p.masters[k])
  }

  function Retained<Key>(p: Pools<Key>, keep: set<Key>): Pools<Key> {
    p.(masters := map k | k in p.masters && k in keep :: p.masters[k])
  }

  /** Every reachable state: dead and live keys are apart, live ones are below
      the cap, dead ones at most at it. */
  ghost predicate Valid<Key>(p: Pools<Key>) {
    && p.masters.Keys !! p.failed.Keys
    && (forall k | k in p.masters :: p.masters[k].failures < MAX_FAILURES)
    && (forall k | k in p.failed :: 1 <= p.failed[k].count <= MAX_FAILURES)
  }

  lemma BuryNobody<Key>(p: Pools<Key>, m: Machine<Key>)
    ensures Buried(p, m, {}) == p
    ensures Buried(p, m, p.masters.Keys * m.exited) == Supervised(p, m)
  {
  }

  lemma RaiseNobody<Key>(p: Pools<Key>, m: Machine<Key>)
    ensures Due(p, m) <= p.failed.Keys && Due(p, m) <= m.spawns.Keys
    ensures Raised(p, m, {}) == p
  {
    assert Raised(p, m, {}).masters == p.masters;
  }

  lemma RaisedNext<Key>(p: Pools<Key>, m: Machine<Key>, raised: set<Key>, k: Key)
    requires raised <= p.failed.Keys && raised <= m.spawns.Keys && k in p.failed && k in m.spawns && k !in raised
    ensures Launched(Raised(p, m, raised), k, m.spawns[k]) == Raised(p, m, raised + {k})
  {
    var now := Raised(p, m, raised);
    var next := Raised(p, m, raised + {k});
    assert now.failed[k] == p.failed[k];
    assert Launched(now, k, m.spawns[k]).failed == next.failed;
    assert Launched(now, k, m.spawns[k]).masters == next.masters;
  }

  lemma StillWaiting<Key>(p: Pools<Key>, m: Machine<Key>, raised: set<Key>, k: Key)
    requires Valid(p) && raised <= p.failed.Keys && raised <= m.spawns.Keys && k in p.failed && k !in raised
    ensures var now := Raised(p, m, raised);
            && k in now.failed && now.failed[k] == p.failed[k] && k !in now.masters
            && (EnsureStarts(p, k, m) <==> EnsureStarts(now, k, m))
  {
    hide BackoffFor;
  }

  lemma RaiseOne<Key>(p: Pools<Key>, m: Machine<Key>, raised: set<Key>, k: Key)
    requires Valid(p) && raised <= Due(p, m) && k in p.failed && k !in raised
    ensures var now := Raised(p, m, raised);
            && k in now.failed && now.failed[k] == p.failed[k]
            && (k in Due(p, m) <==> EnsureStarts(now, k, m))
            && k !in now.masters
            && (k in Due(p, m) ==> Launched(now, k, m.spawns[k]) == Raised(p, m, raised + {k}))
  {
    hide BackoffFor, Raised, Launched, MayStartKey;
    StillWaiting(p, m, raised, k);
    if k in Due(p, m) { RaisedNext(p, m, raised, k); }
  }

  lemma BuryOne<Key>(p: Pools<Key>, m: Machine<Key>, buried: set<Key>, k: Key)
    requires k in p.masters && k in m.exited && k !in buried
    ensures var now := Buried(p, m, buried);
            && k in now.masters
            && Buried(p, m, buried + {k})
               == Pools(now.masters - {k}, now.failed[k := Death(now.masters[k].failures + 1, m.now)])
  {
    var now := Buried(p, m, buried);
    var next := Buried(p, m, buried + {k});
    assert next.masters == now.masters - {k};
    assert next.failed == now.failed[k := Death(now.masters[k].failures + 1, m.now)];
  }

  /** The keys of the masters whose port answered. */
  ghost function AnsweredKeys<Key>(masters: map<Key, Master>, scraped: seq<(nat, bool)>): set<Key> {
    set k | k in masters && (masters[k].port, true) in scraped
  }

  ghost predicate DistinctPorts<Key(!new)>(masters: map<Key, Master>) {
    forall j, k | j in masters && k in masters && j != k :: masters[j].port != masters[k].port
  }

  /** After some scrapes: the same masters, healed only if their port answered,
      and always if ports are distinct. */
  ghost predicate Healed<Key(!new)>(was: map<Key, Master>, now: map<Key, Master>, scraped: seq<(nat, bool)>) {
    && now.Keys == was.Keys
    && forall k | k in was ::
         && now[k].port == was[k].port
         && (now[k] == was[k] || (k in AnsweredKeys(was, scraped) && now[k] == was[k].(failures := 0)))
         && (DistinctPorts(was) && k in AnsweredKeys(was, scraped) ==> now[k] == was[k].(failures := 0))
  }

  lemma OneScrapeMore<Key>(masters: map<Key, Master>, scraped: seq<(nat, bool)>, i: nat, k: Key)
    requires i < |scraped| && k in masters
    ensures k in AnsweredKeys(masters, scraped[..i + 1]) <==>
      k in AnsweredKeys(masters, scraped[..i]) || scraped[i] == (masters[k].port, true)
  {
    assert scraped[..i + 1] == scraped[..i] + [scraped[i]];
  }

  lemma HealOne<Key(!new)>(was: map<Key, Master>, now: map<Key, Master>, scraped: seq<(nat, bool)>, i: nat, k: Key)
    requires i < |scraped| && Healed(was, now, scraped[..i]) && k in now && scraped[i] == (now[k].port, true)
    ensures Healed(was, now[k := now[k].(failures := 0)], scraped[..i + 1])
  {
    hide AnsweredKeys;
    forall j | j in was
      ensures j in AnsweredKeys(was, scraped[..i + 1]) <==>
        j in AnsweredKeys(was, scraped[..i]) || scraped[i] == (was[j].port, true)
    {
      OneScrapeMore(was, scraped, i, j);
    }
  }

  lemma HealNone<Key(!new)>(was: map<Key, Master>, now: map<Key, Master>, scraped: seq<(nat, bool)>, i: nat)
    requires i < |scraped| && Healed(was, now, scraped[..i])
    requires scraped[i].1 ==> forall k | k in now :: now[k].port != scraped[i].0
    ensures Healed(was, now, scraped[..i + 1])
  {
    hide AnsweredKeys;
    forall j | j in was
      ensures j in AnsweredKeys(was, scraped[..i + 1]) <==> j in AnsweredKeys(was, scraped[..i])
    {
      OneScrapeMore(was, scraped, i, j);
    }
  }

  lemma AllHealed<Key(!new)>(was: map<Key, Master>, now: map<Key, Master>, scraped: seq<(nat, bool)>, failed: map<Key, Death>)
    requires Healed(was, now, scraped)
    ensures DistinctPorts(was) ==> Pools(now, failed) == Answered(Pools(was, failed), AnsweredKeys(was, scraped))
  {
    hide AnsweredKeys;
    if DistinctPorts(was) { assert now == Answered(Pools(was, failed), AnsweredKeys(was, scraped)).masters; }
  }

  class FpmManager<Key(==,!new)> {
    var masters: map<Key, Master>
    var failed: map<Key, Death>

    ghost function Now(): Pools<Key> reads this {
      Pools(masters, failed)
    }

    constructor ()
      ensures masters == map[] && failed == map[]
    {
      masters := map[];
      failed := map[];
    }

    /** The port of a running master for `key`, if one runs now or could be
        started. */
    method Ensure(key: Key, m: Machine<Key>) returns (port: Option<nat>)
      modifies this
      ensures Now() == Ensured(old(Now()), key, m)
      ensures port == if key in masters then Some(masters[key].port) else None
    {
      if key in masters {
        if key in m.exited {
          masters := masters - {key};
        } else {
          return Some(masters[key].port);
        }
      }
      if key in failed
         && (failed[key].count >= MAX_FAILURES || m.now - failed[key].since < BackoffFor(BACKEND_LADDER, failed[key].count)) {
        return None;
      }
      if key !in m.spawns {
        return None;
      }
      var failures := if key in failed then failed[key].count else 0;
      failed := failed - {key};
      masters := masters[key := Master(m.spawns[key], failures)];
      return Some(m.spawns[key]);
    }

    method Supervise(m: Machine<Key>) returns (changed: bool)
      modifies this
      ensures Now() == Supervised(old(Now()), m)
      ensures changed <==> old(masters).Keys * m.exited != {}
    {
      var dead := masters.Keys * m.exited;
      changed := dead != {};
      ghost var was := Now();
      BuryNobody(was, m);
      hide Buried, Supervised;
      var todo := dead;
      assert dead - dead == {};
      while todo != {}
        invariant todo <= dead
        invariant Now() == Buried(was, m, dead - todo)
        decreases todo
      {
        var k :| k in todo;
        BuryOne(was, m, dead - todo, k);
        assert dead - (todo - {k}) == (dead - todo) + {k};
        todo := todo - {k};
        var failures := masters[k].failures + 1;
        masters := masters - {k};
        failed := failed[k := Death(failures, m.now)];
      }
      assert dead - {} == dead;
    }

    /** Returns the keys it brought back. */
    method RespawnFailed(m: Machine<Key>) returns (started: set<Key>)
      requires Valid(Now())
      modifies this
      ensures Now() == Respawned(old(Now()), m)
      ensures started == Due(old(Now()), m)
    {
      ghost var was := Now();
      ghost var due := Due(was, m);
      RaiseNobody(was, m);
      hide Raised, Due, Valid;
      var candidates := failed.Keys;
      var todo := candidates;
      started := {};
      assert due - candidates == {};
      while todo != {}
        invariant todo <= candidates == was.failed.Keys
        invariant started == due - todo
        invariant Now() == Raised(was, m, started)
        decreases todo
      {
        var k :| k in todo;
        RaiseOne(was, m, started, k);
        todo := todo - {k};
        if failed[k].count < MAX_FAILURES && m.now - failed[k].since >= BackoffFor(BACKEND_LADDER, failed[k].count) {
          var port := Ensure(k, m);
          if port.Some? {
            started := started + {k};
          }
        }
      }
      assert due - {} == due;
    }

    /** What a round of scrapes found, by port. A pool that answered is healthy,
        whatever it failed at before. */
    method ApplyStats(scraped: seq<(nat, bool)>)
      modifies this`masters
      ensures masters.Keys == old(masters).Keys
      ensures forall k | k in masters ::
        (masters[k] == old(masters)[k]
         || (k in AnsweredKeys(old(masters), scraped) && masters[k] == old(masters)[k].(failures := 0)))
      ensures DistinctPorts(old(masters)) ==> Now() == Answered(old(Now()), AnsweredKeys(old(masters), scraped))
    {
      ghost var was := masters;
      for i := 0 to |scraped|
        invariant Healed(was, masters, scraped[..i])
      {
        var (port, answered) := scraped[i];
        if answered && exists k :: k in masters && masters[k].port == port {
          var k :| k in masters && masters[k].port == port;
          HealOne(was, masters, scraped, i, k);
          masters := masters[k := masters[k].(failures := 0)];
        } else {
          HealNone(was, masters, scraped, i);
        }
      }
      assert scraped[..|scraped|] == scraped;
      AllHealed(was, masters, scraped, failed);
    }

    method Retain(keep: set<Key>)
      modifies this
      ensures Now() == Retained(old(Now()), keep)
    {
      masters := map k | k in masters && k in keep :: masters[k];
    }

    method RestartAll() returns (stopped: nat)
      modifies this
      ensures Now() == Retained(old(Now()), {}) && stopped == |old(masters)|
    {
      stopped := |masters|;
      masters := map[];
    }
  }

  // ---- runs ----

  datatype Event<Key(==)> =
    | Requested(key: Key, m: Machine<Key>)   // a request or a reconcile asks for a pool
    | Watched(m: Machine<Key>)               // a tick buries the dead
    | Revived(m: Machine<Key>)               // a tick brings back those that are due
    | Scraped(answered: set<Key>)
    | Kept(keep: set<Key>)                   // a reconcile, or `dpl fpm restart` with nothing kept

  function Step<Key>(p: Pools<Key>, e: Event<Key>): Pools<Key> {
    match e
    case Requested(k, m) => Ensured(p, k, m)
    case Watched(m) => Supervised(p, m)
    case Revived(m) => Respawned(p, m)
    case Scraped(answered) => Answered(p, answered)
    case Kept(keep) => Retained(p, keep)
  }

  /** Whether the step starts a master for `k`. */
  predicate Starts<Key>(p: Pools<Key>, e: Event<Key>, k: Key) {
    match e
    case Requested(key, m) => key == k && EnsureStarts(p, k, m)
    case Revived(m) => k in Due(p, m)
    case _ => false
  }

  function Run<Key>(p: Pools<Key>, es: seq<Event<Key>>): Pools<Key>
    decreases |es|
  {
    if es == [] then p else Run(Step(p, es[0]), es[1..])
  }

  function StartCount<Key>(p: Pools<Key>, es: seq<Event<Key>>, k: Key): nat
    decreases |es|
  {
    if es == [] then 0
    else (if Starts(p, es[0], k) then 1 else 0) + StartCount(Step(p, es[0]), es[1..], k)
  }

  lemma StepKeepsValid<Key>(p: Pools<Key>, e: Event<Key>)
    requires Valid(p)
    ensures Valid(Step(p, e))
  {
  }

  /** In every reachable state dead and live masters are apart and below their
      caps. */
  lemma {:induction false} RunKeepsValid<Key>(p: Pools<Key>, es: seq<Event<Key>>)
    requires Valid(p)
    ensures Valid(Run(p, es))
    decreases |es|
  {
    if es != [] {
      StepKeepsValid(p, es[0]);
      RunKeepsValid(Step(p, es[0]), es[1..]);
    }
  }

  /** No start, by a request, a tick or a reconcile, happens at the cap or
      inside a backoff window; and a start keeps the history. */
  lemma StartsRespectTheLadder<Key>(p: Pools<Key>, e: Event<Key>, k: Key)
    requires Valid(p) && Starts(p, e, k)
    ensures k in p.failed ==>
      && p.failed[k].count < MAX_FAILURES
      && e.m.now >= p.failed[k].since + BackoffFor(BACKEND_LADDER, p.failed[k].count)
    ensures k in Step(p, e).masters && k !in Step(p, e).failed
    ensures Step(p, e).masters[k].failures == if k in p.failed then p.failed[k].count else 0
    ensures k in p.masters ==> k in e.m.exited
  {
  }

  /** A pool that gave up never runs again: no operation at all, `dpl fpm
      restart` included, forgets its deaths. */
  lemma {:induction false} GaveUpIsForever<Key>(p: Pools<Key>, es: seq<Event<Key>>, k: Key)
    requires Valid(p) && k in p.failed && p.failed[k].count == MAX_FAILURES
    ensures k in Run(p, es).failed && Run(p, es).failed[k] == p.failed[k]
    ensures k !in Run(p, es).masters && StartCount(p, es, k) == 0
    decreases |es|
  {
    if es != [] {
      StepKeepsValid(p, es[0]);
      GaveUpIsForever(Step(p, es[0]), es[1..], k);
    }
  }

  /** A dead pool below the cap that can be spawned is running again after the
      first tick past its backoff. */
  lemma DueIsRevived<Key>(p: Pools<Key>, m: Machine<Key>, k: Key)
    requires Valid(p) && k in p.failed && k in m.spawns && p.failed[k].count < MAX_FAILURES
    ensures k in Respawned(p, m).masters <==> m.now >= p.failed[k].since + BackoffFor(BACKEND_LADDER, p.failed[k].count)
  {
  }

  /** When a dead pool comes back: a tick that finds the master dead at `t`, as its
      n-th death in a row, leaves it to a tick at `u` if and only if `t` plus the
      n-th rung is past, and the fifth is the last. */
  lemma DeathsWaitTheirRung<Key>(p: Pools<Key>, m: Machine<Key>, later: Machine<Key>, k: Key)
    requires Valid(p) && k in p.masters && k in m.exited && k in later.spawns
    ensures var n := p.masters[k].failures + 1; var dead := Supervised(p, m);
      && k !in dead.masters && n <= 5
      && (k in Respawned(dead, later).masters <==> n <= 4 && later.now >= m.now + [2, 5, 15, 60, 0][n - 1])
  {
    var n := p.masters[k].failures + 1;
    if n <= 4 { RungsAre(n); }
  }

  /** An answered status page starts a pool's history over: its next death is its
      first. */
  lemma AnsweringForgives<Key>(p: Pools<Key>, answered: set<Key>, m: Machine<Key>, k: Key)
    requires k in p.masters && k in m.exited
    ensures var after := Supervised(Answered(p, answered), m);
            k !in after.masters && k in after.failed
            && after.failed[k] == Death(if k in answered then 1 else p.masters[k].failures + 1, m.now)
  {
  }

  /** The history of `k` is wiped: its pool answered, was stopped while running,
      or was found dead by a request before a tick could record the death. */
  predicate Forgets<Key>(p: Pools<Key>, e: Event<Key>, k: Key) {
    k in p.masters &&
    match e
    case Requested(key, m) => key == k && k in m.exited
    case Scraped(answered) => k in answered
    case Kept(keep) => k !in keep
    case _ => false
  }

  ghost predicate NeverForgets<Key>(p: Pools<Key>, es: seq<Event<Key>>, k: Key)
    decreases |es|
  {
    es == [] || (!Forgets(p, es[0], k) && NeverForgets(Step(p, es[0]), es[1..], k))
  }

  /** Starts that `k`'s recorded history stands for. */
  function Recorded<Key>(p: Pools<Key>, k: Key): nat {
    if k in p.masters then p.masters[k].failures + 1 else if k in p.failed then p.failed[k].count else 0
  }

  lemma StepCounts<Key>(p: Pools<Key>, e: Event<Key>, k: Key)
    requires Valid(p) && !Forgets(p, e, k)
    ensures Recorded(Step(p, e), k) == Recorded(p, k) + if Starts(p, e, k) then 1 else 0
  {
  }

  lemma {:induction false} RunCounts<Key>(p: Pools<Key>, es: seq<Event<Key>>, k: Key)
    requires Valid(p) && NeverForgets(p, es, k)
    ensures Recorded(Run(p, es), k) == Recorded(p, k) + StartCount(p, es, k)
    decreases |es|
  {
    if es != [] {
      StepKeepsValid(p, es[0]);
      StepCounts(p, es[0], k);
      RunCounts(Step(p, es[0]), es[1..], k);
    }
  }

  /** As long as every death is seen by a tick, one pool is started at most five
      times without answering. */
  lemma AtMostFiveStarts<Key>(p: Pools<Key>, es: seq<Event<Key>>, k: Key)
    requires Valid(p) && NeverForgets(p, es, k) && k !in p.masters && k !in p.failed
    ensures StartCount(p, es, k) <= MAX_FAILURES
  {
    RunCounts(p, es, k);
    RunKeepsValid(p, es);
  }

  /** Without that, there is no bound: requests that find the master dead before
      any tick does start it as often as they like. */
  lemma {:induction false} UnseenDeathsHaveNoBound<Key>(k: Key, port: nat, n: nat) returns (es: seq<Event<Key>>)
    ensures StartCount(Pools(map[], map[]), es, k) == n
    ensures forall e | e in es :: e == Requested(k, Machine(0, {k}, map[k := port]))
  {
    es := seq(n, i => Requested(k, Machine(0, {k}, map[k := port])));
    EachRequestStarts(Pools(map[], map[]), es, k, port);
  }

  lemma {:induction false} EachRequestStarts<Key>(p: Pools<Key>, es: seq<Event<Key>>, k: Key, port: nat)
    requires k !in p.failed
    requires forall e | e in es :: e == Requested(k, Machine(0, {k}, map[k := port]))
    ensures StartCount(p, es, k) == |es|
    decreases |es|
  {
    if es != [] {
      assert es[0] in es && forall e | e in es[1..] :: e in es;
      EachRequestStarts(Step(p, es[0]), es[1..], k, port);
    }
  }

  /** Nor is there one when masters are stopped while running: dropped by one
      reconcile and asked for again by the next, a pool that never answers is
      started each time. */
  lemma {:induction false} StoppedPoolsHaveNoBound<Key>(k: Key, port: nat, n: nat) returns (es: seq<Event<Key>>)
    ensures StartCount(Pools(map[], map[]), es, k) == n
    ensures forall e | e in es :: e == Requested(k, Machine(0, {}, map[k := port])) || e == Kept({})
    decreases n
  {
    if n == 0 {
      es := [];
    } else {
      var more := StoppedPoolsHaveNoBound(k, port, n - 1);
      var ask: Event<Key> := Requested(k, Machine(0, {}, map[k := port]));
      var nothing: Pools<Key> := Pools(map[], map[]);
      var running := Step(nothing, ask);
      es := [ask] + ([Kept({})] + more);
      assert running == Pools(map[k := Master(port, 0)], map[]);
      assert Step(running, Kept({})) == nothing;
      assert ([Kept({})] + more)[1..] == more && es[1..] == [Kept({})] + more;
    }
  }
}
