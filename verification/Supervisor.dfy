/** Keeping a child process alive: start it, notice when it exits, back off when
    it keeps exiting, and give up after five failures in a row. Dev servers,
    Jetty tunnels and Octane servers all follow these rules; only their ladders
    and what they are configured with differ. */
module Supervisor {
  import opened Wrappers
  import opened Ladders

  const HEALTHY_AFTER: Time := 30

  datatype Proc<Config> = Proc(config: Config, up: bool, started: Time, failures: nat, retryAt: Option<Time>)

  /** What the world does around one operation: the time, whether a running
      child has exited, and whether a spawn would succeed. */
  datatype World = World(now: Time, exited: bool, spawns: bool)

  function Fresh<Config>(config: Config, now: Time): Proc<Config> {
    Proc(config, false, now, 0, None)
  }

  /** `is_alive`: reaps the child if it has exited. */
  function Reap<Config>(l: Ladder, p: Proc<Config>, w: World): Proc<Config> {
    if p.up && w.exited then
      var failures := if w.now - p.started >= HEALTHY_AFTER then 1 else p.failures + 1;
      p.(up := false, failures := failures, retryAt := Some(w.now + BackoffFor(l, failures)))
    else p
  }

  function Start<Config>(l: Ladder, p: Proc<Config>, w: World): Proc<Config> {
    if w.spawns then p.(up := true, started := w.now)
    else p.(failures := p.failures + 1, retryAt := Some(w.now + BackoffFor(l, p.failures + 1)))
  }

  predicate MayStart<Config>(p: Proc<Config>, now: Time) {
    p.failures < MAX_FAILURES && (p.retryAt.Some? ==> p.retryAt.value <= now)
  }

  function Revive<Config>(l: Ladder, p: Proc<Config>, w: World): Proc<Config> {
    if !p.up && MayStart(p, w.now) then Start(l, p, w) else p
  }

  function Settle<Config>(p: Proc<Config>, now: Time): Proc<Config> {
    if p.up && p.failures > 0 && now - p.started >= HEALTHY_AFTER then p.(failures := 0) else p
  }

  /** One supervision pass over one process. */
  function Tick<Config>(l: Ladder, p: Proc<Config>, w: World): Proc<Config> {
    var seen := Reap(l, p, w);
    if seen.up then Settle(seen, w.now) else Revive(l, seen, w)
  }

  /** `ensure` for a process that keeps its configuration. */
  function Keep<Config>(l: Ladder, p: Proc<Config>, w: World): Proc<Config> {
    Revive(l, Reap(l, p, w), w)
  }

  function Restarted<Config>(l: Ladder, p: Proc<Config>, w: World): Proc<Config> {
    Start(l, p.(up := false, failures := 0, retryAt := None), w)
  }

  // ---- the dev-server and tunnel supervisors ----

  /** `DevServers` (configured by script, package manager and project) and
      `Tunnels` (label, host and port): one entry per site. */
  class SideCars<Config(==)> {
    const ladder: Ladder
    var servers: map<string, Proc<Config>>

    constructor (ladder: Ladder)
      ensures servers == map[] && this.ladder == ladder
    {
      this.ladder := ladder;
      servers := map[];
    }

    method Ensure(site: string, config: Config, w: World)
      modifies this
      ensures servers == old(servers)[site :=
        if site in old(servers) && old(servers)[site].config == config
        then Keep(ladder, old(servers)[site], w)
        else Start(ladder, Fresh(config, w.now), w)]
    {
      if site in servers {
        if servers[site].config == config {
          servers := servers[site := Reap(ladder, servers[site], w)];
          if servers[site].up {
            return;
          }
        } else {
          servers := servers - {site};
        }
      }
      if site !in servers {
        servers := servers[site := Fresh(config, w.now)];
      }
      var entry := servers[site];
      if entry.failures >= MAX_FAILURES {
        return;
      }
      if entry.retryAt.Some? && w.now < entry.retryAt.value {
        return;
      }
      servers := servers[site := Start(ladder, entry, w)];
    }

    method Retain(keep: set<string>)
      modifies this
      ensures servers == map k | k in old(servers) && k in keep :: old(servers)[k]
    {
      servers := map k | k in servers && k in keep :: servers[k];
    }

    /** One pass over every site; `world` says what each site's child did. */
    method Supervise(world: map<string, World>)
      requires servers.Keys <= world.Keys
      modifies this
      ensures servers == map k | k in old(servers) :: Tick(ladder, old(servers)[k], world[k])
    {
      var todo := servers.Keys;
      while todo != {}
        invariant todo <= servers.Keys == old(servers).Keys
        invariant forall k | k in servers ::
          servers[k] == if k in todo then old(servers)[k] else Tick(ladder, old(servers)[k], world[k])
        decreases todo
      {
        var site :| site in todo;
        todo := todo - {site};
        var w := world[site];
        var p := Reap(ladder, servers[site], w);
        if p.up {
          if p.failures > 0 && w.now - p.started >= HEALTHY_AFTER {
            p := p.(failures := 0);
          }
        } else if p.failures < MAX_FAILURES && !(p.retryAt.Some? && w.now < p.retryAt.value) {
          p := Start(ladder, p, w);
        }
        servers := servers[site := p];
      }
    }

    method Restart(site: string, w: World) returns (known: bool)
      modifies this
      ensures known <==> site in old(servers)
      ensures servers == if known then old(servers)[site := Restarted(ladder, old(servers)[site], w)] else old(servers)
    {
      if site !in servers {
        return false;
      }
      var p := servers[site];
      p := p.(up := false);
      p := p.(failures := 0, retryAt := None);
      servers := servers[site := Start(ladder, p, w)];
      return true;
    }
  }

  // ---- runs of one process ----

  datatype Event = Ticked(w: World) | Ensured(w: World) | Bounced(w: World)

  function Act<Config>(l: Ladder, p: Proc<Config>, e: Event): Proc<Config> {
    match e
    case Ticked(w) => Tick(l, p, w)
    case Ensured(w) => Keep(l, p, w)
    case Bounced(w) => Restarted(l, p, w)
  }

  /** Whether the operation tried to start the child. */
  predicate Starts<Config>(l: Ladder, p: Proc<Config>, e: Event) {
    match e
    case Ticked(w) => var seen := Reap(l, p, w); !seen.up && MayStart(seen, w.now)
    case Ensured(w) => var seen := Reap(l, p, w); !seen.up && MayStart(seen, w.now)
    case Bounced(_) => true
  }

  function Run<Config>(l: Ladder, p: Proc<Config>, es: seq<Event>): Proc<Config>
    decreases |es|
  {
    if es == [] then p else Run(l, Act(l, p, es[0]), es[1..])
  }

  /** The times at which the run tried to start the child. */
  function StartTimes<Config>(l: Ladder, p: Proc<Config>, es: seq<Event>): seq<Time>
    decreases |es|
  {
    if es == [] then []
    else (if Starts(l, p, es[0]) then [es[0].w.now] else []) + StartTimes(l, Act(l, p, es[0]), es[1..])
  }

  ghost predicate Ordered(from: Time, es: seq<Event>)
    decreases |es|
  {
    es == [] || (from <= es[0].w.now && Ordered(es[0].w.now, es[1..]))
  }

  /** No intervention, and the child is never seen to last `HEALTHY_AFTER`. What
      counts is when a pass looks, as it does for the supervisor: a death first
      noticed that long after the start is the end of a run that lasted. */
  ghost predicate CrashLooping<Config>(l: Ladder, p: Proc<Config>, es: seq<Event>)
    decreases |es|
  {
    es == [] || (&& !es[0].Bounced?
                 && (p.up ==> es[0].w.now - p.started < HEALTHY_AFTER)
                 && CrashLooping(l, Act(l, p, es[0]), es[1..]))
  }

  predicate Sane<Config>(p: Proc<Config>) {
    p.failures <= MAX_FAILURES && (p.up ==> p.failures < MAX_FAILURES)
  }

  /** One pass, as the failure count sees it: it stays within the cap, and unless
      the child has lasted, it charges exactly the starts. */
  lemma OnePassCharges<Config>(l: Ladder, p: Proc<Config>, w: World)
    requires Sane(p)
    ensures Sane(Tick(l, p, w)) && Sane(Reap(l, p, w))
    ensures var young := p.up ==> w.now - p.started < HEALTHY_AFTER; var up := if p.up then 1 else 0;
            young ==>
              && Reap(l, p, w).failures + (if Reap(l, p, w).up then 1 else 0) == p.failures + up
              && Tick(l, p, w).failures + (if Tick(l, p, w).up then 1 else 0)
                 == p.failures + up + if Starts(l, p, Ticked(w)) then 1 else 0
    ensures Reap(l, p, w).up ==> p.up && !Starts(l, p, Ticked(w))
  {
    hide BackoffFor;
  }

  /** The failure count never passes the cap, in any run whatever. */
  lemma {:induction false} FailuresNeverPassTheCap<Config>(l: Ladder, p: Proc<Config>, es: seq<Event>)
    requires Sane(p)
    ensures Sane(Run(l, p, es))
    decreases |es|
  {
    if es != [] {
      FailuresNeverPassTheCap(l, Act(l, p, es[0]), es[1..]);
    }
  }

  /** A process that gave up changes no more until someone intervenes. */
  lemma {:induction false} GivenUpMeansLeftAlone<Config>(l: Ladder, p: Proc<Config>, es: seq<Event>)
    requires !p.up && p.failures >= MAX_FAILURES
    requires forall e | e in es :: !e.Bounced?
    ensures Run(l, p, es) == p && StartTimes(l, p, es) == []
    decreases |es|
  {
    if es != [] {
      assert es[0] in es && Act(l, p, es[0]) == p;
      assert forall e | e in es[1..] :: e in es;
      GivenUpMeansLeftAlone(l, p, es[1..]);
    }
  }

  // ---- when a failed child is tried again ----

  /** `k` is the first of the events at or after `due`. */
  ghost predicate FirstDue(es: seq<Event>, due: Time, k: int) {
    0 <= k < |es| && es[k].w.now >= due && forall i | 0 <= i < k :: es[i].w.now < due
  }

  ghost predicate NoneDue(es: seq<Event>, due: Time) {
    forall i | 0 <= i < |es| :: es[i].w.now < due
  }

  lemma FirstIsLater(es: seq<Event>, due: Time)
    requires es != []
    ensures es[0].w.now >= due ==> !NoneDue(es, due) && FirstDue(es, due, 0) && forall k | FirstDue(es, due, k) :: k == 0
    ensures es[0].w.now < due ==>
      (NoneDue(es, due) <==> NoneDue(es[1..], due)) && forall k | FirstDue(es, due, k) :: FirstDue(es[1..], due, k - 1) && 0 < k < |es| && es[k] == es[1..][k - 1]
  {
    forall i | 1 <= i < |es|
      ensures es[i] == es[1..][i - 1]
    {
    }
  }

  /** Without an intervention, a child that is down below the cap is tried by the
      first operation at or after the time it waits for, and by none before. */
  lemma {:induction false} TriedWhenDue<Config>(l: Ladder, p: Proc<Config>, due: Time, es: seq<Event>)
    requires !p.up && p.failures < MAX_FAILURES && p.retryAt == Some(due) && forall e | e in es :: !e.Bounced?
    ensures StartTimes(l, p, es) == [] <==> NoneDue(es, due)
    ensures forall k | FirstDue(es, due, k) :: StartTimes(l, p, es) != [] && StartTimes(l, p, es)[0] == es[k].w.now
    decreases |es|
  {
    hide BackoffFor, FirstDue, NoneDue;
    if es == [] {
      NothingIsDue(due);
    } else {
      assert es[0] in es && forall e | e in es[1..] :: e in es;
      FirstIsLater(es, due);
      if es[0].w.now < due {
        assert Act(l, p, es[0]) == p && !Starts(l, p, es[0]);
        TriedWhenDue(l, p, due, es[1..]);
        assert StartTimes(l, p, es) == [] + StartTimes(l, p, es[1..]);
      }
    }
  }

  lemma NothingIsDue(due: Time)
    ensures NoneDue([], due) && forall k :: !FirstDue([], due, k)
  {
  }

  /** The pass finds the child dead, or tries to start it and cannot. */
  predicate Fails<Config>(l: Ladder, p: Proc<Config>, w: World) {
    (p.up && w.exited) || (!p.up && MayStart(p, w.now) && !w.spawns)
  }

  /** Which failure in a row it is: a death after half a minute up is the first
      again. */
  function NthFailure<Config>(p: Proc<Config>, w: World): nat {
    if p.up && w.now - p.started >= 30 then 1 else p.failures + 1
  }

  /** A dev server, tunnel or Octane server that fails at `t` for the n-th time in a
      row, n being at most four, is tried by a later pass at `u` if and only if
      `t` plus the n-th rung is past, and by the first such pass. */
  lemma FailuresWaitTheirRung<Config>(sideCar: bool, p: Proc<Config>, w: World, es: seq<Event>)
    requires var l := if sideCar then SIDECAR_LADDER else BACKEND_LADDER; Fails(l, p, w)
    requires NthFailure(p, w) <= 4 && forall e | e in es :: !e.Bounced?
    ensures var l := if sideCar then SIDECAR_LADDER else BACKEND_LADDER; var n := NthFailure(p, w);
      var rungs := if sideCar then [2, 10, 30, 60] else [2, 5, 15, 60]; var due := w.now + rungs[n - 1];
      var after := Tick(l, p, w);
      && !after.up && after.failures == n
      && (StartTimes(l, after, es) == [] <==> NoneDue(es, due))
      && forall k | FirstDue(es, due, k) :: StartTimes(l, after, es) != [] && StartTimes(l, after, es)[0] == es[k].w.now
  {
    var l := if sideCar then SIDECAR_LADDER else BACKEND_LADDER;
    RungsAre(NthFailure(p, w));
    var n := NthFailure(p, w);
    var due := w.now + BackoffFor(l, n);
    assert Tick(l, p, w) == p.(up := false, failures := n, retryAt := Some(due));
    hide BackoffFor, FirstDue, Tick;
    TriedWhenDue(l, Tick(l, p, w), due, es);
  }

  /** A fifth failure in a row is the last: no pass tries the child again. */
  lemma FifthFailureIsTheLast<Config>(l: Ladder, p: Proc<Config>, w: World, es: seq<Event>)
    requires Fails(l, p, w) && NthFailure(p, w) >= 5 && forall e | e in es :: !e.Bounced?
    ensures StartTimes(l, Tick(l, p, w), es) == []
  {
    hide BackoffFor;
    GivenUpMeansLeftAlone(l, Tick(l, p, w), es);
  }

  /** A process that is down, below the cap and past its wait is started by the
      very next pass. */
  lemma DueMeansStarted<Config>(l: Ladder, p: Proc<Config>, w: World)
    requires !p.up && p.failures < MAX_FAILURES && (p.retryAt.Some? ==> p.retryAt.value <= w.now) && w.spawns
    ensures Tick(l, p, w).up && Tick(l, p, w).started == w.now
    ensures Keep(l, p, w).up && Keep(l, p, w).started == w.now
  {
  }

  /** A child that has lasted `HEALTHY_AFTER` is forgiven: seen up, it has no
      failures; seen dead, it has one and waits only the first rung. */
  lemma LastingIsForgiven<Config>(l: Ladder, p: Proc<Config>, w: World)
    requires p.up && w.now - p.started >= HEALTHY_AFTER
    ensures !w.exited ==> Tick(l, p, w) == p.(failures := 0)
    ensures w.exited ==> Reap(l, p, w) == p.(up := false, failures := 1, retryAt := Some(w.now + l.first))
  {
  }

  ghost predicate Spaced(l: Ladder, times: seq<Time>) {
    forall i | 0 < i < |times| :: times[i] >= times[i - 1] + BackoffFor(l, i)
  }

  lemma OneMoreStart(l: Ladder, times: seq<Time>, now: Time)
    requires Spaced(l, times)
    requires times != [] ==> now >= times[|times| - 1] + BackoffFor(l, |times|)
    ensures Spaced(l, times + [now])
  {
  }

  /** What the failures so far say about the starts so far: one start for each
      failure, and one more while it is up, each after its wait. */
  ghost predicate Accounted<Config>(l: Ladder, p: Proc<Config>, times: seq<Time>, now: Time) {
    && Sane(p)
    && |times| == p.failures + (if p.up then 1 else 0)
    && Spaced(l, times)
    && (p.up ==> times[|times| - 1] == p.started)
    && (times != [] ==> times[|times| - 1] <= now)
    && (!p.up && p.failures > 0 ==> p.retryAt.Some? && p.retryAt.value >= times[|times| - 1] + BackoffFor(l, p.failures))
  }

  lemma ReapIsAccountedFor<Config>(l: Ladder, p: Proc<Config>, times: seq<Time>, now: Time, w: World)
    requires Accounted(l, p, times, now) && now <= w.now
    requires p.up ==> w.now - p.started < HEALTHY_AFTER
    ensures Accounted(l, Reap(l, p, w), times, w.now)
  {
  }

  lemma StepIsAccountedFor<Config>(l: Ladder, p: Proc<Config>, times: seq<Time>, now: Time, e: Event)
    requires Accounted(l, p, times, now) && now <= e.w.now && !e.Bounced?
    requires p.up ==> e.w.now - p.started < HEALTHY_AFTER
    ensures Accounted(l, Act(l, p, e), times + (if Starts(l, p, e) then [e.w.now] else []), e.w.now)
  {
    ReapIsAccountedFor(l, p, times, now, e.w);
    hide Reap, Spaced;
    ReviveIsAccountedFor(l, Reap(l, p, e.w), times, e.w);
  }

  lemma ReviveIsAccountedFor<Config>(l: Ladder, p: Proc<Config>, times: seq<Time>, w: World)
    requires Accounted(l, p, times, w.now) && (p.up ==> w.now - p.started < HEALTHY_AFTER)
    ensures Accounted(l, Revive(l, p, w), times + (if !p.up && MayStart(p, w.now) then [w.now] else []), w.now)
  {
    if !p.up && MayStart(p, w.now) {
      OneMoreStart(l, times, w.now);
    }
  }

  lemma {:induction false} LoopsAreAccountedFor<Config>(l: Ladder, p: Proc<Config>, times: seq<Time>, now: Time, es: seq<Event>)
    returns (end: Time)
    requires Accounted(l, p, times, now) && Ordered(now, es) && CrashLooping(l, p, es)
    ensures Accounted(l, Run(l, p, es), times + StartTimes(l, p, es), end)
    decreases |es|
  {
    hide Accounted, Act, Starts;
    if es == [] {
      assert times + StartTimes(l, p, es) == times;
      end := now;
    } else {
      var e := es[0];
      var times' := times + if Starts(l, p, e) then [e.w.now] else [];
      StepIsAccountedFor(l, p, times, now, e);
      end := LoopsAreAccountedFor(l, Act(l, p, e), times', e.w.now, es[1..]);
      assert times' + StartTimes(l, Act(l, p, e), es[1..]) == times + StartTimes(l, p, es);
    }
  }

  function LadderSum(l: Ladder, n: nat): nat {
    if n == 0 then 0 else LadderSum(l, n - 1) + BackoffFor(l, n)
  }

  lemma WholeLadder(l: Ladder)
    ensures LadderSum(l, 4) == l.first + l.second + l.third + l.later
  {
    assert LadderSum(l, 1) == LadderSum(l, 0) + l.first;
    assert LadderSum(l, 2) == LadderSum(l, 1) + l.second;
    assert LadderSum(l, 3) == LadderSum(l, 2) + l.third;
    assert LadderSum(l, 4) == LadderSum(l, 3) + l.later;
  }

  lemma {:induction false} SpanOfStarts(l: Ladder, times: seq<Time>, n: nat)
    requires n < |times|
    requires forall i | 0 < i < |times| :: times[i] >= times[i - 1] + BackoffFor(l, i)
    ensures times[n] >= times[0] + LadderSum(l, n)
  {
    if n > 0 {
      SpanOfStarts(l, times, n - 1);
    }
  }

  /** A child that never lasts is started at most five times between
      interventions, each start no earlier than its wait allows, so the fifth
      comes at least the whole ladder after the first. */
  lemma CrashLoopsAreBounded<Config>(l: Ladder, config: Config, now: Time, es: seq<Event>)
    requires Ordered(now, es) && CrashLooping(l, Fresh(config, now), es)
    ensures var times := StartTimes(l, Fresh(config, now), es);
            && |times| <= MAX_FAILURES
            && Spaced(l, times)
            && (|times| == MAX_FAILURES ==>
                  times[4] - times[0] >= l.first + l.second + l.third + l.later)
  {
    var p := Fresh(config, now);
    var end := LoopsAreAccountedFor(l, p, [], now, es);
    var times := StartTimes(l, p, es);
    assert [] + times == times;
    if |times| == MAX_FAILURES {
      SpanOfStarts(l, times, 4);
      WholeLadder(l);
    }
  }

  /** The same after `dpl dev restart` or `dpl share restart`, whose own start
      is the first of the five. */
  lemma CrashLoopsAfterRestart<Config>(l: Ladder, p: Proc<Config>, w: World, es: seq<Event>)
    requires Ordered(w.now, es) && CrashLooping(l, Restarted(l, p, w), es)
    ensures var times := StartTimes(l, p, [Bounced(w)] + es);
            && |times| <= MAX_FAILURES
            && Spaced(l, times)
  {
    assert ([Bounced(w)] + es)[1..] == es;
    var q := Restarted(l, p, w);
    assert Accounted(l, q, [w.now], w.now);
    var end := LoopsAreAccountedFor(l, q, [w.now], w.now, es);
  }
}
