/** The routing table and the Octane servers stay in step over every run: what is
    routed to a port is the supervised server that owns it, and a site keeps its
    port for as long as its setup stays the same. */
module Routing {
  import opened Wrappers
  import opened Ladders
  import opened Sites
  import opened Reconcile
  import S = Supervisor
  import O = Octane
  import F = Fpm

  /** One thing done to the backends under the registry lock. */
  datatype Event =
    | Reconciled(php: Php, env: Env, table: Table, anew: bool)
    | Patched(php: Php, env: Env, name: string, found: Option<Site>)
    | Supervised(passes: map<string, O.Pass>)
    | Reloaded(site: string, pass: O.Pass)
    | Restarted(site: string, now: Time)
    | PoolsMoved(pools: F.Pools<MasterKey>)                      // any php-fpm supervision, scrape or restart
    | DevMoved(dev: map<string, S.Proc<DevConfig>>)              // any dev-server supervision or restart
    | TunnelsMoved(tunnels: map<string, S.Proc<TunnelConfig>>)   // any tunnel supervision or restart
    | Repaired(php: Php, env: Env, table: Table)                 // every backend torn down, then reconciled

  predicate WellFormed(e: Event) {
    && (e.Reconciled? || e.Repaired? ==> forall n | n in e.table :: e.table[n].name == n)
    && (e.Patched? && e.found.Some? ==> e.found.value.name == e.name)
  }

  function Step(s: State, e: Event): State {
    match e
    case Reconciled(php, env, table, anew) => Full(s, php, env, table, anew)
    case Patched(php, env, name, site) => Fast(s, php, env, name, site)
    case Supervised(passes) =>
      s.(octane := map n | n in s.octane :: if n in passes then O.Supervised(s.octane[n], passes[n]).0 else s.octane[n])
    case Reloaded(site, pass) =>
      if site in s.octane then s.(octane := s.octane[site := O.AskedToReload(s.octane[site], pass)]) else s
    case Restarted(site, now) =>
      if site in s.octane then s.(octane := s.octane[site := O.BeginRestart(s.octane[site], now)]) else s
    case PoolsMoved(pools) => s.(pools := pools)
    case DevMoved(dev) => s.(dev := dev)
    case TunnelsMoved(tunnels) => s.(tunnels := tunnels)
    case Repaired(php, env, table) => Full(Emptied(s), php, env, table, false)
  }

  function Run(s: State, es: seq<Event>): State
    decreases |es|
  {
    if es == [] then s else Run(Step(s, es[0]), es[1..])
  }

  function UpstreamOf(s: State, n: string): Option<nat> {
    if n in s.routes then s.routes[n].upstream else None
  }

  /** A route has upstream port p exactly when a supervised server for that site
      has port p. */
  ghost predicate InStep(s: State) {
    forall n :: UpstreamOf(s, n) == PortOf(Get(s.octane, n))
  }

  lemma PatchKeepsInStep(s: State, php: Php, env: Env, name: string, site: Option<Site>)
    requires InStep(s) && (site.Some? ==> site.value.name == name)
    ensures InStep(Fast(s, php, env, name, site))
  {
    hide FastPools, FastDev, BinFor, OctaneSlot;
    var after := Fast(s, php, env, name, site);
    forall n
      ensures UpstreamOf(after, n) == PortOf(Get(after.octane, n))
    {
      assert UpstreamOf(s, n) == PortOf(Get(s.octane, n));
    }
  }

  lemma FullIsInStep(s: State, php: Php, env: Env, table: Table, anew: bool)
    requires forall n | n in table :: table[n].name == n
    ensures InStep(Full(s, php, env, table, anew))
  {
    hide FullPools, FullDev, BinFor, OctaneSlot, KeysOf;
  }

  lemma SamePortsStayInStep(s: State, after: State)
    requires InStep(s) && after.routes == s.routes && after.octane.Keys == s.octane.Keys
    requires forall n | n in s.octane :: after.octane[n].port == s.octane[n].port
    ensures InStep(after)
  {
    forall n
      ensures UpstreamOf(after, n) == PortOf(Get(after.octane, n))
    {
      assert UpstreamOf(s, n) == PortOf(Get(s.octane, n));
    }
  }

  lemma StepKeepsInStep(s: State, e: Event)
    requires InStep(s) && WellFormed(e)
    ensures InStep(Step(s, e))
  {
    hide Full, Fast, O.Supervised, O.AskedToReload, O.BeginRestart, InStep;
    match e
    case Reconciled(php, env, table, anew) => FullIsInStep(s, php, env, table, anew);
    case Patched(php, env, name, site) => PatchKeepsInStep(s, php, env, name, site);
    case Repaired(php, env, table) => FullIsInStep(Emptied(s), php, env, table, false);
    case _ =>
      ServersKeepPorts(s, e);
      SamePortsStayInStep(s, Step(s, e));
  }

  predicate SamePlace(a: O.Server, b: O.Server) {
    a.port == b.port && a.proc.config == b.proc.config
  }

  lemma TickKeepsConfig<Config>(p: S.Proc<Config>, w: S.World)
    ensures S.Tick(BACKEND_LADDER, p, w).config == p.config && S.Reap(BACKEND_LADDER, p, w).config == p.config
  {
    hide BackoffFor;
  }

  lemma OneKeepsPort(server: O.Server, pass: O.Pass)
    ensures SamePlace(O.Supervised(server, pass).0, server)
    ensures SamePlace(O.AskedToReload(server, pass), server)
  {
    hide S.Tick, S.Reap, O.Classify;
    TickKeepsConfig(server.proc, pass.world);
    TickKeepsConfig(O.SettleReload(server, pass).proc, pass.world);
  }

  /** Supervising, reloading and restarting keep every server's port and setup. */
  lemma ServersKeepPorts(s: State, e: Event)
    requires e.Supervised? || e.Reloaded? || e.Restarted? || e.PoolsMoved? || e.DevMoved? || e.TunnelsMoved?
    ensures var after := Step(s, e);
      && after.routes == s.routes && after.octane.Keys == s.octane.Keys
      && forall n | n in s.octane ::
           after.octane[n].port == s.octane[n].port && after.octane[n].proc.config == s.octane[n].proc.config
  {
    hide O.Supervised, O.AskedToReload, Full, Fast;
    forall server, pass
      ensures SamePlace(O.Supervised(server, pass).0, server) && SamePlace(O.AskedToReload(server, pass), server)
    {
      OneKeepsPort(server, pass);
    }
  }

  /** Over every run from the daemon's start, routes and servers agree. */
  lemma {:induction false} RunsStayInStep(s: State, es: seq<Event>)
    requires InStep(s) && forall e | e in es :: WellFormed(e)
    ensures InStep(Run(s, es))
    decreases |es|
  {
    hide InStep, Step;
    if es != [] {
      assert es[0] in es && forall e | e in es[1..] :: e in es;
      StepKeepsInStep(s, es[0]);
      RunsStayInStep(Step(s, es[0]), es[1..]);
    }
  }

  /** So from an empty state, whatever happens, every request goes where a server
      of its own site listens. */
  lemma InStepFromTheStart(es: seq<Event>)
    requires forall e | e in es :: WellFormed(e)
    ensures InStep(Run(NothingYet(), es))
  {
    RunsStayInStep(NothingYet(), es);
  }

  /** The event leaves site `n` wanting an Octane server of this setup. */
  ghost predicate KeepsWanting(e: Event, n: string, setup: O.Setup) {
    match e
    case Reconciled(php, _, table, _) => n in table && WantsOctane(table[n]) && SetupFor(php, table[n]) == setup
    case Patched(php, _, name, site) =>
      name == n ==> site.Some? && WantsOctane(site.value) && SetupFor(php, site.value) == setup
    case Repaired(_, _, _) => false
    case _ => true
  }

  lemma FullKeepsPort(s: State, php: Php, env: Env, table: Table, anew: bool, n: string)
    requires n in s.octane && n in table && table[n].name == n
    requires WantsOctane(table[n]) && SetupFor(php, table[n]) == s.octane[n].proc.config
    ensures var after := Full(s, php, env, table, anew);
      n in after.octane && SamePlace(after.octane[n], s.octane[n])
  {
    hide FullPools, FullDev, FullRoutes, BinFor, KeysOf;
  }

  lemma FastKeepsPort(s: State, php: Php, env: Env, name: string, site: Option<Site>, n: string)
    requires InStep(s) && n in s.octane && (site.Some? ==> site.value.name == name)
    requires name == n ==> site.Some? && WantsOctane(site.value) && SetupFor(php, site.value) == s.octane[n].proc.config
    ensures var after := Fast(s, php, env, name, site);
      n in after.octane && SamePlace(after.octane[n], s.octane[n])
  {
    hide FastPools, FastDev, BinFor, KeyFor;
    assert UpstreamOf(s, n) == PortOf(Get(s.octane, n));
  }

  lemma StepKeepsPort(s: State, e: Event, n: string)
    requires InStep(s) && WellFormed(e) && n in s.octane && KeepsWanting(e, n, s.octane[n].proc.config)
    ensures var after := Step(s, e);
      n in after.octane && SamePlace(after.octane[n], s.octane[n])
  {
    hide Full, Fast, O.Supervised, O.AskedToReload, InStep, BinFor;
    match e
    case Reconciled(php, env, table, anew) => FullKeepsPort(s, php, env, table, anew, n);
    case Patched(php, env, name, found) => FastKeepsPort(s, php, env, name, found, n);
    case Repaired(_, _, _) =>
    case _ => ServersKeepPorts(s, e);
  }

  /** As long as a site's runtime, PHP binary and project stay the same and the
      backends are not torn down, its upstream port never changes: not by
      reconciles, nor by changes to other sites, crashes, reloads or restarts. */
  lemma {:induction false} PortsAreStable(s: State, es: seq<Event>, n: string)
    requires InStep(s) && n in s.octane
    requires forall e | e in es :: WellFormed(e) && KeepsWanting(e, n, s.octane[n].proc.config)
    ensures UpstreamOf(Run(s, es), n) == Some(s.octane[n].port)
    decreases |es|
  {
    hide Step, KeepsWanting, WellFormed;
    if es == [] {
      assert UpstreamOf(s, n) == PortOf(Get(s.octane, n));
    } else {
      assert es[0] in es && forall e | e in es[1..] :: e in es;
      StepKeepsInStep(s, es[0]);
      StepKeepsPort(s, es[0], n);
      PortsAreStable(Step(s, es[0]), es[1..], n);
    }
  }
}
