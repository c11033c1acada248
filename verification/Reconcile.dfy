/** What reconciling means: which backends the configured sites call for, what a
    full reconcile makes of the running ones, what the single-site fast path
    makes of them, and why the two agree. */
module Reconcile {
  import opened Wrappers
  import opened Text
  import opened Ladders
  import Xdebug
  import opened Sites
  import S = Supervisor
  import O = Octane
  import F = Fpm

  // ---- what a site calls for ----

  /** The php-fpm master a site belongs to. */
  datatype MasterKey = MasterKey(phpBin: string, mode: Xdebug.Mode, profile: bool, preload: Option<string>)

  /** The installed PHP versions, and the binary used when none is pinned or the
      pin is not installed. */
  datatype Php = Php(versions: map<string, string>, defaultBin: string)

  datatype DevConfig = DevConfig(script: string, agent: string, project: string)

  /** A tunnel's reserved subdomain, and the local host and port it forwards to. */
  datatype TunnelConfig = TunnelConfig(subdomain: string, host: string, port: nat)

  function BinFor(php: Php, site: Site): string {
    if site.php.Some? && site.php.value in php.versions then php.versions[site.php.value] else php.defaultBin
  }

  function KeyFor(php: Php, site: Site): MasterKey {
    MasterKey(BinFor(php, site), site.xdebug, site.profile, site.preload)
  }

  predicate WantsOctane(site: Site) {
    site.runtime.Some? && site.runtime.value != "fpm" && site.runtime.value != ""
  }

  function SetupFor(php: Php, site: Site): O.Setup
    requires WantsOctane(site)
  {
    O.Setup(site.runtime.value, BinFor(php, site), site.path)
  }

  predicate WantsDev(site: Site) {
    site.dev.Some? && site.dev.value != ""
  }

  function DevConfigFor(env: Env, site: Site): DevConfig
    requires WantsDev(site)
  {
    DevConfig(site.dev.value, env.agent(site.path), site.path)
  }

  predicate WantsShare(site: Site) {
    site.share.Some? && site.share.value != ""
  }

  function TunnelFor(env: Env, site: Site): TunnelConfig
    requires WantsShare(site)
  {
    TunnelConfig(site.share.value, site.name + "." + site.tld, env.httpPort)
  }

  /** What the machine answers while one reconcile runs: the php-fpm machine,
      what starting an Octane server for a site would meet, what each dev
      server's and each tunnel's child did, each project's package manager, and
      the port the proxy listens on. */
  datatype Env = Env(
    fpm: F.Machine<MasterKey>, launch: string -> O.Launch, world: string -> S.World, tunnel: string -> S.World,
    agent: string -> string, httpPort: nat)

  // ---- the running state ----

  datatype Route = Route(docroot: string, key: MasterKey, secure: bool, upstream: Option<nat>)

  datatype State = State(
    pools: F.Pools<MasterKey>, octane: map<string, O.Server>, dev: map<string, S.Proc<DevConfig>>,
    tunnels: map<string, S.Proc<TunnelConfig>>, routes: map<string, Route>)

  type Table = map<string, Site>

  function Get<K, V>(m: map<K, V>, k: K): Option<V> {
    if k in m then Some(m[k]) else None
  }

  // ---- php-fpm: many keys at once ----

  /** Whether `k` has a running master once it has been asked for. */
  predicate LiveAfter<K(==)>(p: F.Pools<K>, k: K, m: F.Machine<K>) {
    (k in p.masters && k !in m.exited) || F.EnsureStarts(p, k, m)
  }

  function EnsuredAll<K(==)>(p: F.Pools<K>, keys: set<K>, m: F.Machine<K>): F.Pools<K> {
    F.Pools(
      map k | k in p.masters.Keys + keys && (if k in keys then LiveAfter(p, k, m) else k in p.masters) ::
        if k in keys && F.EnsureStarts(p, k, m)
        then F.Master(m.spawns[k], if k in p.failed then p.failed[k].count else 0)
        else p.masters[k],
      map k | k in p.failed && !(k in keys && F.EnsureStarts(p, k, m)) :: p.failed[k])
  }

  /** Masters started during the pass do not exit during it. */
  function Later<K(==)>(m: F.Machine<K>, keys: set<K>): F.Machine<K> {
    m.(exited := m.exited - keys)
  }

  lemma EnsureNone<K>(p: F.Pools<K>, m: F.Machine<K>)
    ensures EnsuredAll(p, {}, m) == p && Later(m, {}) == m
  {
    assert EnsuredAll(p, {}, m).masters == p.masters;
    assert EnsuredAll(p, {}, m).failed == p.failed;
    assert m.exited - {} == m.exited;
  }

  lemma EnsureOneMoreSlot<K>(p: F.Pools<K>, keys: set<K>, k: K, m: F.Machine<K>, x: K)
    ensures var one := F.Ensured(EnsuredAll(p, keys, m), k, Later(m, keys)); var all := EnsuredAll(p, keys + {k}, m);
      Get(one.masters, x) == Get(all.masters, x) && Get(one.failed, x) == Get(all.failed, x)
  {
    hide BackoffFor, F.MayStartKey;
    var q, later := EnsuredAll(p, keys, m), Later(m, keys);
    StartsOnce(p, keys, k, m);
    StartsOnce(p, keys, x, m);
  }

  lemma StartsOnce<K>(p: F.Pools<K>, keys: set<K>, k: K, m: F.Machine<K>)
    ensures F.EnsureStarts(EnsuredAll(p, keys, m), k, Later(m, keys)) <==> k !in keys && F.EnsureStarts(p, k, m)
  {
    hide BackoffFor;
  }

  lemma SameMap<K, V>(a: map<K, V>, b: map<K, V>)
    requires forall x :: Get(a, x) == Get(b, x)
    ensures a == b
  {
    forall x
      ensures x in a <==> x in b
      ensures x in a ==> a[x] == b[x]
    {
      assert Get(a, x) == Get(b, x);
    }
  }

  /** Asking for one key more, whether or not it was asked for before. */
  lemma EnsureOneMore<K(!new)>(p: F.Pools<K>, keys: set<K>, k: K, m: F.Machine<K>)
    ensures F.Ensured(EnsuredAll(p, keys, m), k, Later(m, keys)) == EnsuredAll(p, keys + {k}, m)
    ensures k in EnsuredAll(p, keys + {k}, m).masters <==> LiveAfter(p, k, m)
  {
    hide F.Ensured, F.EnsureStarts;
    var one, all := F.Ensured(EnsuredAll(p, keys, m), k, Later(m, keys)), EnsuredAll(p, keys + {k}, m);
    forall x
      ensures Get(one.masters, x) == Get(all.masters, x) && Get(one.failed, x) == Get(all.failed, x)
    {
      EnsureOneMoreSlot(p, keys, k, m, x);
    }
    SameMap(one.masters, all.masters);
    SameMap(one.failed, all.failed);
  }

  // ---- Octane servers and side-cars: one site at a time ----

  function OctaneSlot(was: Option<O.Server>, setup: O.Setup, watch: bool, l: O.Launch): Option<O.Server> {
    if was.Some? && was.value.proc.config == setup then Some(O.Rewatched(was.value, watch))
    else if O.Launchable(l) then Some(O.Launched(setup, l.port.value, watch, l.now))
    else None
  }

  function OctaneFor(octane: map<string, O.Server>, php: Php, env: Env, site: Site): Option<O.Server> {
    if WantsOctane(site)
    then OctaneSlot(Get(octane, site.name), SetupFor(php, site), site.watch, env.launch(site.name))
    else None
  }

  function Slot<C(==)>(was: Option<S.Proc<C>>, config: C, w: S.World): S.Proc<C> {
    if was.Some? && was.value.config == config then S.Keep(SIDECAR_LADDER, was.value, w)
    else S.Start(SIDECAR_LADDER, S.Fresh(config, w.now), w)
  }

  function PortOf(server: Option<O.Server>): Option<nat> {
    if server.Some? then Some(server.value.port) else None
  }

  function RouteFor(php: Php, site: Site, upstream: Option<nat>): Route {
    Route(site.docroot, KeyFor(php, site), site.secure, upstream)
  }

  // ---- the full reconcile ----

  function KeysOf(php: Php, table: Table): set<MasterKey> {
    set n | n in table :: KeyFor(php, table[n])
  }

  /** Everything called for is asked for; everything else is dropped. `anew`
      says the pools' settings changed, so that every master starts anew. */
  function FullPools(p: F.Pools<MasterKey>, keys: set<MasterKey>, m: F.Machine<MasterKey>, anew: bool)
    : F.Pools<MasterKey>
  {
    F.Retained(EnsuredAll(if anew then F.Retained(p, {}) else p, keys, m), keys)
  }

  function FullOctane(octane: map<string, O.Server>, php: Php, env: Env, table: Table): map<string, O.Server> {
    map n | n in table && OctaneFor(octane, php, env, table[n]).Some? :: OctaneFor(octane, php, env, table[n]).value
  }

  /** A side-car for everything wanted, as wanted, and no other. */
  function SideCarsFor<C(==)>(was: map<string, S.Proc<C>>, wanted: map<string, C>, world: string -> S.World)
    : map<string, S.Proc<C>>
  {
    map n | n in wanted :: Slot(Get(was, n), wanted[n], world(n))
  }

  function DevWanted(env: Env, table: Table): map<string, DevConfig> {
    map n | n in table && WantsDev(table[n]) :: DevConfigFor(env, table[n])
  }

  function TunnelsWanted(env: Env, table: Table): map<string, TunnelConfig> {
    map n | n in table && WantsShare(table[n]) :: TunnelFor(env, table[n])
  }

  function FullDev(dev: map<string, S.Proc<DevConfig>>, env: Env, table: Table): map<string, S.Proc<DevConfig>> {
    SideCarsFor(dev, DevWanted(env, table), env.world)
  }

  function FullTunnels(tunnels: map<string, S.Proc<TunnelConfig>>, env: Env, table: Table)
    : map<string, S.Proc<TunnelConfig>>
  {
    SideCarsFor(tunnels, TunnelsWanted(env, table), env.tunnel)
  }

  function FullRoutes(octane: map<string, O.Server>, php: Php, env: Env, table: Table): map<string, Route> {
    map n | n in table :: RouteFor(php, table[n], PortOf(OctaneFor(octane, php, env, table[n])))
  }

  function Full(s: State, php: Php, env: Env, table: Table, anew: bool): State {
    State(FullPools(s.pools, KeysOf(php, table), env.fpm, anew), FullOctane(s.octane, php, env, table),
      FullDev(s.dev, env, table), FullTunnels(s.tunnels, env, table), FullRoutes(s.octane, php, env, table))
  }

  /** Every backend and dev server stopped; tunnels and routes as they were. */
  function Emptied(s: State): State {
    State(F.Retained(s.pools, {}), map[], map[], s.tunnels, s.routes)
  }

  /** Pool settings that changed reach every master: none keeps its old process. */
  lemma ChangedSettingsRestartEveryMaster(s: State, php: Php, env: Env, table: Table, k: MasterKey)
    ensures var after := Full(s, php, env, table, true).pools;
      && (k in after.masters ==> k in env.fpm.spawns && after.masters[k].port == env.fpm.spawns[k])
      && (k in s.pools.masters && k !in s.pools.failed && k in KeysOf(php, table) && k in env.fpm.spawns ==>
            k in after.masters && after.masters[k].failures == 0)
  {
    hide BackoffFor, KeyFor;
  }

  lemma NewServers(php: Php, env: Env, table: Table, n: string)
    ensures var octane := FullOctane(map[], php, env, table);
      n in octane ==>
        && n in table && env.launch(table[n].name).port == Some(octane[n].port)
        && octane[n].proc.started == env.launch(table[n].name).now
        && octane[n].fingerprint.None? && octane[n].reloads == 0
    ensures var dev := FullDev(map[], env, table);
      n in dev ==> n in table && (dev[n].up ==> env.world(n).spawns && dev[n].started == env.world(n).now)
  {
    hide BackoffFor, SetupFor, DevConfigFor;
  }

  lemma NewMasters(p: F.Pools<MasterKey>, keys: set<MasterKey>, m: F.Machine<MasterKey>, anew: bool)
    ensures var masters := FullPools(F.Retained(p, {}), keys, m, anew).masters;
      forall k | k in masters :: k in m.spawns && masters[k].port == m.spawns[k]
  {
    hide BackoffFor;
  }

  /** A repair leaves no backend from before, and the tunnels as a reconcile would. */
  lemma RepairStartsAnew(s: State, php: Php, env: Env, table: Table, anew: bool, n: string)
    ensures var after := Full(Emptied(s), php, env, table, anew);
      && (forall k | k in after.pools.masters :: k in env.fpm.spawns && after.pools.masters[k].port == env.fpm.spawns[k])
      && (n in after.octane ==>
            && n in table && env.launch(table[n].name).port == Some(after.octane[n].port)
            && after.octane[n].proc.started == env.launch(table[n].name).now
            && after.octane[n].fingerprint.None? && after.octane[n].reloads == 0)
      && (n in after.dev ==> n in table && (after.dev[n].up ==> env.world(n).spawns && after.dev[n].started == env.world(n).now))
      && after.tunnels == Full(s, php, env, table, anew).tunnels
  {
    hide FullPools, FullOctane, FullDev, FullTunnels, FullRoutes;
    NewMasters(s.pools, KeysOf(php, table), env.fpm, anew);
    NewServers(php, env, table, n);
  }

  // ---- the single-site reconcile ----

  function RoutedKeys(routes: map<string, Route>): set<MasterKey> {
    set n | n in routes :: routes[n].key
  }

  function Upstreams(routes: map<string, Route>): set<string> {
    set n | n in routes && routes[n].upstream.Some?
  }

  function FastRoutes(s: State, php: Php, env: Env, name: string, site: Option<Site>): map<string, Route> {
    match site
    case None => s.routes - {name}
    case Some(site) => s.routes[name := RouteFor(php, site, PortOf(OctaneFor(s.octane, php, env, site)))]
  }

  function FastPools(s: State, php: Php, env: Env, name: string, site: Option<Site>): F.Pools<MasterKey> {
    var asked := match site case None => s.pools case Some(site) => F.Ensured(s.pools, KeyFor(php, site), env.fpm);
    F.Retained(asked, RoutedKeys(FastRoutes(s, php, env, name, site)))
  }

  function Put<V>(m: map<string, V>, k: string, v: Option<V>): map<string, V> {
    match v
    case None => m - {k}
    case Some(v) => m[k := v]
  }

  function FastOctane(s: State, php: Php, env: Env, name: string, site: Option<Site>): map<string, O.Server> {
    var asked := match site
      case None => s.octane
      case Some(site) => if WantsOctane(site) then Put(s.octane, name, OctaneFor(s.octane, php, env, site)) else s.octane;
    map n | n in asked && n in Upstreams(FastRoutes(s, php, env, name, site)) :: asked[n]
  }

  function FastDev(s: State, env: Env, name: string, site: Option<Site>): map<string, S.Proc<DevConfig>> {
    if site.Some? && WantsDev(site.value)
    then s.dev[name := Slot(Get(s.dev, name), DevConfigFor(env, site.value), env.world(name))]
    else s.dev - {name}
  }

  /** Tunnels are left alone. */
  function Fast(s: State, php: Php, env: Env, name: string, site: Option<Site>): State {
    State(FastPools(s, php, env, name, site), FastOctane(s, php, env, name, site), FastDev(s, env, name, site),
      s.tunnels, FastRoutes(s, php, env, name, site))
  }

  // ---- settled states ----

  /** The running backends are exactly those the table calls for and the machine
      can run: what a reconcile leaves behind as long as nothing has died and
      nothing has become startable since. */
  ghost predicate SettledPools(p: F.Pools<MasterKey>, keys: set<MasterKey>, m: F.Machine<MasterKey>) {
    && p.masters.Keys <= keys
    && forall k | k in keys :: if k in p.masters then k !in m.exited else !F.EnsureStarts(p, k, m)
  }

  ghost predicate SettledSite(s: State, php: Php, env: Env, n: string, site: Site) {
    && n in s.routes && s.routes[n] == RouteFor(php, site, PortOf(Get(s.octane, n)))
    && (n in s.octane ==> WantsOctane(site) && s.octane[n].proc.config == SetupFor(php, site))
    && (n !in s.octane && WantsOctane(site) ==> !O.Launchable(env.launch(n)))
    && (n in s.dev <==> WantsDev(site))
  }

  ghost predicate Settled(s: State, php: Php, env: Env, table: Table) {
    && SettledPools(s.pools, KeysOf(php, table), env.fpm)
    && s.routes.Keys == table.Keys && s.octane.Keys <= table.Keys && s.dev.Keys <= table.Keys
    && forall n | n in table :: SettledSite(s, php, env, n, table[n])
  }

  /** The machine afterwards, with nothing having exited since. */
  function Quiet(env: Env): Env {
    env.(fpm := env.fpm.(exited := {}))
  }

  /** Two machines on which the same backends can start, whatever ports they hand
      out. */
  ghost predicate SameStarts(a: Env, b: Env) {
    && a.fpm.now == b.fpm.now && a.fpm.exited == b.fpm.exited && a.fpm.spawns.Keys == b.fpm.spawns.Keys
    && forall n :: O.Launchable(a.launch(n)) <==> O.Launchable(b.launch(n))
  }

  ghost predicate Tabulated(table: Table) {
    forall n | n in table :: table[n].name == n
  }

  // ---- a reconcile settles ----

  lemma FullPoolsSettle(p: F.Pools<MasterKey>, keys: set<MasterKey>, m: F.Machine<MasterKey>, anew: bool)
    requires F.Valid(p)
    ensures SettledPools(FullPools(p, keys, m, anew), keys, m.(exited := {}))
    ensures F.Valid(FullPools(p, keys, m, anew))
  {
    hide BackoffFor;
  }

  /** A full reconcile settles everything: reconciling again would change
      nothing that is routed to or running. */
  lemma FullSettles(s: State, php: Php, env: Env, table: Table, anew: bool)
    requires F.Valid(s.pools) && Tabulated(table)
    ensures Settled(Full(s, php, env, table, anew), php, Quiet(env), table)
    ensures F.Valid(Full(s, php, env, table, anew).pools)
  {
    hide SettledPools, FullPools, KeysOf, OctaneSlot, Slot, BinFor, KeyFor, F.Valid;
    FullPoolsSettle(s.pools, KeysOf(php, table), env.fpm, anew);
    var after := Full(s, php, env, table, anew);
    forall n | n in table
      ensures SettledSite(after, php, Quiet(env), n, table[n])
    {
      SlotKeepsSetup(s.octane, php, env, table[n]);
    }
  }

  lemma SlotKeepsSetup(octane: map<string, O.Server>, php: Php, env: Env, site: Site)
    ensures var server := OctaneFor(octane, php, env, site);
      && (server.Some? ==> WantsOctane(site) && server.value.proc.config == SetupFor(php, site))
      && (server.None? && WantsOctane(site) ==> !O.Launchable(env.launch(site.name)))
  {
  }

  // ---- the fast path agrees with the full one ----

  /** The new table differs from the settled one at `name` alone. */
  ghost predicate OneSiteChanged(was: Table, now: Table, name: string) {
    forall n | n != name :: Get(now, n) == Get(was, n)
  }

  predicate SameRoute(a: Route, b: Route) {
    a.docroot == b.docroot && a.key == b.key && a.secure == b.secure && (a.upstream.Some? <==> b.upstream.Some?)
  }

  /** The same routes up to which port an Octane server got, and the same sites'
      and keys' backends running. */
  ghost predicate SameBackends(a: State, b: State) {
    && a.routes.Keys == b.routes.Keys
    && (forall n | n in a.routes :: SameRoute(a.routes[n], b.routes[n]))
    && a.pools.masters.Keys == b.pools.masters.Keys
    && a.octane.Keys == b.octane.Keys
    && a.dev.Keys == b.dev.Keys
  }

  lemma OtherRouteAgrees(s: State, php: Php, env: Env, env': Env, name: string, patch: Option<Site>, n: string, site: Site)
    requires SettledSite(s, php, env, n, site) && site.name == n && n != name
    ensures var server := OctaneFor(s.octane, php, env, site); var routes := FastRoutes(s, php, env', name, patch);
      && n in routes && SameRoute(RouteFor(php, site, PortOf(server)), routes[n])
      && routes[n].key == KeyFor(php, site) && (routes[n].upstream.Some? <==> server.Some?)
  {
    hide BinFor, KeyFor, SetupFor;
    assert FastRoutes(s, php, env', name, patch)[n] == s.routes[n];
  }

  lemma PatchedRouteAgrees(s: State, php: Php, env: Env, env': Env, site: Site)
    requires O.Launchable(env.launch(site.name)) <==> O.Launchable(env'.launch(site.name))
    ensures var server := OctaneFor(s.octane, php, env, site); var routes := FastRoutes(s, php, env', site.name, Some(site));
      && site.name in routes && SameRoute(RouteFor(php, site, PortOf(server)), routes[site.name])
      && routes[site.name].key == KeyFor(php, site) && (routes[site.name].upstream.Some? <==> server.Some?)
  {
    hide BinFor, KeyFor, SetupFor, O.Launchable;
  }

  lemma RouteAgrees(s: State, php: Php, env: Env, env': Env, was: Table, now: Table, name: string, n: string)
    requires Settled(s, php, env, was) && OneSiteChanged(was, now, name) && Tabulated(now) && SameStarts(env, env')
    requires n in now
    ensures var server := OctaneFor(s.octane, php, env, now[n]); var routes := FastRoutes(s, php, env', name, Get(now, name));
      && n in routes && SameRoute(RouteFor(php, now[n], PortOf(server)), routes[n])
      && routes[n].key == KeyFor(php, now[n]) && (routes[n].upstream.Some? <==> server.Some?)
  {
    hide SettledPools, KeysOf, FastRoutes, RouteFor, KeyFor, SettledSite, OctaneFor, SameRoute;
    assert Get(now, n) == Some(now[n]);
    if n == name {
      PatchedRouteAgrees(s, php, env, env', now[n]);
    } else {
      assert Get(was, n) == Get(now, n);
      OtherRouteAgrees(s, php, env, env', name, Get(now, name), n, now[n]);
    }
  }

  lemma RoutesAgree(s: State, php: Php, env: Env, env': Env, was: Table, now: Table, name: string)
    requires Settled(s, php, env, was) && OneSiteChanged(was, now, name) && Tabulated(now) && SameStarts(env, env')
    ensures var full, fast := Full(s, php, env, now, false), Fast(s, php, env', name, Get(now, name));
      full.routes.Keys == fast.routes.Keys == now.Keys
      && forall n | n in now ::
           && SameRoute(full.routes[n], fast.routes[n]) && fast.routes[n].key == KeyFor(php, now[n])
           && (fast.routes[n].upstream.Some? <==> n in full.octane)
  {
    hide SettledPools, FullPools, FastPools, KeysOf, BinFor, Slot, KeyFor, FullDev, FastDev, FullTunnels, OctaneFor, RouteFor,
         SettledSite, FastOctane, SameStarts;
    var full, fast := Full(s, php, env, now, false), Fast(s, php, env', name, Get(now, name));
    forall n | n in now
      ensures n in fast.routes && SameRoute(full.routes[n], fast.routes[n]) && fast.routes[n].key == KeyFor(php, now[n])
      ensures fast.routes[n].upstream.Some? <==> n in full.octane
    {
      RouteAgrees(s, php, env, env', was, now, name, n);
    }
    forall n
      ensures n in fast.routes ==> n in now
    {
      assert n != name ==> Get(was, n) == Get(now, n);
    }
  }

  lemma RoutedKeysAgree(routes: map<string, Route>, php: Php, table: Table)
    requires routes.Keys == table.Keys && forall n | n in table :: routes[n].key == KeyFor(php, table[n])
    ensures RoutedKeys(routes) == KeysOf(php, table)
  {
    hide KeyFor;
    forall k
      ensures k in RoutedKeys(routes) <==> k in KeysOf(php, table)
    {
      if k in KeysOf(php, table) {
        var n :| n in table && KeyFor(php, table[n]) == k;
        assert routes[n].key == k;
      }
    }
  }

  /** One key asked for against a settled set of pools: the same masters live as
      when every key is asked for. */
  lemma PoolsAgree(p: F.Pools<MasterKey>, was: set<MasterKey>, now: set<MasterKey>, k: Option<MasterKey>,
                   m: F.Machine<MasterKey>, m': F.Machine<MasterKey>)
    requires SettledPools(p, was, m)
    requires now <= was + (if k.Some? then {k.value} else {}) && (k.Some? ==> k.value in now)
    requires m.now == m'.now && m.exited == m'.exited && m.spawns.Keys == m'.spawns.Keys
    ensures FullPools(p, now, m, false).masters.Keys ==
      F.Retained(if k.Some? then F.Ensured(p, k.value, m') else p, now).masters.Keys
  {
    hide BackoffFor;
  }

  /** From a settled state, after any change of one site, the fast path leaves
      the same routes (up to which port an Octane server got), the same live
      php-fpm masters, the same Octane servers and the same dev servers as a full
      reconcile. */
  lemma FastPathAgrees(s: State, php: Php, env: Env, env': Env, was: Table, now: Table, name: string)
    requires Settled(s, php, env, was) && OneSiteChanged(was, now, name) && Tabulated(now) && SameStarts(env, env')
    ensures SameBackends(Full(s, php, env, now, false), Fast(s, php, env', name, Get(now, name)))
  {
    hide SameStarts, OneSiteChanged, Tabulated, Settled, SameRoute, Fast, Full;
    RoutesAgree(s, php, env, env', was, now, name);
    PoolKeysAgree(s, php, env, env', was, now, name);
    OctaneKeysAgree(s, php, env, env', was, now, name);
    DevKeysAgree(s, php, env, env', was, now, name);
  }

  lemma OneKeyMore(php: Php, was: Table, now: Table, name: string)
    requires OneSiteChanged(was, now, name)
    ensures KeysOf(php, now) <= KeysOf(php, was) + if name in now then {KeyFor(php, now[name])} else {}
    ensures name in now ==> KeyFor(php, now[name]) in KeysOf(php, now)
  {
    hide KeyFor;
    forall x | x in KeysOf(php, now)
      ensures x in KeysOf(php, was) + if name in now then {KeyFor(php, now[name])} else {}
    {
      var n :| n in now && KeyFor(php, now[n]) == x;
      assert Get(now, n) == Some(now[n]);
      if n != name { assert Get(was, n) == Get(now, n); }
    }
  }

  lemma PoolKeysAgree(s: State, php: Php, env: Env, env': Env, was: Table, now: Table, name: string)
    requires Settled(s, php, env, was) && OneSiteChanged(was, now, name) && Tabulated(now) && SameStarts(env, env')
    ensures Full(s, php, env, now, false).pools.masters.Keys ==
      Fast(s, php, env', name, Get(now, name)).pools.masters.Keys
  {
    hide SettledPools, FullPools, SettledSite, BinFor, KeyFor, KeysOf, F.Ensured, F.Retained, OneSiteChanged, FullTunnels,
         FullOctane, FullDev, FullRoutes, FastOctane, FastDev, FastRoutes, SameRoute;
    RoutesAgree(s, php, env, env', was, now, name);
    var routes := FastRoutes(s, php, env', name, Get(now, name));
    RoutedKeysAgree(routes, php, now);
    var k := if name in now then Some(KeyFor(php, now[name])) else None;
    OneKeyMore(php, was, now, name);
    PoolsAgree(s.pools, KeysOf(php, was), KeysOf(php, now), k, env.fpm, env'.fpm);
  }

  lemma OctaneKeysAgree(s: State, php: Php, env: Env, env': Env, was: Table, now: Table, name: string)
    requires Settled(s, php, env, was) && OneSiteChanged(was, now, name) && Tabulated(now) && SameStarts(env, env')
    ensures Full(s, php, env, now, false).octane.Keys == Fast(s, php, env', name, Get(now, name)).octane.Keys
  {
    hide SettledPools, FullPools, FastPools, BinFor, KeyFor, KeysOf, Slot, FullDev, FastDev, FullTunnels, RouteFor, OctaneSlot,
         FastRoutes, SameStarts, SetupFor, FullRoutes;
    RoutesAgree(s, php, env, env', was, now, name);
    var full, fast := Full(s, php, env, now, false), Fast(s, php, env', name, Get(now, name));
    forall n
      ensures n in full.octane <==> n in fast.octane
    {
      if n in full.octane { OctaneStays(s, php, env, env', was, now, name, n); }
    }
  }

  lemma OctaneStays(s: State, php: Php, env: Env, env': Env, was: Table, now: Table, name: string, n: string)
    requires Settled(s, php, env, was) && OneSiteChanged(was, now, name) && Tabulated(now) && SameStarts(env, env')
    requires n in now && OctaneFor(s.octane, php, env, now[n]).Some?
    ensures n == name ==> OctaneFor(s.octane, php, env', now[n]).Some?
    ensures n != name ==> n in s.octane
  {
    hide SettledPools, BinFor, KeyFor, KeysOf, RouteFor;
    assert Get(now, n) == Some(now[n]);
    if n != name {
      assert Get(was, n) == Get(now, n);
      assert SettledSite(s, php, env, n, was[n]);
    }
  }

  lemma DevKeyAgrees(s: State, php: Php, env: Env, was: Table, now: Table, name: string, n: string)
    requires Settled(s, php, env, was) && OneSiteChanged(was, now, name)
    ensures n in FullDev(s.dev, env, now) <==> n in FastDev(s, env, name, Get(now, name))
  {
    hide SettledPools, KeysOf, Slot, RouteFor, SetupFor;
    if n != name { assert Get(was, n) == Get(now, n); }
    if n in was { assert SettledSite(s, php, env, n, was[n]); }
  }

  lemma DevKeysAgree(s: State, php: Php, env: Env, env': Env, was: Table, now: Table, name: string)
    requires Settled(s, php, env, was) && OneSiteChanged(was, now, name)
    ensures Full(s, php, env, now, false).dev.Keys == Fast(s, php, env', name, Get(now, name)).dev.Keys
  {
    hide Settled, OneSiteChanged, FullPools, FastPools, FullOctane, FastOctane, FullTunnels, FullRoutes, FastRoutes, KeysOf,
         FullDev, FastDev, Get;
    forall n
      ensures n in FullDev(s.dev, env, now) <==> n in FastDev(s, env', name, Get(now, name))
    {
      DevKeyAgrees(s, php, env, was, now, name, n);
      FastDevKeys(s, env, env', name, Get(now, name));
    }
  }

  lemma FastDevKeys(s: State, env: Env, env': Env, name: string, site: Option<Site>)
    ensures FastDev(s, env, name, site).Keys == FastDev(s, env', name, site).Keys
  {
    hide Slot;
  }

  // ---- one link changed ----

  /** `config'` is `config` with the link `name` set, replaced or removed. */
  ghost predicate OneLinkChanged(config: Config, config': Config, name: string) {
    && config' == config.(links := config'.links)
    && (forall k | k != name :: k in config.links <==> k in config'.links)
    && (forall k | k != name && k in config.links :: config.links[k] == config'.links[k])
  }

  lemma OneLinkIsOneSite(config: Config, config': Config, disk: Disk, name: string)
    requires OneLinkChanged(config, config', name) && Tidy(config, disk) && Tidy(config', disk)
    requires Lower(name) == name && '/' !in name
    ensures OneSiteChanged(SitesOf(config, disk), SitesOf(config', disk), name)
    ensures Tabulated(SitesOf(config', disk))
    ensures OneNamed(config', disk, name) == Get(SitesOf(config', disk), name)
  {
    hide SiteNamed, OneNamed, SitesOf, Lower, TidyLinks, TidyRoot;
    forall n
      ensures n != name ==> Get(SitesOf(config', disk), n) == Get(SitesOf(config, disk), n)
      ensures n in SitesOf(config', disk) ==> SitesOf(config', disk)[n].name == n
    {
      TableHoldsEverySite(config, disk, n);
      TableHoldsEverySite(config', disk, n);
      if n != name { OtherSitesStay(config, config', disk, name, n); }
    }
    TableHoldsEverySite(config', disk, name);
    ShortcutAgrees(config', disk, name);
  }

  /** The whole claim, from configuration to backends: from a settled state,
      after setting, changing or removing one link (which may uncover a parked
      folder), the fast path's own lookup and its patching of the stores agree
      with a full reconcile. */
  lemma OneLinkFastPathAgrees(s: State, php: Php, env: Env, env': Env, config: Config, config': Config, disk: Disk,
                              name: string)
    requires Settled(s, php, env, SitesOf(config, disk)) && SameStarts(env, env')
    requires OneLinkChanged(config, config', name) && Tidy(config, disk) && Tidy(config', disk)
    requires Lower(name) == name && '/' !in name
    ensures var full := Full(s, php, env, SitesOf(config', disk), false);
      var fast := Fast(s, php, env', name, OneNamed(config', disk, name));
      SameBackends(full, fast) && fast.routes.Keys == SitesOf(config', disk).Keys
  {
    hide Settled, SitesOf, OneNamed, Tidy, OneLinkChanged, OneSiteChanged, Lower, SameStarts, Fast, SameRoute, Tabulated, Get,
         FullPools, FullOctane, FullDev;
    OneLinkIsOneSite(config, config', disk, name);
    FastPathAgrees(s, php, env, env', SitesOf(config, disk), SitesOf(config', disk), name);
  }

  // ---- the fast path settles too ----

  /** After the fast path the state is settled again, so any number of single
      changes can follow one another. */
  lemma FastSettles(s: State, php: Php, env: Env, was: Table, now: Table, name: string)
    requires Settled(s, php, env, was) && OneSiteChanged(was, now, name) && Tabulated(now)
    ensures Settled(Fast(s, php, env, name, Get(now, name)), php, Quiet(env), now)
  {
    hide SettledPools, FullPools, FastPools, BinFor, KeyFor, KeysOf, Slot, FullDev, FastDev, FullTunnels, RouteFor, OctaneSlot,
         FastRoutes, SetupFor, FullRoutes, SettledSite, FastOctane, FullOctane;
    assert SameStarts(env, env);
    RoutesAgree(s, php, env, env, was, now, name);
    FastPoolsSettle(s, php, env, was, now, name);
    OctaneKeysAgree(s, php, env, env, was, now, name);
    DevKeysAgree(s, php, env, env, was, now, name);
    FullKeysBound(s, php, env, now);
    forall n | n in now
      ensures SettledSite(Fast(s, php, env, name, Get(now, name)), php, Quiet(env), n, now[n])
    {
      FastSiteSettles(s, php, env, was, now, name, n);
    }
  }

  lemma FullKeysBound(s: State, php: Php, env: Env, now: Table)
    ensures FullOctane(s.octane, php, env, now).Keys <= now.Keys && FullDev(s.dev, env, now).Keys <= now.Keys
  {
    hide OctaneFor, Slot;
  }

  lemma FastPoolsSettle(s: State, php: Php, env: Env, was: Table, now: Table, name: string)
    requires Settled(s, php, env, was) && OneSiteChanged(was, now, name) && Tabulated(now)
    ensures SettledPools(Fast(s, php, env, name, Get(now, name)).pools, KeysOf(php, now), Quiet(env).fpm)
  {
    hide SettledSite, BinFor, KeyFor, KeysOf, FullPools, SettledPools, F.Ensured, F.Retained, OneSiteChanged, FullTunnels,
         FullOctane, FullDev, FullRoutes, FastOctane, FastDev, FastRoutes, SameRoute;
    RoutesAgree(s, php, env, env, was, now, name);
    var routes := FastRoutes(s, php, env, name, Get(now, name));
    RoutedKeysAgree(routes, php, now);
    var k := if name in now then Some(KeyFor(php, now[name])) else None;
    OneKeyMore(php, was, now, name);
    OneKeySettles(s.pools, KeysOf(php, was), KeysOf(php, now), k, env.fpm);
  }

  lemma OneKeySettles(p: F.Pools<MasterKey>, was: set<MasterKey>, now: set<MasterKey>, k: Option<MasterKey>,
                      m: F.Machine<MasterKey>)
    requires SettledPools(p, was, m)
    requires now <= was + (if k.Some? then {k.value} else {}) && (k.Some? ==> k.value in now)
    ensures SettledPools(F.Retained(if k.Some? then F.Ensured(p, k.value, m) else p, now), now, m.(exited := {}))
  {
    hide BackoffFor;
  }

  lemma FastSiteSettles(s: State, php: Php, env: Env, was: Table, now: Table, name: string, n: string)
    requires Settled(s, php, env, was) && OneSiteChanged(was, now, name) && Tabulated(now) && n in now
    ensures SettledSite(Fast(s, php, env, name, Get(now, name)), php, Quiet(env), n, now[n])
  {
    hide SettledSite, SettledPools, Fast, KeysOf;
    if n == name {
      PatchedSiteSettles(s, php, env, now[n]);
    } else {
      assert Get(now, n) == Some(now[n]) && Get(was, n) == Get(now, n);
      OtherSiteStaysSettled(s, php, env, name, Get(now, name), n, now[n]);
    }
  }

  lemma PatchedSiteSettles(s: State, php: Php, env: Env, site: Site)
    ensures SettledSite(Fast(s, php, env, site.name, Some(site)), php, Quiet(env), site.name, site)
  {
    hide FastPools, KeysOf, BinFor, KeyFor, Slot, SetupFor;
    SlotKeepsSetup(s.octane, php, env, site);
  }

  lemma OtherSiteStaysSettled(s: State, php: Php, env: Env, name: string, patch: Option<Site>, n: string, site: Site)
    requires SettledSite(s, php, env, n, site) && n != name
    ensures SettledSite(Fast(s, php, env, name, patch), php, Quiet(env), n, site)
  {
    hide FastPools, KeysOf, BinFor, KeyFor, Slot, OctaneSlot, SetupFor;
  }

  // ---- tunnels: where the two paths part ----

  /** What the side-cars are set up as. */
  function ConfigsOf<C>(servers: map<string, S.Proc<C>>): map<string, C> {
    map n | n in servers :: servers[n].config
  }

  /** Exactly the sites that ask for a tunnel have one, as they ask. */
  ghost predicate TunnelsSettled(s: State, env: Env, table: Table) {
    ConfigsOf(s.tunnels) == TunnelsWanted(env, table)
  }

  lemma SideCarsAsWanted<C>(was: map<string, S.Proc<C>>, wanted: map<string, C>, world: string -> S.World)
    ensures ConfigsOf(SideCarsFor(was, wanted, world)) == wanted
  {
    hide Slot;
    forall n | n in wanted
      ensures Slot(Get(was, n), wanted[n], world(n)).config == wanted[n]
    {
      SlotIsAsWanted(Get(was, n), wanted[n], world(n));
    }
  }

  lemma SlotIsAsWanted<C>(was: Option<S.Proc<C>>, config: C, w: S.World)
    ensures Slot(was, config, w).config == config
  {
  }

  /** The fast path leaves every tunnel alone, a full reconcile none that is not
      asked for. So on settled tunnels the two agree exactly when the changed
      site asks for what it asked for before. */
  lemma TunnelsAgreeIff(s: State, php: Php, env: Env, env': Env, was: Table, now: Table, name: string)
    requires TunnelsSettled(s, env, was) && OneSiteChanged(was, now, name)
    ensures var full, fast := Full(s, php, env, now, false), Fast(s, php, env', name, Get(now, name));
      && TunnelsSettled(full, env, now)
      && (ConfigsOf(fast.tunnels) == ConfigsOf(full.tunnels) <==>
          Get(TunnelsWanted(env, was), name) == Get(TunnelsWanted(env, now), name))
  {
    hide ConfigsOf, SideCarsFor, FullPools, FullOctane, FullDev, FullRoutes, FastPools, FastOctane, FastDev, FastRoutes,
         OneSiteChanged, TunnelsWanted;
    SideCarsAsWanted(s.tunnels, TunnelsWanted(env, now), env.tunnel);
    forall n | n != name
      ensures Get(TunnelsWanted(env, was), n) == Get(TunnelsWanted(env, now), n)
    {
      OthersWantTheSame(env, was, now, name, n);
    }
    if Get(TunnelsWanted(env, was), name) == Get(TunnelsWanted(env, now), name) {
      SameMap(TunnelsWanted(env, was), TunnelsWanted(env, now));
    }
  }

  lemma OthersWantTheSame(env: Env, was: Table, now: Table, name: string, n: string)
    requires OneSiteChanged(was, now, name) && n != name
    ensures Get(TunnelsWanted(env, was), n) == Get(TunnelsWanted(env, now), n)
  {
    assert Get(was, n) == Get(now, n);
  }

  lemma LinkedWants(config: Config, disk: Disk, env: Env, name: string)
    requires TidyLinks(config.links) && Lower(name) == name
    ensures Get(TunnelsWanted(env, SitesOf(config, disk)), name) ==
      if name in config.links && config.links[name].share.Some? && config.links[name].share.value != ""
      then Some(TunnelConfig(config.links[name].share.value, name + "." + config.PrimaryTld(), env.httpPort)) else None
  {
    hide SitesOf, Less, FolderFor;
    TableHoldsEverySite(config, disk, name);
    if name in config.links {
      assert FirstKey(config.links, name, name);
      LinkRow(config, disk, name, name);
    } else {
      NotLinked(config, disk, name);
    }
  }

  /** A link that keeps its share keeps its tunnel settled: so with `SetSecure`,
      `Relink` and every setter that leaves the share alone. */
  lemma SameShareIsKept(config: Config, config': Config, disk: Disk, env: Env, name: string)
    requires OneLinkChanged(config, config', name) && TidyLinks(config.links) && TidyLinks(config'.links)
    requires name in config.links && name in config'.links && config'.links[name].share == config.links[name].share
    ensures Get(TunnelsWanted(env, SitesOf(config, disk)), name) == Get(TunnelsWanted(env, SitesOf(config', disk)), name)
  {
    hide TunnelsWanted, SitesOf, Get, Lower;
    LinkedWants(config, disk, env, name);
    LinkedWants(config', disk, env, name);
  }

  /** But a shared site that is unlinked, linked anew or given a spec (either
      leaves it with no share) keeps its tunnel, which a full reconcile stops. */
  lemma UnsharedTunnelStays(s: State, php: Php, env: Env, config: Config, config': Config, disk: Disk, name: string)
    requires TunnelsSettled(s, env, SitesOf(config, disk)) && OneLinkChanged(config, config', name)
    requires TidyLinks(config.links) && TidyLinks(config'.links)
    requires name in config.links && config.links[name].share.Some? && config.links[name].share.value != ""
    requires name in config'.links ==> config'.links[name].share.None?
    ensures name in Fast(s, php, env, name, OneNamed(config', disk, name)).tunnels
    ensures name !in Full(s, php, env, SitesOf(config', disk), false).tunnels
  {
    hide TunnelsWanted, SitesOf, Lower, OneNamed, FullPools, FullOctane, FullDev, FullRoutes, FastPools, FastOctane, FastDev,
         FastRoutes, Slot;
    LinkedWants(config, disk, env, name);
    LinkedWants(config', disk, env, name);
    assert Get(ConfigsOf(s.tunnels), name).Some?;
  }

  // ---- what a change owes, and what is then served ----

  ghost function InCommon(a: set<string>, b: set<string>): nat {
    |a * b|
  }

  /** The routed sites that have a backend. */
  ghost function ServedBy(s: State): set<string> {
    set n | n in s.routes && (s.routes[n].upstream.Some? || s.routes[n].key in s.pools.masters)
  }

  lemma AllInCommon(a: set<string>, b: set<string>)
    ensures |a| == InCommon(a, b) <==> a <= b
  {
    assert a == a * b + (a - b);
    if a <= b { assert a == a * b; }
    if |a| == |a * b| { assert a - b == {}; }
  }

  /** In a settled state no site is served that is not configured. */
  lemma SettledServesConfigured(s: State, php: Php, env: Env, table: Table)
    requires Settled(s, php, env, table)
    ensures |ServedBy(s)| == InCommon(ServedBy(s), table.Keys)
  {
    hide SettledPools, SettledSite, InCommon;
    AllInCommon(ServedBy(s), table.Keys);
  }

  lemma SameServed(a: State, b: State)
    requires SameBackends(a, b)
    ensures ServedBy(a) == ServedBy(b)
  {
    assert forall n | n in a.routes :: SameRoute(a.routes[n], b.routes[n]);
  }

  /** A change of the link `name` was handled as a full reconcile would have: if
      the state was settled for the old configuration, it is settled for the new
      one, with the same backends and the same sites served as after a full
      reconcile, and all of those configured. Its tunnels stay settled exactly if
      the site asks for what it asked for before. */
  ghost predicate Handled(before: State, config: Config, after: State, config': Config, php: Php, env: Env, disk: Disk,
                          name: string) {
    Settled(before, php, env, SitesOf(config, disk)) && Tidy(config, disk) && Tidy(config', disk) && '/' !in name ==>
      && Settled(after, php, Quiet(env), SitesOf(config', disk))
      && SameBackends(Full(before, php, env, SitesOf(config', disk), false), after)
      && ServedBy(after) == ServedBy(Full(before, php, env, SitesOf(config', disk), false))
      && |ServedBy(after)| == InCommon(ServedBy(after), SitesOf(config', disk).Keys)
      && (TunnelsSettled(before, env, SitesOf(config, disk)) ==>
            (TunnelsSettled(after, env, SitesOf(config', disk)) <==>
             Get(TunnelsWanted(env, SitesOf(config, disk)), name) == Get(TunnelsWanted(env, SitesOf(config', disk)), name)))
  }

  lemma SameTunnels(s: State, php: Php, env: Env, now: Table, name: string)
    requires TunnelsSettled(Full(s, php, env, now, false), env, now)
    ensures var full, fast := Full(s, php, env, now, false), Fast(s, php, env, name, Get(now, name));
      TunnelsSettled(fast, env, now) <==> ConfigsOf(fast.tunnels) == ConfigsOf(full.tunnels)
  {
    hide Full, Fast, ConfigsOf, TunnelsWanted;
  }

  lemma ChangeSettles(s: State, php: Php, env: Env, config: Config, config': Config, disk: Disk, name: string)
    requires OneLinkChanged(config, config', name) && Lower(name) == name
    ensures Handled(s, config, Fast(s, php, env, name, OneNamed(config', disk, name)), config', php, env, disk, name)
  {
    hide Settled, SitesOf, OneNamed, Tidy, OneLinkChanged, OneSiteChanged, Lower, SameBackends, Fast, Full, Tabulated, Get,
         ServedBy, InCommon, TunnelsSettled, TunnelsWanted;
    if Settled(s, php, env, SitesOf(config, disk)) && Tidy(config, disk) && Tidy(config', disk) && '/' !in name {
      var was, now := SitesOf(config, disk), SitesOf(config', disk);
      OneLinkIsOneSite(config, config', disk, name);
      assert SameStarts(env, env);
      FastPathAgrees(s, php, env, env, was, now, name);
      FastSettles(s, php, env, was, now, name);
      var fast := Fast(s, php, env, name, Get(now, name));
      SameServed(Full(s, php, env, now, false), fast);
      SettledServesConfigured(fast, php, Quiet(env), now);
      if TunnelsSettled(s, env, was) {
        TunnelsAgreeIff(s, php, env, env, was, now, name);
        assert TunnelsSettled(fast, env, now) <==>
          Get(TunnelsWanted(env, was), name) == Get(TunnelsWanted(env, now), name) by { SameTunnels(s, php, env, now, name); }
      }
    }
  }

  /** One parked root and nothing else. */
  function OneRoot(root: string): Config {
    Config([], [root], map[], map[], None, None, 0, "", map[], None)
  }

  function NothingYet(): State {
    State(F.Pools(map[], map[]), map[], map[], map[], map[])
  }

  lemma OneFolderIsOneSite(root: string, name: string)
    requires Lower(name) == name && !Dotted(name)
    ensures var path := JoinPath(root, name); var disk := Disk(map[root := [name]], {path});
      name in SitesOf(OneRoot(root), disk) && SitesOf(OneRoot(root), disk)[name] == ParkedSite(OneRoot(root), disk, name, path)
  {
    hide SitesOf, JoinPath, ParkedSite, Lower;
    var disk := Disk(map[root := [name]], {JoinPath(root, name)});
    TableHoldsEverySite(OneRoot(root), disk, name);
    assert FolderIn(disk, root, [name], name) == Some(JoinPath(root, name));
  }

  lemma NoFolderIsNoSite(root: string)
    ensures SitesOf(OneRoot(root), Disk(map[root := []], {})).Keys == {}
  {
    assert [root][1..] == [];
    assert FolderNames(Disk(map[root := []], {}), [root]) == {};
  }

  /** Where the counts part: a parked folder is served, and deleted before the
      next reconcile. */
  lemma DeletedFolderIsStillCounted(root: string, name: string, php: Php, env: Env)
    requires Lower(name) == name && !Dotted(name)
    requires MasterKey(php.defaultBin, Xdebug.Mode("off"), false, None) in env.fpm.spawns
    ensures var disk := Disk(map[root := [name]], {JoinPath(root, name)}); var gone := Disk(map[root := []], {});
      var s := Full(NothingYet(), php, env, SitesOf(OneRoot(root), disk), false);
      && name in ServedBy(s) && SitesOf(OneRoot(root), gone).Keys == {}
      && |ServedBy(s)| != InCommon(ServedBy(s), SitesOf(OneRoot(root), gone).Keys)
  {
    hide SitesOf, JoinPath, Lower, BackoffFor, InCommon;
    var disk := Disk(map[root := [name]], {JoinPath(root, name)});
    var table := SitesOf(OneRoot(root), disk);
    OneFolderIsOneSite(root, name);
    NoFolderIsNoSite(root);
    assert KeyFor(php, table[name]) == MasterKey(php.defaultBin, Xdebug.Mode("off"), false, None);
    assert KeyFor(php, table[name]) in KeysOf(php, table);
    AllInCommon(ServedBy(Full(NothingYet(), php, env, table, false)), {});
  }

  lemma FastKeepsValid(s: State, php: Php, env: Env, name: string, site: Option<Site>)
    requires F.Valid(s.pools)
    ensures F.Valid(Fast(s, php, env, name, site).pools)
  {
    hide BackoffFor, RoutedKeys, FastRoutes, KeyFor;
  }
}
