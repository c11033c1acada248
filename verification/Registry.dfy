/** The daemon's live registry: configuration, backends and routes, changed in
    place, each reconcile proved against what reconciling means. */
module Registry {
  import opened Wrappers
  import opened Text
  import opened Sorting
  import opened Ladders
  import opened Sites
  import opened Reconcile
  import opened Settings
  import Routing
  import Xdebug
  import Spec
  import S = Supervisor
  import O = Octane
  import F = Fpm

  /** The rows of a full expansion are exactly the table's sites. */
  ghost predicate RowsOf(sites: seq<Site>, table: Table) {
    && (forall i | 0 <= i < |sites| :: sites[i].name in table && table[sites[i].name] == sites[i])
    && (forall n | n in table :: table[n].name == n && table[n] in sites)
    && Distinct(sites)
  }

  lemma ResolvedRows(config: Config, disk: Disk, sites: seq<Site>)
    requires ByName(sites) && forall s: Site :: s in sites <==> SiteNamed(config, disk, s.name) == Some(s)
    ensures RowsOf(sites, SitesOf(config, disk))
  {
    hide SiteNamed, SitesOf, Less;
    forall n
      ensures (if n in SitesOf(config, disk) then Some(SitesOf(config, disk)[n]) else None) == SiteNamed(config, disk, n)
      ensures n in SitesOf(config, disk) ==> SitesOf(config, disk)[n].name == n
    {
      TableHoldsEverySite(config, disk, n);
    }
    forall i | 0 <= i < |sites|
      ensures sites[i] in sites
    {
    }
    forall i, j | 0 <= i < j < |sites|
      ensures sites[i].name != sites[j].name
    {
      LessTotal(sites[i].name, sites[j].name);
      LessTotal(sites[i].name, sites[i].name);
    }
  }

  /** The keys the first `i` sites call for. */
  ghost function KeysUpTo(php: Php, sites: seq<Site>, i: nat): set<MasterKey>
    requires i <= |sites|
  {
    set j | 0 <= j < i :: KeyFor(php, sites[j])
  }

  lemma AllKeysAreTheTables(php: Php, sites: seq<Site>, table: Table)
    requires RowsOf(sites, table)
    ensures KeysUpTo(php, sites, |sites|) == KeysOf(php, table)
  {
    hide KeyFor;
    forall k | k in KeysOf(php, table)
      ensures k in KeysUpTo(php, sites, |sites|)
    {
      var n :| n in table && KeyFor(php, table[n]) == k;
      var j :| 0 <= j < |sites| && sites[j] == table[n];
    }
  }

  lemma KeptAreNeeded(p: F.Pools<MasterKey>, asked: set<MasterKey>, needed: set<MasterKey>, m: F.Machine<MasterKey>)
    requires forall k :: k in needed <==> k in asked && LiveAfter(p, k, m)
    ensures F.Retained(EnsuredAll(p, asked, m), needed) == F.Retained(EnsuredAll(p, asked, m), asked)
  {
    hide F.EnsureStarts;
  }

  /** The names of the first `i` sites. */
  ghost function NamesUpTo(sites: seq<Site>, i: nat): set<string>
    requires i <= |sites|
  {
    set j | 0 <= j < i :: sites[j].name
  }

  lemma NextName(sites: seq<Site>, table: Table, i: nat)
    requires RowsOf(sites, table) && i < |sites|
    ensures sites[i].name !in NamesUpTo(sites, i)
    ensures NamesUpTo(sites, i + 1) == NamesUpTo(sites, i) + {sites[i].name}
    ensures sites[i].name in table && table[sites[i].name] == sites[i]
  {
  }

  lemma NoNames(sites: seq<Site>)
    ensures NamesUpTo(sites, 0) == {}
  {
  }

  lemma AllNames(sites: seq<Site>, table: Table)
    requires RowsOf(sites, table)
    ensures NamesUpTo(sites, |sites|) == table.Keys
  {
    forall n | n in table
      ensures n in NamesUpTo(sites, |sites|)
    {
      var j :| 0 <= j < |sites| && sites[j] == table[n];
    }
  }

  datatype Refusal = NoSuchDirectory | NoName | NotLinked

  /** A link with every setting at its default. */
  function PlainLink(path: string): Link {
    Sites.Link(path, None, false, None, None, None, None, None, false, None, None, None, None)
  }

  /** A new link asks for nothing: whatever can be configured is as configured, and
      nothing runs for it beside its pool. */
  lemma PlainLinkAsksForNothing(config: Config, disk: Disk, name: string, path: string)
    ensures var link := PlainLink(path); var site := LinkSite(config, disk, name, link);
      && link.database.None? && link.dbBranch.None? && link.dbPort.None?
      && site.path == path && site.php == config.defaultPhp && site.xdebug == ModeOf(config, None)
      && !site.secure && !site.profile && site.preload.None? && site.watch
      && site.runtime.None? && site.dev.None? && site.share.None?
  {
  }

  /** What the proxy needs for one request: an Octane port if there is one, or
      else the FastCGI port. */
  datatype SiteRoute = SiteRoute(docroot: string, fpmPort: nat, secure: bool, upstream: Option<nat>)

  datatype SiteInfo = SiteInfo(
    name: string, host: string, path: string, source: string, secure: bool, serving: bool, xdebug: string,
    database: Option<string>, dbBranch: Option<string>)

  function InfoName(row: SiteInfo): string {
    row.name
  }

  function IsServing(row: SiteInfo): bool {
    row.serving
  }

  class Registry {
    var config: Config
    var routes: map<string, Route>
    /** The installed PHP versions as last detected. */
    var php: Php
    var poolSettings: PoolSettings
    const fpm: F.FpmManager<MasterKey>
    const appservers: O.AppServers
    const devservers: S.SideCars<DevConfig>
    const tunnels: S.SideCars<TunnelConfig>

    ghost predicate Valid() reads fpm {
      devservers.ladder == SIDECAR_LADDER && tunnels.ladder == SIDECAR_LADDER && F.Valid(fpm.Now())
    }

    ghost function Now(): State reads this, fpm, appservers, devservers, tunnels {
      State(fpm.Now(), appservers.servers, devservers.servers, tunnels.servers, routes)
    }

    constructor (config: Config, settings: PoolSettings)
      ensures Valid() && this.config == config && poolSettings == settings
      ensures fresh(fpm) && fresh(appservers) && fresh(devservers) && fresh(tunnels)
      ensures Now() == NothingYet()
    {
      this.config := config;
      poolSettings := settings;
      routes := map[];
      php := Php(map[], "");
      fpm := new F.FpmManager<MasterKey>();
      appservers := new O.AppServers();
      devservers := new S.SideCars<DevConfig>(SIDECAR_LADDER);
      tunnels := new S.SideCars<TunnelConfig>(SIDECAR_LADDER);
    }

    // ---- the full reconcile ----

    /** A master for every key called for, and no other. */
    method ReconcilePools(sites: seq<Site>, php: Php, m: F.Machine<MasterKey>, ghost table: Table)
      requires RowsOf(sites, table)
      modifies fpm
      ensures fpm.Now() == FullPools(old(fpm.Now()), KeysOf(php, table), m, false)
    {
      hide EnsuredAll, LiveAfter, KeyFor, F.Ensured, F.Retained, RowsOf;
      ghost var was := fpm.Now();
      var asked: set<MasterKey>, needed: set<MasterKey> := {}, {};
      EnsureNone(was, m);
      for i := 0 to |sites|
        invariant asked == KeysUpTo(php, sites, i)
        invariant fpm.Now() == EnsuredAll(was, asked, m)
        invariant forall k :: k in needed <==> k in asked && LiveAfter(was, k, m)
      {
        var key := KeyFor(php, sites[i]);
        EnsureOneMore(was, asked, key, m);
        var port := fpm.Ensure(key, Later(m, asked));
        asked := asked + {key};
        if port.Some? { needed := needed + {key}; }
      }
      AllKeysAreTheTables(php, sites, table);
      KeptAreNeeded(was, asked, needed, m);
      fpm.Retain(needed);
    }

    /** An Octane server for every site on such a runtime that can have one, and
        no other; returns the ports to route to. */
    method ReconcileOctane(sites: seq<Site>, php: Php, env: Env, ghost table: Table) returns (upstreams: map<string, nat>)
      requires RowsOf(sites, table)
      modifies appservers
      ensures appservers.servers == FullOctane(old(appservers.servers), php, env, table)
      ensures forall n | n in table ::
        Get(upstreams, n) == PortOf(OctaneFor(old(appservers.servers), php, env, table[n]))
    {
      hide RowsOf, NamesUpTo, OctaneSlot, SetupFor, OctaneUpTo, FullOctane, OctaneFor;
      ghost var was := appservers.servers;
      upstreams := map[];
      NoneYet(sites, php, env, table, was);
      for i := 0 to |sites|
        invariant OctaneUpTo(was, php, env, table, NamesUpTo(sites, i), appservers.servers, upstreams)
      {
        NextName(sites, table, i);
        var site := sites[i];
        ghost var before, ports := appservers.servers, upstreams;
        if WantsOctane(site) {
          var port := appservers.Ensure(site.name, SetupFor(php, site), site.watch, env.launch(site.name));
          ServerEnsured(before, appservers.servers, php, env, site, port);
          if port.Some? { upstreams := upstreams[site.name := port.value]; }
          FreshName(was, php, env, table, NamesUpTo(sites, i), before, ports, site);
          assert upstreams == Put(ports, site.name, port);
        }
        OctaneNext(was, php, env, table, NamesUpTo(sites, i), before, appservers.servers, ports, upstreams, site);
      }
      AllNames(sites, table);
      OctaneDone(was, php, env, table, appservers.servers, upstreams);
      appservers.Retain(upstreams.Keys);
    }

    /** A dev server for every site with a script, and no other. */
    method ReconcileDev(sites: seq<Site>, env: Env, ghost table: Table)
      requires RowsOf(sites, table) && devservers.ladder == SIDECAR_LADDER
      modifies devservers
      ensures devservers.servers == FullDev(old(devservers.servers), env, table)
    {
      hide RowsOf, NamesUpTo, SideCarsUpTo, WantsDev, SideCarsFor;
      ghost var was, all := devservers.servers, DevWanted(env, table);
      var wanted: set<string> := {};
      NoneEnsured(sites, all, env.world, was);
      for i := 0 to |sites|
        invariant SideCarsUpTo(was, all, env.world, NamesUpTo(sites, i), devservers.servers, wanted)
      {
        NextName(sites, table, i);
        var site := sites[i];
        NextEnsured(was, all, env.world, NamesUpTo(sites, i), devservers.servers, wanted, site.name);
        if WantsDev(site) {
          devservers.Ensure(site.name, DevConfigFor(env, site), env.world(site.name));
          wanted := wanted + {site.name};
        }
      }
      AllNames(sites, table);
      AllEnsured(was, all, env.world, table.Keys, devservers.servers, wanted);
      devservers.Retain(wanted);
    }

    /** A tunnel for every shared site, and no other. */
    method ReconcileTunnels(sites: seq<Site>, env: Env, ghost table: Table)
      requires RowsOf(sites, table) && tunnels.ladder == SIDECAR_LADDER
      modifies tunnels
      ensures tunnels.servers == FullTunnels(old(tunnels.servers), env, table)
    {
      hide RowsOf, NamesUpTo, SideCarsUpTo, WantsShare, SideCarsFor;
      ghost var was, all := tunnels.servers, TunnelsWanted(env, table);
      var shared: set<string> := {};
      NoneEnsured(sites, all, env.tunnel, was);
      for i := 0 to |sites|
        invariant SideCarsUpTo(was, all, env.tunnel, NamesUpTo(sites, i), tunnels.servers, shared)
      {
        NextName(sites, table, i);
        var site := sites[i];
        NextEnsured(was, all, env.tunnel, NamesUpTo(sites, i), tunnels.servers, shared, site.name);
        if WantsShare(site) {
          tunnels.Ensure(site.name, TunnelFor(env, site), env.tunnel(site.name));
          shared := shared + {site.name};
        }
      }
      AllNames(sites, table);
      AllEnsured(was, all, env.tunnel, table.Keys, tunnels.servers, shared);
      tunnels.Retain(shared);
    }

    method ReconcileRoutes(sites: seq<Site>, php: Php, upstreams: map<string, nat>, ghost table: Table)
      requires RowsOf(sites, table)
      modifies this`routes
      ensures routes == map n | n in table :: RouteFor(php, table[n], Get(upstreams, n))
    {
      hide RowsOf, RouteFor, NamesUpTo;
      routes := map[];
      NoNames(sites);
      for i := 0 to |sites|
        invariant NamesUpTo(sites, i) <= table.Keys
        invariant routes == map n | n in NamesUpTo(sites, i) :: RouteFor(php, table[n], Get(upstreams, n))
      {
        NextName(sites, table, i);
        routes := routes[sites[i].name := RouteFor(php, sites[i], Get(upstreams, sites[i].name))];
      }
      AllNames(sites, table);
    }

    /** Changed IDE or pool settings can only reach masters that start anew. */
    method RefreshSettings()
      modifies `poolSettings, fpm
      ensures poolSettings == config.Settings()
      ensures fpm.Now() == if old(poolSettings) != config.Settings() then F.Retained(old(fpm.Now()), {}) else old(fpm.Now())
    {
      if poolSettings != config.Settings() {
        poolSettings := config.Settings();
        fpm.Retain({});
      }
    }

    predicate Reached(r: Route)
      reads fpm
    {
      r.key in fpm.masters
    }

    /** Every kind of backend in turn, then the routes. */
    method ReconcileBackends(sites: seq<Site>, php: Php, env: Env, ghost table: Table)
      requires RowsOf(sites, table) && devservers.ladder == SIDECAR_LADDER && tunnels.ladder == SIDECAR_LADDER
      modifies this`routes, fpm, appservers, devservers, tunnels
      ensures Now() == Full(old(Now()), php, env, table, false)
    {
      hide RowsOf, FullPools, FullOctane, FullDev, FullTunnels, KeysOf, RouteFor, OctaneFor, KeyFor, Get, PortOf;
      ReconcilePools(sites, php, env.fpm, table);
      var upstreams := ReconcileOctane(sites, php, env, table);
      ReconcileDev(sites, env, table);
      ReconcileTunnels(sites, env, table);
      ReconcileRoutes(sites, php, upstreams, table);
    }

    /** Starts what the configuration calls for, stops the rest, and rebuilds the
        routes. `detected` is what PHP detection finds. Returns how many sites
        php-fpm serves. */
    method Reconcile(disk: Disk, detected: Php, env: Env) returns (serving: nat)
      requires Valid()
      modifies this, fpm, appservers, devservers, tunnels
      ensures Now() == Full(old(Now()), detected, env, SitesOf(config, disk), old(poolSettings) != config.Settings())
      ensures config == old(config) && php == detected && poolSettings == config.Settings()
      ensures serving == |set n | n in routes && Reached(routes[n])|
      ensures Valid() && Settled(Now(), php, Quiet(env), SitesOf(config, disk))
      ensures |Serving()| == InCommon(Serving(), SitesOf(config, disk).Keys)
      ensures AsConfigured(Now(), config, disk, php, env)
    {
      hide AsConfigured, RowsOf, Full, SitesOf, SiteNamed, ByName, F.Retained, Tidy, InCommon, ServedBy, Settled, F.Valid;
      var sites := Resolve(config, disk);
      ghost var table, anew := SitesOf(config, disk), poolSettings != config.Settings();
      ResolvedRows(config, disk, sites);
      php := detected;
      RefreshSettings();
      AnewOrNot(old(Now()), detected, env, table, anew);
      ReconcileBackends(sites, detected, env, table);
      FullServesConfigured(old(Now()), detected, env, config, disk, anew);
      FullIsAsConfigured(old(Now()), detected, env, config, disk, anew);
      serving := |set n | n in routes && Reached(routes[n])|;
    }

    // ---- one site ----

    method PatchOctane(site: Site, php: Php, env: Env) returns (upstream: Option<nat>)
      modifies appservers
      ensures appservers.servers ==
        if WantsOctane(site) then Put(old(appservers.servers), site.name, OctaneFor(old(appservers.servers), php, env, site))
        else old(appservers.servers)
      ensures upstream == PortOf(OctaneFor(old(appservers.servers), php, env, site))
    {
      hide OctaneSlot, SetupFor, Put;
      ghost var before := appservers.servers;
      if !WantsOctane(site) { return None; }
      upstream := appservers.Ensure(site.name, SetupFor(php, site), site.watch, env.launch(site.name));
      ServerEnsured(before, appservers.servers, php, env, site, upstream);
    }

    method PatchDev(name: string, site: Option<Site>, env: Env)
      requires devservers.ladder == SIDECAR_LADDER && (site.Some? ==> site.value.name == name)
      modifies devservers
      ensures devservers.servers ==
        if site.Some? && WantsDev(site.value)
        then old(devservers.servers)[name :=
               Slot(Get(old(devservers.servers), name), DevConfigFor(env, site.value), env.world(name))]
        else old(devservers.servers) - {name}
    {
      if site.Some? && WantsDev(site.value) {
        devservers.Ensure(name, DevConfigFor(env, site.value), env.world(name));
      } else {
        devservers.Retain(devservers.servers.Keys - {name});
      }
    }

    /** Asks for the backends of one site and routes to them. An unknown pinned
        version refreshes the cached detection first. */
    method PatchSite(site: Site, detected: Php, env: Env)
      modifies this`php, this`routes, fpm, appservers
      ensures php == Refreshed(old(php), detected, Some(site))
      ensures routes ==
        old(routes)[site.name := RouteFor(php, site, PortOf(OctaneFor(old(appservers.servers), php, env, site)))]
      ensures fpm.Now() == F.Ensured(old(fpm.Now()), KeyFor(php, site), env.fpm)
      ensures appservers.servers ==
        if WantsOctane(site) then Put(old(appservers.servers), site.name, OctaneFor(old(appservers.servers), php, env, site))
        else old(appservers.servers)
    {
      hide OctaneFor, F.Ensured, RouteFor, WantsOctane, Put, KeyFor;
      if site.php.Some? && site.php.value !in php.versions { php := php.(versions := detected.versions); }
      var _ := fpm.Ensure(KeyFor(php, site), env.fpm);
      var upstream := PatchOctane(site, php, env);
      routes := routes[site.name := RouteFor(php, site, upstream)];
    }

    /** The fast path: looks the one site up, patches its route and backends, and
        stops what no route needs any more. */
    method ReconcileSite(query: string, disk: Disk, detected: Php, env: Env)
      requires Valid()
      modifies this, fpm, appservers, devservers
      ensures config == old(config) && poolSettings == old(poolSettings)
      ensures php == Refreshed(old(php), detected, OneNamed(config, disk, query))
      ensures Now() == Fast(old(Now()), php, env, Lower(query), OneNamed(config, disk, query))
      ensures Valid()
      ensures OneAsConfigured(Now(), config, disk, php, env, query)
      ensures php.defaultBin == old(php).defaultBin
      ensures var found := OneNamed(config, disk, query);
        php.versions == if found.Some? && found.value.php.Some? && found.value.php.value !in old(php).versions
                        then detected.versions else old(php).versions
    {
      hide OneAsConfigured, OneNamed, OctaneFor, Slot, F.Ensured, F.Retained, RouteFor, Lower, SiteNamed, WantsOctane, WantsDev, Put,
           RoutedKeys, Upstreams, KeyFor, F.Valid, Tidy, PortOf;
      ghost var was := Now();
      var name := Lower(query);
      var found := ResolveOne(config, disk, query);
      FoundByName(config, disk, query);
      PatchDev(name, found, env);
      if found.Some? {
        PatchSite(found.value, detected, env);
      } else {
        routes := routes - {name};
      }
      assert routes == FastRoutes(was, php, env, name, found);
      fpm.Retain(RoutedKeys(routes));
      appservers.Retain(Upstreams(routes));
      assert fpm.Now() == FastPools(was, php, env, name, found);
      assert appservers.servers == FastOctane(was, php, env, name, found);
      assert devservers.servers == FastDev(was, env, name, found);
      FastKeepsValid(was, php, env, name, found);
      FastIsAsConfigured(was, php, env, config, disk, query);
    }

    // ---- mutations ----

    /** Links a directory (nothing if it does not exist) under a name, by default
        its folder's, with every setting at its default. */
    method Link(name: Option<string>, canonical: Option<string>, disk: Disk, detected: Php, env: Env)
      returns (r: Result<string, Refusal>)
      requires Valid()
      modifies this, fpm, appservers, devservers
      ensures r.Ok? <==> canonical.Some? && (name.Some? || NameFor(canonical.value).Some?)
      ensures r.Err? ==> config == old(config) && Now() == old(Now())
      ensures r.Ok? ==>
        && r.value == Lower(if name.Some? then name.value else NameFor(canonical.value).value)
        && config == old(config).(links := old(config).links[r.value := PlainLink(canonical.value)])
        && Now() == Fast(old(Now()), php, env, r.value, OneNamed(config, disk, r.value))
        && Handled(old(Now()), old(config), Now(), config, php, env, disk, r.value)
      ensures Valid()
    {
      hide OneNamed, Fast, Handled, F.Valid;
      if canonical.None? { return Err(NoSuchDirectory); }
      var chosen := if name.Some? then name else NameFor(canonical.value);
      if chosen.None? { return Err(NoName); }
      var key := Lower(chosen.value);
      LowerTwice(chosen.value);
      config := config.(links := config.links[key := PlainLink(canonical.value)]);
      ReconcileSite(key, disk, detected, env);
      ChangeSettles(old(Now()), php, env, old(config), config, disk, key);
      return Ok(key);
    }

    method Unlink(name: string, disk: Disk, detected: Php, env: Env) returns (known: bool)
      requires Valid()
      modifies this, fpm, appservers, devservers
      ensures known <==> Lower(name) in old(config).links
      ensures !known ==> config == old(config) && Now() == old(Now())
      ensures known ==>
        && config == old(config).(links := old(config).links - {Lower(name)})
        && Now() == Fast(old(Now()), php, env, Lower(name), OneNamed(config, disk, Lower(name)))
        && Handled(old(Now()), old(config), Now(), config, php, env, disk, Lower(name))
      ensures Valid()
    {
      hide OneNamed, Fast, Handled, F.Valid;
      var key := Lower(name);
      LowerTwice(name);
      if key !in config.links { return false; }
      config := config.(links := config.links - {key});
      ReconcileSite(key, disk, detected, env);
      ChangeSettles(old(Now()), php, env, old(config), config, disk, key);
      return true;
    }

    /** Moves a linked site to another directory and keeps all its settings. */
    method Relink(name: string, canonical: Option<string>, disk: Disk, detected: Php, env: Env)
      returns (r: Result<bool, Refusal>)
      requires Valid()
      modifies this, fpm, appservers, devservers
      ensures r.Ok? <==> canonical.Some? && Lower(name) in old(config).links
      ensures r.Ok? ==> (r.value <==> old(config).links[Lower(name)].path != canonical.value)
      ensures r.Err? || !r.value ==> config == old(config) && Now() == old(Now())
      ensures r.Ok? && r.value ==>
        && config == old(config).(links :=
             old(config).links[Lower(name) := old(config).links[Lower(name)].(path := canonical.value)])
        && Now() == Fast(old(Now()), php, env, Lower(name), OneNamed(config, disk, Lower(name)))
        && Handled(old(Now()), old(config), Now(), config, php, env, disk, Lower(name))
      ensures Valid()
    {
      hide OneNamed, Fast, Handled, F.Valid;
      var key := Lower(name);
      LowerTwice(name);
      if canonical.None? { return Err(NoSuchDirectory); }
      if key !in config.links { return Err(NotLinked); }
      if config.links[key].path == canonical.value { return Ok(false); }
      config := config.(links := config.links[key := config.links[key].(path := canonical.value)]);
      ReconcileSite(key, disk, detected, env);
      ChangeSettles(old(Now()), php, env, old(config), config, disk, key);
      return Ok(true);
    }

    method SetSecure(name: string, secure: bool, disk: Disk, detected: Php, env: Env) returns (known: bool)
      requires Valid()
      modifies this, fpm, appservers, devservers
      ensures known <==> Lower(name) in old(config).links
      ensures !known ==> config == old(config) && Now() == old(Now())
      ensures known ==>
        && config == old(config).(links :=
             old(config).links[Lower(name) := old(config).links[Lower(name)].(secure := secure)])
        && Now() == Fast(old(Now()), php, env, Lower(name), OneNamed(config, disk, Lower(name)))
        && Handled(old(Now()), old(config), Now(), config, php, env, disk, Lower(name))
      ensures Valid()
    {
      hide OneNamed, Fast, Handled, F.Valid;
      var key := Lower(name);
      LowerTwice(name);
      if key !in config.links { return false; }
      config := config.(links := config.links[key := config.links[key].(secure := secure)]);
      ReconcileSite(key, disk, detected, env);
      ChangeSettles(old(Now()), php, env, old(config), config, disk, key);
      return true;
    }

    /** Makes the link at a directory match its spec exactly. */
    method ApplySpec(canonical: Option<string>, spec: Spec.SiteSpec, m: Spec.Machine, disk: Disk, detected: Php, env: Env)
      returns (r: Result<(string, seq<Spec.Warning>), Refusal>)
      requires Valid()
      modifies this, fpm, appservers, devservers
      ensures r.Ok? <==> canonical.Some? && Spec.NameOf(canonical.value, spec).Some?
      ensures r.Err? ==> config == old(config) && Now() == old(Now())
      ensures r.Ok? ==>
        && r.value == (Spec.NameOf(canonical.value, spec).value, Spec.Warnings(m, canonical.value, spec))
        && Some(config.links) == Spec.Applied(m, old(config).links, canonical.value, spec)
        && config == old(config).(links := config.links)
        && Now() == Fast(old(Now()), php, env, r.value.0, OneNamed(config, disk, r.value.0))
        && Handled(old(Now()), old(config), Now(), config, php, env, disk, r.value.0)
      ensures Valid()
    {
      hide OneNamed, Fast, Handled, F.Valid;
      if canonical.None? { return Err(NoSuchDirectory); }
      var path := canonical.value;
      var name := if spec.name.Some? then Some(Lower(spec.name.value)) else NameFor(path);
      if name.None? { return Err(NoName); }
      config := config.(links := config.links[name.value := Spec.LinkOf(m, config.links, name.value, path, spec)]);
      NamesAreLower(path, spec);
      ReconcileSite(name.value, disk, detected, env);
      ChangeSettles(old(Now()), php, env, old(config), config, disk, name.value);
      return Ok((name.value, Spec.Warnings(m, path, spec)));
    }

    /** Records a site's branch database. Nothing is reconciled: no site changes. */
    method SetBranchDb(name: string, database: Option<string>, port: Option<nat>, branch: Option<string>, ghost disk: Disk)
      returns (known: bool)
      modifies `config
      ensures known <==> Lower(name) in old(config).links
      ensures !known ==> config == old(config)
      ensures known ==>
        config == old(config).(links :=
          old(config).links[Lower(name) := WithBranchDb(old(config).links[Lower(name)], database, branch, port)])
      ensures Now() == old(Now()) && SitesOf(config, disk) == SitesOf(old(config), disk)
    {
      hide SitesOf;
      var key := Lower(name);
      if key !in config.links { return false; }
      BranchDbChangesNoSite(config, disk, key, database, branch, port);
      config := config.(links := config.links[key :=
        config.links[key].(database := database, dbBranch := branch, dbPort := port)]);
      return true;
    }

    /** One supervision pass over the Octane servers, as one event of a run. */
    method SuperviseAppservers(passes: map<string, O.Pass>)
      requires appservers.servers.Keys <= passes.Keys
      modifies appservers
      ensures Now() == Routing.Step(old(Now()), Routing.Supervised(passes))
    {
      appservers.Supervise(passes);
    }

    method ReloadOctane(site: string, pass: O.Pass) returns (known: bool)
      modifies appservers
      ensures known <==> Lower(site) in old(appservers.servers)
      ensures Now() == Routing.Step(old(Now()), Routing.Reloaded(Lower(site), pass))
    {
      known := appservers.Reload(Lower(site), pass);
    }

    method RestartOctane(site: string, now: Time) returns (known: bool)
      modifies appservers
      ensures known <==> Lower(site) in old(appservers.servers)
      ensures Now() == Routing.Step(old(Now()), Routing.Restarted(Lower(site), now))
    {
      known := appservers.Restart(Lower(site), now);
    }

    /** Reloads the configuration and restarts every backend from nothing. Tunnels
        are not torn down, only reconciled. */
    method RepairBackends(loaded: Config, disk: Disk, detected: Php, env: Env) returns (serving: nat)
      requires Valid()
      modifies this, fpm, appservers, devservers, tunnels
      ensures config == loaded
      ensures Now() == Full(Emptied(old(Now())), detected, env, SitesOf(config, disk), old(poolSettings) != config.Settings())
      ensures Valid() && Settled(Now(), php, Quiet(env), SitesOf(config, disk))
      ensures |Serving()| == InCommon(Serving(), SitesOf(config, disk).Keys)
      ensures AsConfigured(Now(), config, disk, php, env)
    {
      hide AsConfigured, Full, SitesOf, Settled, InCommon, ServedBy;
      config := loaded;
      fpm.Retain({});
      appservers.Retain({});
      devservers.Retain({});
      assert Now() == Emptied(old(Now()));
      serving := Reconcile(disk, detected, env);
    }

    // ---- what is being served ----

    predicate Serves(r: Route)
      reads fpm
    {
      r.upstream.Some? || r.key in fpm.masters
    }

    /** The sites with a live backend. */
    ghost function Serving(): set<string> reads this, fpm, appservers, devservers, tunnels {
      ServedBy(Now())
    }

    /** What the proxy needs for one request, if the site can be served now. */
    method ResolveRequest(name: string) returns (r: Option<SiteRoute>)
      ensures r.Some? <==> name in Serving()
      ensures r.Some? ==> && r.value.docroot == routes[name].docroot && r.value.upstream == routes[name].upstream
                          && r.value.secure == routes[name].secure
                          && (r.value.upstream.None? ==> routes[name].key in fpm.masters)
                          && (routes[name].key in fpm.masters ==> r.value.fpmPort == fpm.masters[routes[name].key].port)
                          && (routes[name].key !in fpm.masters ==> r.value.fpmPort == 0)
    {
      if name !in routes { return None; }
      var route := routes[name];
      if route.key in fpm.masters {
        return Some(SiteRoute(route.docroot, fpm.masters[route.key].port, route.secure, route.upstream));
      }
      if route.upstream.None? { return None; }
      return Some(SiteRoute(route.docroot, 0, route.secure, route.upstream));
    }

    method ServingCount() returns (count: nat)
      ensures count == |Serving()| + |config.proxies|
    {
      var served := set n | n in routes && Serves(routes[n]);
      assert served == Serving();
      count := |served| + |config.proxies|;
    }

    function RowFor(site: Site): SiteInfo reads this, fpm {
      var serving := site.name in routes && Serves(routes[site.name]);
      var link := if site.name in config.links then Some(config.links[site.name]) else None;
      SiteInfo(site.name, site.name + "." + site.tld, site.path, if site.source.Linked? then "linked" else "parked",
        site.secure, serving, site.xdebug.text,
        if link.Some? then link.value.database else None, if link.Some? then link.value.dbBranch else None)
    }

    function ProxyRow(name: string): SiteInfo
      requires name in config.proxies
      reads this
    {
      SiteInfo(name, name + "." + config.PrimaryTld(), config.proxies[name], "proxy", false, true, "", None, None)
    }

    /** What a link's row says. */
    lemma LinkRowSays(disk: Disk, k: string)
      requires Claims(config, k)
      ensures k in SitesOf(config, disk)
      ensures var row := RowFor(SitesOf(config, disk)[k]); var link := config.links[k];
        && row.name == k && row.host == k + "." + (if config.tlds == [] then "test" else config.tlds[0])
        && row.path == link.path && row.source == "linked" && row.secure == link.secure
        && XdebugSays(Chosen(link.xdebug, config.defaultXdebug), Xdebug.Mode(row.xdebug))
        && row.database == link.database && row.dbBranch == link.dbBranch && (row.serving <==> k in Serving())
    {
      hide SitesOf, Less, Lower, FolderFor, DocrootFor, Xdebug.Parsed;
      TableHoldsEverySite(config, disk, k);
      LinkRow(config, disk, k, k);
    }

    /** What a parked folder's row says. */
    lemma ParkedRowSays(disk: Disk, n: string)
      requires OnlyParked(config, disk, n)
      ensures n in SitesOf(config, disk)
      ensures var row := RowFor(SitesOf(config, disk)[n]);
        && row.name == n && row.host == n + "." + (if config.tlds == [] then "test" else config.tlds[0])
        && row.path == FolderFor(disk, config.parked, n).value && row.source == "parked" && !row.secure
        && XdebugSays(config.defaultXdebug, Xdebug.Mode(row.xdebug))
        && row.database.None? && row.dbBranch.None? && (row.serving <==> n in Serving())
    {
      hide SitesOf, Less, Lower, FolderFor, DocrootFor, Xdebug.Parsed;
      ParkedRow(config, disk, n);
      ParkedIsNoKey(config, disk, n);
    }

    /** What a proxy's row says. */
    lemma ProxyRowSays(n: string)
      requires n in config.proxies
      ensures var row := ProxyRow(n);
        && row.name == n && row.host == n + "." + (if config.tlds == [] then "test" else config.tlds[0])
        && row.path == config.proxies[n] && row.source == "proxy" && !row.secure && row.serving && row.xdebug == ""
        && row.database.None? && row.dbBranch.None?
    {
    }

    method SiteRows(sites: seq<Site>, ghost table: Table) returns (rows: seq<SiteInfo>)
      requires RowsOf(sites, table)
      ensures forall n | n in table :: RowFor(table[n]) in rows
      ensures Count(IsServing, rows) == InCommon(Serving(), table.Keys)
    {
      hide RowsOf, Count, NamesUpTo, InCommon;
      rows := [];
      NoNames(sites);
      NoRows(Serving());
      for i := 0 to |sites|
        invariant forall j | 0 <= j < i :: RowFor(sites[j]) in rows
        invariant Count(IsServing, rows) == InCommon(Serving(), NamesUpTo(sites, i))
      {
        NextName(sites, table, i);
        NextInCommon(Serving(), NamesUpTo(sites, i), sites[i].name);
        CountMore(IsServing, rows, RowFor(sites[i]));
        rows := rows + [RowFor(sites[i])];
      }
      AllNames(sites, table);
      forall n | n in table
        ensures RowFor(table[n]) in rows
      {
        var j := RowOf(sites, table, n);
      }
    }

    method WithProxies(listed: seq<SiteInfo>) returns (rows: seq<SiteInfo>)
      ensures listed <= rows
      ensures forall n | n in config.proxies :: ProxyRow(n) in rows
      ensures Count(IsServing, rows) == Count(IsServing, listed) + |config.proxies|
    {
      hide Count, SizeOf;
      rows := listed;
      var proxies := config.proxies.Keys;
      while proxies != {}
        invariant proxies <= config.proxies.Keys && listed <= rows
        invariant forall n | n in config.proxies.Keys - proxies :: ProxyRow(n) in rows
        invariant Count(IsServing, rows) + SizeOf(proxies) == Count(IsServing, listed) + SizeOf(config.proxies.Keys)
        decreases proxies
      {
        var n :| n in proxies;
        CountMore(IsServing, rows, ProxyRow(n));
        rows := rows + [ProxyRow(n)];
        OneFewer(proxies, n);
        proxies := proxies - {n};
      }
      KeysCount(config.proxies);
    }

    /** One row for every configured site and every proxy, by name. The rows
        marked as serving are the proxies and the listed sites with a live
        backend. */
    method SiteInfos(disk: Disk) returns (rows: seq<SiteInfo>)
      ensures Ordered(InfoName, rows)
      ensures forall n | n in SitesOf(config, disk) :: RowFor(SitesOf(config, disk)[n]) in rows
      ensures forall n | n in config.proxies :: ProxyRow(n) in rows
      ensures Count(IsServing, rows) == InCommon(Serving(), SitesOf(config, disk).Keys) + |config.proxies|
      ensures Count(IsServing, rows) == |Serving()| + |config.proxies| <==> Serving() <= SitesOf(config, disk).Keys
    {
      hide SitesOf, SiteNamed, ByName, RowsOf, Tidy, Ordered, Sort, Count, InCommon, Serving, RowFor, ProxyRow;
      var sites := Resolve(config, disk);
      ghost var table := SitesOf(config, disk);
      ResolvedRows(config, disk, sites);
      var listed := SiteRows(sites, table);
      rows := WithProxies(listed);
      assert forall n | n in table :: RowFor(table[n]) in rows;
      SortSorts(InfoName, rows);
      SortCounts(InfoName, IsServing, rows);
      rows := Sort(InfoName, rows);
      AllInCommon(Serving(), table.Keys);
    }
  }

  ghost function SizeOf(s: set<string>): nat {
    |s|
  }

  lemma NoRows(s: set<string>)
    ensures Count(IsServing, []) == 0 == InCommon(s, {})
  {
    assert s * {} == {};
  }

  lemma NextInCommon(a: set<string>, names: set<string>, n: string)
    requires n !in names
    ensures InCommon(a, names + {n}) == InCommon(a, names) + if n in a then 1 else 0
  {
    assert a * (names + {n}) == if n in a then a * names + {n} else a * names;
  }

  lemma RowOf(sites: seq<Site>, table: Table, n: string) returns (j: nat)
    requires RowsOf(sites, table) && n in table
    ensures j < |sites| && sites[j] == table[n]
  {
    j :| 0 <= j < |sites| && sites[j] == table[n];
  }

  lemma OneFewer(s: set<string>, n: string)
    requires n in s
    ensures SizeOf(s - {n}) + 1 == SizeOf(s)
  {
  }

  lemma KeysCount(m: map<string, string>)
    ensures SizeOf(m.Keys) == |m| && SizeOf({}) == 0
  {
  }

  /** The cached detection, refreshed when a site pins a version it lacks. */
  function Refreshed(php: Php, detected: Php, site: Option<Site>): Php {
    if site.Some? && site.value.php.Some? && site.value.php.value !in php.versions
    then php.(versions := detected.versions) else php
  }

  lemma TablesAreTabulated(config: Config, disk: Disk)
    ensures Tabulated(SitesOf(config, disk))
  {
    hide SitesOf, SiteNamed;
    forall n | n in SitesOf(config, disk)
      ensures SitesOf(config, disk)[n].name == n
    {
      TableHoldsEverySite(config, disk, n);
    }
  }

  lemma NamesAreLower(path: string, spec: Spec.SiteSpec)
    requires Spec.NameOf(path, spec).Some?
    ensures Lower(Spec.NameOf(path, spec).value) == Spec.NameOf(path, spec).value
  {
    hide Lower;
    var pieces := Split(path, '/');
    if spec.name.Some? { LowerTwice(spec.name.value); } else { LowerTwice(pieces[|pieces| - 1]); }
  }

  lemma FoundByName(config: Config, disk: Disk, query: string)
    ensures OneNamed(config, disk, query).Some? ==> OneNamed(config, disk, query).value.name == Lower(query)
  {
    hide FirstStat, LinkSite, ParkedSite;
  }

  lemma AnewOrNot(s: State, php: Php, env: Env, table: Table, anew: bool)
    ensures Full(s, php, env, table, anew) ==
      Full(s.(pools := if anew then F.Retained(s.pools, {}) else s.pools), php, env, table, false)
  {
    hide EnsuredAll, KeysOf, FullOctane, FullDev, FullTunnels, FullRoutes;
  }

  lemma FullServesConfigured(s: State, php: Php, env: Env, config: Config, disk: Disk, anew: bool)
    requires F.Valid(s.pools)
    ensures var after := Full(s, php, env, SitesOf(config, disk), anew);
      && F.Valid(after.pools) && Settled(after, php, Quiet(env), SitesOf(config, disk))
      && |ServedBy(after)| == InCommon(ServedBy(after), SitesOf(config, disk).Keys)
  {
    hide Full, SitesOf, SiteNamed, Tabulated, InCommon, ServedBy, Settled, F.Valid;
    TablesAreTabulated(config, disk);
    FullSettles(s, php, env, SitesOf(config, disk), anew);
    SettledServesConfigured(Full(s, php, env, SitesOf(config, disk), anew), php, Quiet(env), SitesOf(config, disk));
  }

  // ---- the loops' bookkeeping ----

  /** After the sites called `done`: theirs are ensured, the others untouched. */
  ghost predicate OctaneUpTo(was: map<string, O.Server>, php: Php, env: Env, table: Table, done: set<string>,
                             servers: map<string, O.Server>, upstreams: map<string, nat>) {
    && done <= table.Keys
    && forall n ::
         && Get(servers, n) == (if n in done && WantsOctane(table[n]) then OctaneFor(was, php, env, table[n]) else Get(was, n))
         && Get(upstreams, n) == (if n in done then PortOf(OctaneFor(was, php, env, table[n])) else None)
  }

  lemma NoneYet(sites: seq<Site>, php: Php, env: Env, table: Table, was: map<string, O.Server>)
    ensures OctaneUpTo(was, php, env, table, NamesUpTo(sites, 0), was, map[])
  {
  }

  lemma FreshName(was: map<string, O.Server>, php: Php, env: Env, table: Table, done: set<string>,
                  servers: map<string, O.Server>, upstreams: map<string, nat>, site: Site)
    requires OctaneUpTo(was, php, env, table, done, servers, upstreams) && site.name !in done
    ensures site.name !in upstreams && upstreams - {site.name} == upstreams
  {
  }

  lemma ServerEnsured(before: map<string, O.Server>, after: map<string, O.Server>, php: Php, env: Env, site: Site,
                      port: Option<nat>)
    requires WantsOctane(site)
    requires var setup := SetupFor(php, site); var l := env.launch(site.name); var n := site.name;
      var keeps := n in before && before[n].proc.config == setup;
      && (port.Some? <==> keeps || O.Launchable(l))
      && (port.Some? ==> n in after && after[n].port == port.value)
      && (keeps ==> after == before[n := O.Rewatched(before[n], site.watch)])
      && (!keeps ==> after == if O.Launchable(l) then before[n := O.Launched(setup, l.port.value, site.watch, l.now)]
                             else before - {n})
    ensures after == Put(before, site.name, OctaneFor(before, php, env, site))
    ensures port == PortOf(OctaneFor(before, php, env, site))
  {
    hide BinFor;
  }

  lemma OctaneNext(was: map<string, O.Server>, php: Php, env: Env, table: Table, done: set<string>,
                   before: map<string, O.Server>, after: map<string, O.Server>, ports: map<string, nat>,
                   ports': map<string, nat>, site: Site)
    requires OctaneUpTo(was, php, env, table, done, before, ports)
    requires site.name in table && table[site.name] == site && site.name !in done
    requires after == if WantsOctane(site) then Put(before, site.name, OctaneFor(before, php, env, site)) else before
    requires ports' == if WantsOctane(site) then Put(ports, site.name, PortOf(OctaneFor(before, php, env, site))) else ports
    ensures OctaneUpTo(was, php, env, table, done + {site.name}, after, ports')
  {
    hide OctaneFor, WantsOctane, Put, Get;
    assert Get(before, site.name) == Get(was, site.name);
    OwnSlotOnly(before, was, php, env, site);
    forall n
      ensures Get(after, n) ==
        if n == site.name && WantsOctane(site) then OctaneFor(before, php, env, site) else Get(before, n)
      ensures Get(ports', n) ==
        if n == site.name && WantsOctane(site) then PortOf(OctaneFor(before, php, env, site)) else Get(ports, n)
    {
      PutGets(before, site.name, OctaneFor(before, php, env, site), n);
      PutGets(ports, site.name, PortOf(OctaneFor(before, php, env, site)), n);
    }
  }

  lemma PutGets<V>(m: map<string, V>, k: string, v: Option<V>, n: string)
    ensures Get(Put(m, k, v), n) == if n == k then v else Get(m, n)
  {
  }

  lemma OwnSlotOnly(a: map<string, O.Server>, b: map<string, O.Server>, php: Php, env: Env, site: Site)
    requires Get(a, site.name) == Get(b, site.name)
    ensures OctaneFor(a, php, env, site) == OctaneFor(b, php, env, site)
    ensures !WantsOctane(site) ==> OctaneFor(a, php, env, site) == None
  {
    hide OctaneSlot, SetupFor;
  }

  lemma OctaneDone(was: map<string, O.Server>, php: Php, env: Env, table: Table, servers: map<string, O.Server>,
                   upstreams: map<string, nat>)
    requires OctaneUpTo(was, php, env, table, table.Keys, servers, upstreams)
    ensures (map n | n in servers && n in upstreams.Keys :: servers[n]) == FullOctane(was, php, env, table)
    ensures forall n | n in table :: Get(upstreams, n) == PortOf(OctaneFor(was, php, env, table[n]))
  {
    hide OctaneSlot, SetupFor;
    var kept := map n | n in servers && n in upstreams.Keys :: servers[n];
    forall n
      ensures Get(kept, n) == Get(FullOctane(was, php, env, table), n)
    {
      if n in table { assert Get(upstreams, n) == PortOf(OctaneFor(was, php, env, table[n])); }
    }
    SameMap(kept, FullOctane(was, php, env, table));
  }

  /** After the sites called `done`: the wanted side-cars among them are ensured,
      the others untouched. */
  ghost predicate SideCarsUpTo<C(!new)>(was: map<string, S.Proc<C>>, all: map<string, C>, world: string -> S.World,
                                        done: set<string>, servers: map<string, S.Proc<C>>, wanted: set<string>) {
    && wanted == done * all.Keys
    && (forall n | n !in wanted :: Get(servers, n) == Get(was, n))
    && (forall n | n in wanted :: Get(servers, n) == Some(Slot(Get(was, n), all[n], world(n))))
  }

  lemma NoneEnsured<C(!new)>(sites: seq<Site>, all: map<string, C>, world: string -> S.World, was: map<string, S.Proc<C>>)
    ensures SideCarsUpTo(was, all, world, NamesUpTo(sites, 0), was, {})
  {
  }

  lemma NextEnsured<C(!new)>(was: map<string, S.Proc<C>>, all: map<string, C>, world: string -> S.World, done: set<string>,
                             servers: map<string, S.Proc<C>>, wanted: set<string>, n: string)
    requires SideCarsUpTo(was, all, world, done, servers, wanted) && n !in done
    ensures n in all ==>
      SideCarsUpTo(was, all, world, done + {n}, servers[n := Slot(Get(servers, n), all[n], world(n))], wanted + {n})
    ensures n !in all ==> SideCarsUpTo(was, all, world, done + {n}, servers, wanted)
  {
    hide Slot;
    assert Get(servers, n) == Get(was, n);
    assert n !in all ==> (done + {n}) * all.Keys == wanted;
    assert n in all ==> (done + {n}) * all.Keys == wanted + {n};
  }

  lemma AllEnsured<C(!new)>(was: map<string, S.Proc<C>>, all: map<string, C>, world: string -> S.World, done: set<string>,
                            servers: map<string, S.Proc<C>>, wanted: set<string>)
    requires SideCarsUpTo(was, all, world, done, servers, wanted) && all.Keys <= done
    ensures (map n | n in servers && n in wanted :: servers[n]) == SideCarsFor(was, all, world)
  {
    hide Slot;
    var kept := map n | n in servers && n in wanted :: servers[n];
    forall n
      ensures Get(kept, n) == Get(SideCarsFor(was, all, world), n)
    {
      if n in wanted { assert Get(servers, n).Some?; }
    }
    SameMap(kept, SideCarsFor(was, all, world));
  }
}
