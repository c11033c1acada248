/** What a site's settings come to: from the configuration to the route and the
    backends, setting by setting. */
module Settings {
  import opened Wrappers
  import opened Text
  import Xdebug
  import opened Sites
  import opened Reconcile
  import O = Octane
  import S = Supervisor

  /** The link under `k` is the one listed as the site `k`. */
  ghost predicate Claims(config: Config, k: string) {
    k in config.links && FirstKey(config.links, k, k)
  }

  /** The name is a parked folder's: no link claims it. */
  ghost predicate OnlyParked(config: Config, disk: Disk, n: string) {
    !HasKey(config.links, n) && !Dotted(n) && FolderFor(disk, config.parked, n).Some?
  }

  /** A plain relative path below a folder. */
  predicate Below(path: string, folder: string, rel: string) {
    path == (if rel != "" && rel[0] == '/' then rel
             else if folder == "" || folder[|folder| - 1] == '/' then folder + rel else folder + "/" + rel)
  }

  /** A pin that is installed gives its own binary, any other and none the default
      one. */
  predicate PhpSays(php: Php, pin: Option<string>, bin: string) {
    && (pin.Some? && pin.value in php.versions ==> bin == php.versions[pin.value])
    && (pin.Some? && pin.value !in php.versions ==> bin == php.defaultBin)
    && (pin.None? ==> bin == php.defaultBin)
  }

  /** The first that is set. */
  function Chosen<T>(own: Option<T>, configured: Option<T>): Option<T> {
    match own
    case Some(_) => own
    case None => configured
  }

  /** The mode a text names; off without one, and for one that names none. */
  predicate XdebugSays(text: Option<string>, mode: Xdebug.Mode) {
    && (text.None? ==> mode.text == "off")
    && (text.Some? && Xdebug.Parsed(text.value).Ok? ==> mode == Xdebug.Parsed(text.value).value)
    && (text.Some? && Xdebug.Parsed(text.value).Err? ==> mode.text == "off")
  }

  /** Served from its `public` folder if it has one. */
  ghost predicate ServedFrom(disk: Disk, path: string, docroot: string) {
    exists public :: Below(public, path, "public") && docroot == if public in disk.dirs then public else path
  }

  // ---- routes ----

  /** A route as the link asks for it: its own PHP and Xdebug settings before the
      configured ones, and everything else its own. */
  ghost predicate RoutedAsLinked(config: Config, disk: Disk, php: Php, link: Link, r: Route) {
    && PhpSays(php, Chosen(link.php, config.defaultPhp), r.key.phpBin)
    && XdebugSays(Chosen(link.xdebug, config.defaultXdebug), r.key.mode)
    && r.key.profile == link.profile && r.secure == link.secure
    && (link.preload.None? ==> r.key.preload.None?)
    && (link.preload.Some? ==> r.key.preload.Some? && Below(r.key.preload.value, link.path, link.preload.value))
    && ServedFrom(disk, link.path, r.docroot)
  }

  /** A parked folder has nothing but the configured defaults. */
  ghost predicate RoutedAsParked(config: Config, disk: Disk, php: Php, path: string, r: Route) {
    && PhpSays(php, config.defaultPhp, r.key.phpBin) && XdebugSays(config.defaultXdebug, r.key.mode)
    && !r.key.profile && !r.secure && r.key.preload.None? && ServedFrom(disk, path, r.docroot)
  }

  lemma LinkRoute(config: Config, disk: Disk, php: Php, k: string, link: Link, upstream: Option<nat>)
    ensures RoutedAsLinked(config, disk, php, link, RouteFor(php, LinkSite(config, disk, k, link), upstream))
  {
    hide Xdebug.Parsed;
    assert Below(JoinPath(link.path, "public"), link.path, "public");
  }

  lemma ParkedRoute(config: Config, disk: Disk, php: Php, n: string, path: string, upstream: Option<nat>)
    ensures RoutedAsParked(config, disk, php, path, RouteFor(php, ParkedSite(config, disk, n, path), upstream))
  {
    hide Xdebug.Parsed;
    assert Below(JoinPath(path, "public"), path, "public");
  }

  /** After a full reconcile every link that claims its name is routed as it asks, and
      every parked folder that gets a name no link claims as the defaults say. */
  lemma FullRoutesAsConfigured(s: State, php: Php, env: Env, config: Config, disk: Disk, anew: bool, k: string)
    ensures var after := Full(s, php, env, SitesOf(config, disk), anew);
      && (Claims(config, k) ==> k in after.routes && RoutedAsLinked(config, disk, php, config.links[k], after.routes[k]))
      && (OnlyParked(config, disk, k) ==>
            k in after.routes
            && RoutedAsParked(config, disk, php, FolderFor(disk, config.parked, k).value, after.routes[k]))
  {
    hide SitesOf, LinkSite, ParkedSite, RouteFor, FullPools, FullOctane, FullDev, FullTunnels, OctaneFor, Less, FolderFor,
         RoutedAsLinked, RoutedAsParked, Lower;
    TableHoldsEverySite(config, disk, k);
    var table := SitesOf(config, disk);
    if Claims(config, k) {
      LinkRow(config, disk, k, k);
      LinkRoute(config, disk, php, k, config.links[k], PortOf(OctaneFor(s.octane, php, env, table[k])));
    } else if OnlyParked(config, disk, k) {
      ParkedRoute(config, disk, php, k, FolderFor(disk, config.parked, k).value,
        PortOf(OctaneFor(s.octane, php, env, table[k])));
    }
  }

  /** After the single-site path the site looked up is routed so too. */
  lemma FastRoutesAsConfigured(s: State, php: Php, env: Env, config: Config, disk: Disk, query: string)
    requires var k := Lower(query); k != "" && !Dotted(k) && k in config.links
    ensures var k := Lower(query); var after := Fast(s, php, env, k, OneNamed(config, disk, query));
      k in after.routes && RoutedAsLinked(config, disk, php, config.links[k], after.routes[k])
  {
    hide LinkSite, RouteFor, FastPools, FastOctane, FastDev, OctaneFor, FirstStat, RoutedAsLinked, Lower;
    var k := Lower(query);
    var site := LinkSite(config, disk, k, config.links[k]);
    LinkRoute(config, disk, php, k, config.links[k], PortOf(OctaneFor(s.octane, php, env, site)));
  }

  /** Another default binary moves no site whose pin is installed. */
  lemma PinnedSitesIgnoreTheDefault(php: Php, bin: string, site: Site, upstream: Option<nat>)
    requires site.php.Some? && site.php.value in php.versions
    ensures RouteFor(php.(defaultBin := bin), site, upstream) == RouteFor(php, site, upstream)
  {
  }

  // ---- backends ----

  /** An Octane server only for a runtime other than `fpm`, with that runtime, the
      link's binary and its folder; and for every such runtime if one can be started. */
  ghost predicate OctaneAsLinked(config: Config, php: Php, env: Env, k: string, link: Link, server: Option<O.Server>) {
    && ((link.runtime.Some? && link.runtime.value != "fpm" && link.runtime.value != "" && env.launch(k).installed
         && env.launch(k).port.Some? && env.launch(k).spawns) ==>
          server.Some?)
    && (server.Some? ==>
      && link.runtime.Some? && link.runtime.value != "fpm" && link.runtime.value != ""
      && server.value.proc.config.runtime == link.runtime.value && server.value.proc.config.project == link.path
      && PhpSays(php, Chosen(link.php, config.defaultPhp), server.value.proc.config.phpBin)
      && (server.value.watch <==> link.watch != Some(false)))
  }

  /** A dev server exactly for a script, running that script in the link's folder with
      that folder's package manager. */
  ghost predicate DevAsLinked(env: Env, link: Link, server: Option<S.Proc<DevConfig>>) {
    && (server.Some? <==> link.dev.Some? && link.dev.value != "")
    && (server.Some? ==>
          && server.value.config.script == link.dev.value && server.value.config.project == link.path
          && server.value.config.agent == env.agent(link.path))
  }

  /** A tunnel exactly for a share, to the site's own host name. */
  ghost predicate TunnelAsLinked(config: Config, env: Env, k: string, link: Link, tunnel: Option<S.Proc<TunnelConfig>>) {
    && (tunnel.Some? <==> link.share.Some? && link.share.value != "")
    && (tunnel.Some? ==>
          && tunnel.value.config.subdomain == link.share.value && tunnel.value.config.port == env.httpPort
          && tunnel.value.config.host == k + "." + if config.tlds == [] then "test" else config.tlds[0])
  }

  lemma OctaneRuns(octane: map<string, O.Server>, php: Php, env: Env, config: Config, disk: Disk, k: string, link: Link)
    ensures OctaneAsLinked(config, php, env, k, link, OctaneFor(octane, php, env, LinkSite(config, disk, k, link)))
  {
    hide DocrootFor, ModeOf;
    SlotKeepsSetup(octane, php, env, LinkSite(config, disk, k, link));
  }

  lemma DevRuns(dev: map<string, S.Proc<DevConfig>>, env: Env, config: Config, disk: Disk, k: string, link: Link)
    ensures var site := LinkSite(config, disk, k, link);
      DevAsLinked(env, link, if WantsDev(site) then Some(Slot(Get(dev, k), DevConfigFor(env, site), env.world(k))) else None)
  {
    hide DocrootFor, ModeOf, Slot;
    var site := LinkSite(config, disk, k, link);
    if WantsDev(site) { SlotIsAsWanted(Get(dev, k), DevConfigFor(env, site), env.world(k)); }
  }

  lemma TunnelRuns(tunnels: map<string, S.Proc<TunnelConfig>>, env: Env, config: Config, disk: Disk, k: string, link: Link)
    ensures var site := LinkSite(config, disk, k, link);
      TunnelAsLinked(config, env, k, link,
        if WantsShare(site) then Some(Slot(Get(tunnels, k), TunnelFor(env, site), env.tunnel(k))) else None)
  {
    hide DocrootFor, ModeOf, Slot;
    var site := LinkSite(config, disk, k, link);
    if WantsShare(site) { SlotIsAsWanted(Get(tunnels, k), TunnelFor(env, site), env.tunnel(k)); }
  }

  /** What runs for a link beside php-fpm after a full reconcile. */
  lemma FullRunsAsConfigured(s: State, php: Php, env: Env, config: Config, disk: Disk, anew: bool, k: string)
    requires Claims(config, k)
    ensures var after := Full(s, php, env, SitesOf(config, disk), anew); var link := config.links[k];
      && OctaneAsLinked(config, php, env, k, link, Get(after.octane, k))
      && DevAsLinked(env, link, Get(after.dev, k)) && TunnelAsLinked(config, env, k, link, Get(after.tunnels, k))
  {
    hide SitesOf, FullPools, FullRoutes, Less, Lower, LinkSite, Slot, OctaneFor, OctaneAsLinked, DevAsLinked, TunnelAsLinked;
    TableHoldsEverySite(config, disk, k);
    LinkRow(config, disk, k, k);
    OctaneRuns(s.octane, php, env, config, disk, k, config.links[k]);
    DevRuns(s.dev, env, config, disk, k, config.links[k]);
    TunnelRuns(s.tunnels, env, config, disk, k, config.links[k]);
  }

  /** A parked folder is routed as the defaults say, with nothing beside php-fpm. */
  ghost predicate ParkedAsConfigured(s: State, config: Config, disk: Disk, php: Php, n: string)
    requires OnlyParked(config, disk, n)
  {
    && n in s.routes && RoutedAsParked(config, disk, php, FolderFor(disk, config.parked, n).value, s.routes[n])
    && s.routes[n].upstream.None? && n !in s.octane && n !in s.dev && n !in s.tunnels
  }

  lemma {:induction false} FolderNamesAreLower(disk: Disk, parked: seq<string>, name: string)
    requires name in FolderNames(disk, parked)
    ensures Lower(name) == name
    decreases |parked|
  {
    hide Lower;
    if m :| m in EntriesOf(disk, parked[0]) && Lower(m) == name {
      LowerTwice(m);
    } else {
      FolderNamesAreLower(disk, parked[1..], name);
    }
  }

  lemma ParkedIsNoKey(config: Config, disk: Disk, n: string)
    requires OnlyParked(config, disk, n)
    ensures n !in config.links
  {
    hide Lower, FolderFor, FolderNames;
    FolderForHasItsName(disk, config.parked, n);
    FolderNamesAreLower(disk, config.parked, n);
  }

  lemma ParkedRow(config: Config, disk: Disk, n: string)
    requires OnlyParked(config, disk, n)
    ensures var path := FolderFor(disk, config.parked, n).value;
      n in SitesOf(config, disk) && SitesOf(config, disk)[n] == ParkedSite(config, disk, n, path)
  {
    hide SitesOf, FolderFor, Less, Lower, ParkedSite;
    TableHoldsEverySite(config, disk, n);
  }

  lemma FullRunsParked(s: State, php: Php, env: Env, config: Config, disk: Disk, anew: bool, n: string)
    requires OnlyParked(config, disk, n)
    ensures ParkedAsConfigured(Full(s, php, env, SitesOf(config, disk), anew), config, disk, php, n)
  {
    hide SitesOf, FullPools, FolderFor, Less, Lower, DocrootFor, ModeOf, RoutedAsParked, Slot;
    ParkedRow(config, disk, n);
    ParkedRoute(config, disk, php, n, FolderFor(disk, config.parked, n).value, None);
  }

  // ---- the single-site path ----

  /** The site asked for is as its link asks, or as the defaults say for a parked folder
      that the lookup finds, and otherwise not routed. */
  ghost predicate OneAsConfigured(s: State, config: Config, disk: Disk, php: Php, env: Env, query: string) {
    var k := Lower(query);
    if k == "" || Dotted(k) then k !in s.routes
    else if k in config.links then
      && k in s.routes && RoutedAsLinked(config, disk, php, config.links[k], s.routes[k])
      && OctaneAsLinked(config, php, env, k, config.links[k], Get(s.octane, k))
      && DevAsLinked(env, config.links[k], Get(s.dev, k))
    else if FirstStat(disk, config.parked, k).Some? then
      && k in s.routes && RoutedAsParked(config, disk, php, FirstStat(disk, config.parked, k).value, s.routes[k])
      && s.routes[k].upstream.None? && k !in s.octane && k !in s.dev
    else k !in s.routes
  }

  lemma FastOctaneAt(s: State, php: Php, env: Env, name: string, site: Site)
    requires site.name == name
    ensures Get(FastOctane(s, php, env, name, Some(site)), name) == OctaneFor(s.octane, php, env, site)
  {
    hide OctaneSlot, SetupFor, KeyFor;
  }

  lemma FastRunsAsConfigured(s: State, php: Php, env: Env, config: Config, disk: Disk, query: string)
    requires var k := Lower(query); k != "" && !Dotted(k) && k in config.links
    ensures var k := Lower(query); var after := Fast(s, php, env, k, OneNamed(config, disk, query)); var link := config.links[k];
      && OctaneAsLinked(config, php, env, k, link, Get(after.octane, k)) && DevAsLinked(env, link, Get(after.dev, k))
  {
    hide LinkSite, FastRoutes, FastPools, FastOctane, Slot, OctaneFor, FirstStat, OctaneAsLinked, DevAsLinked, Lower;
    var k := Lower(query);
    FastOctaneAt(s, php, env, k, LinkSite(config, disk, k, config.links[k]));
    OctaneRuns(s.octane, php, env, config, disk, k, config.links[k]);
    DevRuns(s.dev, env, config, disk, k, config.links[k]);
  }

  lemma FastRunsParked(s: State, php: Php, env: Env, config: Config, disk: Disk, query: string)
    requires var k := Lower(query);
      k != "" && !Dotted(k) && k !in config.links && FirstStat(disk, config.parked, k).Some?
    ensures OneAsConfigured(Fast(s, php, env, Lower(query), OneNamed(config, disk, query)), config, disk, php, env, query)
  {
    hide FastPools, FirstStat, RoutedAsParked, DocrootFor, ModeOf, Lower;
    var k := Lower(query);
    ParkedRoute(config, disk, php, k, FirstStat(disk, config.parked, k).value, None);
  }

  lemma FastIsAsConfigured(s: State, php: Php, env: Env, config: Config, disk: Disk, query: string)
    ensures OneAsConfigured(Fast(s, php, env, Lower(query), OneNamed(config, disk, query)), config, disk, php, env, query)
  {
    hide FastPools, FastOctane, FastDev, FirstStat, RoutedAsLinked, OctaneAsLinked, DevAsLinked, LinkSite, ParkedSite, Lower;
    var k := Lower(query);
    if k != "" && !Dotted(k) {
      if k in config.links {
        FastRoutesAsConfigured(s, php, env, config, disk, query);
        FastRunsAsConfigured(s, php, env, config, disk, query);
      } else if FirstStat(disk, config.parked, k).Some? {
        FastRunsParked(s, php, env, config, disk, query);
      }
    }
  }

  // ---- the full reconcile ----

  /** Everything a reconcile leaves is as the links and the defaults ask, and a site is
      served exactly with an Octane port or a master for its own key. */
  ghost predicate AsConfigured(s: State, config: Config, disk: Disk, php: Php, env: Env) {
    && (forall n | OnlyParked(config, disk, n) ::
          ParkedAsConfigured(s, config, disk, php, n) && (n in ServedBy(s) <==> s.routes[n].key in s.pools.masters))
    && LinksAsConfigured(s, config, disk, php, env)
  }

  ghost predicate LinksAsConfigured(s: State, config: Config, disk: Disk, php: Php, env: Env) {
    forall k | Claims(config, k) ::
      && k in s.routes && RoutedAsLinked(config, disk, php, config.links[k], s.routes[k])
      && OctaneAsLinked(config, php, env, k, config.links[k], Get(s.octane, k)) && DevAsLinked(env, config.links[k], Get(s.dev, k))
      && TunnelAsLinked(config, env, k, config.links[k], Get(s.tunnels, k))
      && (k in ServedBy(s) <==> s.routes[k].upstream.Some? || s.routes[k].key in s.pools.masters)
  }

  lemma FullIsAsConfigured(s: State, php: Php, env: Env, config: Config, disk: Disk, anew: bool)
    ensures AsConfigured(Full(s, php, env, SitesOf(config, disk), anew), config, disk, php, env)
  {
    hide SitesOf, Full, OnlyParked, RoutedAsParked, LinksAsConfigured, FolderFor;
    LinksAreAsConfigured(s, php, env, config, disk, anew);
    forall n | OnlyParked(config, disk, n)
      ensures ParkedAsConfigured(Full(s, php, env, SitesOf(config, disk), anew), config, disk, php, n)
    {
      FullRunsParked(s, php, env, config, disk, anew, n);
    }
  }

  /** Every row has its tags, and a parked one is watched. */
  lemma RowsKeepTheirTags(config: Config, disk: Disk, n: string)
    requires n in SitesOf(config, disk)
    ensures var site := SitesOf(config, disk)[n];
      && site.tags == (if n in config.tags then config.tags[n] else [])
      && site.tld == (if config.tlds == [] then "test" else config.tlds[0])
      && (site.source.Parked? ==> site.watch)
  {
    hide SitesOf, FolderFor, Less, Lower, DocrootFor, ModeOf;
    TableHoldsEverySite(config, disk, n);
  }

  lemma LinksAreAsConfigured(s: State, php: Php, env: Env, config: Config, disk: Disk, anew: bool)
    ensures LinksAsConfigured(Full(s, php, env, SitesOf(config, disk), anew), config, disk, php, env)
  {
    hide SitesOf, Full, Claims, RoutedAsLinked, OctaneAsLinked, DevAsLinked, TunnelAsLinked, Get;
    forall k | Claims(config, k)
      ensures var after := Full(s, php, env, SitesOf(config, disk), anew);
        && k in after.routes && k in config.links && RoutedAsLinked(config, disk, php, config.links[k], after.routes[k])
        && OctaneAsLinked(config, php, env, k, config.links[k], Get(after.octane, k)) && DevAsLinked(env, config.links[k], Get(after.dev, k))
        && TunnelAsLinked(config, env, k, config.links[k], Get(after.tunnels, k))
    {
      ClaimedIsLinked(config, k);
      FullRoutesAsConfigured(s, php, env, config, disk, anew, k);
      FullRunsAsConfigured(s, php, env, config, disk, anew, k);
    }
  }

  lemma ClaimedIsLinked(config: Config, k: string)
    requires Claims(config, k)
    ensures k in config.links
  {
  }
}
