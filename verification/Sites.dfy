/** From configuration to sites: the full expansion of links and parked
    directories, and the single-site shortcut that must agree with it. */
module Sites {
  import opened Wrappers
  import opened Text
  import opened Sorting
  import Xdebug

  // ---- configuration ----

  const SITE_TLD: string := "test"

  datatype Link = Link(
    path: string, php: Option<string>, secure: bool, runtime: Option<string>, watch: Option<bool>,
    dev: Option<string>, share: Option<string>, xdebug: Option<string>, profile: bool, preload: Option<string>,
    database: Option<string>, dbBranch: Option<string>, dbPort: Option<nat>)

  const DEFAULT_FPM_MAX_CHILDREN: nat := 40

  /** What every php-fpm master is started with; changing any of it restarts them
      all. */
  datatype PoolSettings = PoolSettings(clientPort: nat, ideKey: string, maxChildren: nat)

  datatype Config = Config(
    tlds: seq<string>, parked: seq<string>, links: map<string, Link>, proxies: map<string, string>,
    defaultPhp: Option<string>, defaultXdebug: Option<string>, clientPort: nat, ideKey: string,
    tags: map<string, seq<string>>, fpmMaxChildren: Option<nat>)
  {
    function Settings(): PoolSettings {
      PoolSettings(clientPort, ideKey,
        match fpmMaxChildren
        case None => DEFAULT_FPM_MAX_CHILDREN
        case Some(n) => if n == 0 then 1 else n)
    }

    function PrimaryTld(): string {
      if tlds == [] then SITE_TLD else tlds[0]
    }

    function TagsOf(name: string): seq<string> {
      if name in tags then tags[name] else []
    }
  }

  // ---- the disk ----

  /** `listing` has the readable directories' entries in the order they are
      returned; `dirs` the paths that are directories once links are followed. */
  datatype Disk = Disk(listing: map<string, seq<string>>, dirs: set<string>)

  /** `path.join(rel)`: an absolute `rel` replaces the path. */
  function JoinPath(path: string, rel: string): string {
    if rel != [] && rel[0] == '/' then rel
    else if path == [] || path[|path| - 1] == '/' then path + rel
    else path + "/" + rel
  }

  /** A canonical path's last component, lower-cased: a folder's default site
      name. */
  function NameFor(path: string): Option<string> {
    var pieces := Split(path, '/');
    var last := pieces[|pieces| - 1];
    if last == [] then None else Some(Lower(last))
  }

  /** A folder's site is called what the folder is, in lower case. */
  lemma SiteIsCalledAfterItsFolder(root: string, name: string)
    requires '/' !in name
    ensures NameFor(root + "/" + name) == if name == "" then None else Some(Lower(name))
  {
    LastPiece(root, name, '/');
  }

  lemma {:induction false} LastPiece(a: string, b: string, sep: char)
    requires sep !in b
    ensures var pieces := Split(a + [sep] + b, sep); pieces[|pieces| - 1] == b && |pieces| > 1
    decreases |a|
  {
    var s := a + [sep] + b;
    if a == "" {
      assert s[1..] == b;
      SplitWhole(b, sep);
    } else {
      assert s[1..] == a[1..] + [sep] + b;
      LastPiece(a[1..], b, sep);
    }
  }

  /** Every pool has at least one child, and forty unless told otherwise. */
  lemma PoolSize(config: Config)
    ensures config.Settings().maxChildren >= 1
    ensures config.fpmMaxChildren.None? ==> config.Settings().maxChildren == 40
    ensures config.fpmMaxChildren.Some? && config.fpmMaxChildren.value >= 1 ==>
      config.Settings().maxChildren == config.fpmMaxChildren.value
    ensures config.Settings().clientPort == config.clientPort && config.Settings().ideKey == config.ideKey
  {
  }

  function DocrootFor(disk: Disk, path: string): string {
    var public := JoinPath(path, "public");
    if public in disk.dirs then public else path
  }

  // ---- sites ----

  datatype Source = Linked | Parked

  datatype Site = Site(
    name: string, path: string, docroot: string, php: Option<string>, secure: bool, source: Source, tld: string,
    runtime: Option<string>, watch: bool, xdebug: Xdebug.Mode, profile: bool, preload: Option<string>,
    dev: Option<string>, share: Option<string>, tags: seq<string>)

  function OrElse<T>(a: Option<T>, b: Option<T>): Option<T> {
    if a.Some? then a else b
  }

  /** The effective mode: an unparsable value degrades to `off`. */
  function ModeOf(config: Config, raw: Option<string>): Xdebug.Mode {
    match OrElse(raw, config.defaultXdebug)
    case None => Xdebug.Mode("off")
    case Some(text) => var r := Xdebug.Parsed(text); if r.Ok? then r.value else Xdebug.Mode("off")
  }

  function LinkSite(config: Config, disk: Disk, name: string, link: Link): (s: Site)
    ensures s.name == name
  {
    Site(name, link.path, DocrootFor(disk, link.path), OrElse(link.php, config.defaultPhp), link.secure, Linked,
      config.PrimaryTld(), link.runtime, if link.watch.Some? then link.watch.value else true,
      ModeOf(config, link.xdebug), link.profile,
      if link.preload.Some? then Some(JoinPath(link.path, link.preload.value)) else None,
      link.dev, link.share, config.TagsOf(name))
  }

  function ParkedSite(config: Config, disk: Disk, name: string, path: string): (s: Site)
    ensures s.name == name
  {
    Site(name, path, DocrootFor(disk, path), config.defaultPhp, false, Parked, config.PrimaryTld(), None, true,
      ModeOf(config, None), false, None, None, None, config.TagsOf(name))
  }

  predicate Dotted(name: string) {
    name != [] && name[0] == '.'
  }

  // ---- what the full expansion has to give ----

  /** `k` is the first link key, in key order, that lower-cases to `name`. */
  ghost predicate FirstKey(links: map<string, Link>, name: string, k: string) {
    k in links && Lower(k) == name && forall j | j in links && Lower(j) == name :: j == k || Less(k, j)
  }

  ghost predicate HasKey(links: map<string, Link>, name: string) {
    exists k | k in links :: Lower(k) == name
  }

  /** The first directory among `names` in `root` that lower-cases to `name`. */
  function FolderIn(disk: Disk, root: string, names: seq<string>, name: string): Option<string>
    decreases |names|
  {
    if names == [] then None
    else if JoinPath(root, names[0]) in disk.dirs && Lower(names[0]) == name then Some(JoinPath(root, names[0]))
    else FolderIn(disk, root, names[1..], name)
  }

  function EntriesOf(disk: Disk, root: string): seq<string> {
    if root in disk.listing then disk.listing[root] else []
  }

  /** The first such directory over all parked roots, in order. */
  function FolderFor(disk: Disk, parked: seq<string>, name: string): Option<string>
    decreases |parked|
  {
    if parked == [] then None
    else OrElse(FolderIn(disk, parked[0], EntriesOf(disk, parked[0]), name), FolderFor(disk, parked[1..], name))
  }

  /** The site a full expansion has under `name`: the first link that claims it,
      or else the first parked folder, unless hidden. */
  ghost function SiteNamed(config: Config, disk: Disk, name: string): Option<Site> {
    if HasKey(config.links, name) then
      FirstKeyExists(config.links, name);
      var k :| FirstKey(config.links, name, k);
      Some(LinkSite(config, disk, name, config.links[k]))
    else if Dotted(name) then None
    else match FolderFor(disk, config.parked, name)
         case None => None
         case Some(path) => Some(ParkedSite(config, disk, name, path))
  }

  ghost predicate Least(keys: set<string>, k: string) {
    k in keys && forall j | j in keys :: j == k || Less(k, j)
  }

  lemma {:induction false} LeastIsThere(keys: set<string>) returns (k: string)
    requires keys != {}
    ensures Least(keys, k)
    decreases keys
  {
    hide Less;
    var x :| x in keys;
    k := x;
    if keys != {x} {
      var rest := keys - {x};
      assert rest != {} by { assert keys == rest + {x}; }
      var least := LeastIsThere(rest);
      LessTotal(x, least);
      if Less(x, least) { BeforeAll(rest, x, least); } else { k := least; }
    }
  }

  lemma BeforeAll(keys: set<string>, x: string, least: string)
    requires Least(keys, least) && Less(x, least)
    ensures forall j | j in keys :: Less(x, j)
  {
    hide Less;
    forall j | j in keys
      ensures Less(x, j)
    {
      if j != least { LessTransitive(x, least, j); }
    }
  }

  lemma FirstKeyExists(links: map<string, Link>, name: string)
    requires HasKey(links, name)
    ensures exists k :: FirstKey(links, name, k)
  {
    hide Less, Lower;
    var keys := set k | k in links && Lower(k) == name;
    var some :| some in links && Lower(some) == name;
    assert some in keys;
    var k := LeastIsThere(keys);
    assert FirstKey(links, name, k);
  }

  lemma FirstKeyIsUnique(links: map<string, Link>, name: string, j: string, k: string)
    requires FirstKey(links, name, j) && FirstKey(links, name, k)
    ensures j == k
  {
    hide Less;
    LessTotal(j, k);
  }

  // ---- the full expansion ----

  ghost predicate ByName(sites: seq<Site>) {
    forall i, j | 0 <= i < j < |sites| :: Less(sites[i].name, sites[j].name)
  }

  ghost predicate Distinct(sites: seq<Site>) {
    forall i, j | 0 <= i < j < |sites| :: sites[i].name != sites[j].name
  }

  /** The list so far: each row the right site for its name, and the names seen
      are exactly the rows' names. */
  ghost predicate Rows(config: Config, disk: Disk, sites: seq<Site>, seen: set<string>) {
    && (forall s | s in sites :: s.name in seen && SiteNamed(config, disk, s.name) == Some(s))
    && (forall n | n in seen :: exists s | s in sites :: s.name == n)
    && Distinct(sites)
  }

  function NameOf(s: Site): string {
    s.name
  }

  lemma SortedByName(sites: seq<Site>)
    requires Distinct(sites)
    ensures ByName(Sort(NameOf, sites)) && forall r :: r in Sort(NameOf, sites) <==> r in sites
  {
    hide Less, Sort;
    SortSorts(NameOf, sites);
    SameDistinct(sites, Sort(NameOf, sites));
    var sorted := Sort(NameOf, sites);
    forall i, j | 0 <= i < j < |sorted|
      ensures Less(sorted[i].name, sorted[j].name)
    {
      assert !Less(NameOf(sorted[j]), NameOf(sorted[i]));
      LessTotal(sorted[i].name, sorted[j].name);
    }
  }

  lemma SameDistinct(a: seq<Site>, b: seq<Site>)
    requires Distinct(a) && multiset(a) == multiset(b)
    ensures Distinct(b)
  {
    forall i, j | 0 <= i < j < |b|
      ensures b[i].name != b[j].name
    {
      assert b[i] in multiset(a) && b[j] in multiset(a);
      OneOfAName(a, b[i], b[j]);
      AtMostOnce(a, b[i]);
      TwiceIsTwo(b, i, j);
    }
  }

  lemma OneOfAName(a: seq<Site>, x: Site, y: Site)
    requires Distinct(a) && x in a && y in a
    ensures x.name == y.name ==> x == y
  {
  }

  lemma TwiceIsTwo(b: seq<Site>, i: nat, j: nat)
    requires i < j < |b|
    ensures b[i] == b[j] ==> multiset(b)[b[i]] >= 2
  {
    assert b == b[..i] + [b[i]] + b[i + 1..j] + [b[j]] + b[j + 1..];
  }

  lemma {:induction false} AtMostOnce(a: seq<Site>, s: Site)
    requires Distinct(a)
    ensures multiset(a)[s] <= 1
    decreases |a|
  {
    if a != [] {
      AtMostOnce(a[1..], s);
      assert a == [a[0]] + a[1..];
      forall k | 0 <= k < |a[1..]|
        ensures a[1..][k] != a[0]
      {
        assert a[1..][k] == a[k + 1];
      }
    }
  }

  /** The parked folders still to be read hold whatever unseen names expand to. */
  ghost predicate StillToRead(config: Config, disk: Disk, seen: set<string>, i: nat, names: seq<string>) {
    && (forall n | HasKey(config.links, n) :: n in seen)
    && i < |config.parked|
    && forall n | n !in seen && !Dotted(n) ::
         FolderFor(disk, config.parked, n) ==
         OrElse(FolderIn(disk, config.parked[i], names, n), FolderFor(disk, config.parked[i + 1..], n))
  }

  /** The same between two parked roots. */
  ghost predicate RootsToRead(config: Config, disk: Disk, seen: set<string>, i: nat) {
    && (forall n | HasKey(config.links, n) :: n in seen)
    && i <= |config.parked|
    && forall n | n !in seen && !Dotted(n) ::
         FolderFor(disk, config.parked, n) == FolderFor(disk, config.parked[i..], n)
  }

  lemma AddRow(config: Config, disk: Disk, sites: seq<Site>, seen: set<string>, s: Site)
    requires Rows(config, disk, sites, seen) && s.name !in seen && SiteNamed(config, disk, s.name) == Some(s)
    ensures Rows(config, disk, sites + [s], seen + {s.name})
  {
    hide SiteNamed;
    var all := sites + [s];
    forall i, j | 0 <= i < j < |all|
      ensures all[i].name != all[j].name
    {
      if j == |sites| { assert all[i] in sites; }
    }
    forall n | n in seen + {s.name}
      ensures exists r | r in all :: r.name == n
    {
      if n == s.name {
        assert s in all;
      } else {
        var r :| r in sites && r.name == n;
        assert r in all;
      }
    }
  }

  lemma LinkRow(config: Config, disk: Disk, name: string, k: string)
    requires FirstKey(config.links, name, k)
    ensures SiteNamed(config, disk, name) == Some(LinkSite(config, disk, name, config.links[k]))
  {
    hide LinkSite, Lower, Less;
    assert HasKey(config.links, name) by { hide LinkSite, Less; assert k in config.links; }
    forall j | FirstKey(config.links, name, j)
      ensures j == k
    {
      FirstKeyIsUnique(config.links, name, j, k);
    }
  }

  lemma StartRoot(config: Config, disk: Disk, seen: set<string>, i: nat)
    requires RootsToRead(config, disk, seen, i) && i < |config.parked|
    ensures StillToRead(config, disk, seen, i, EntriesOf(disk, config.parked[i]))
  {
    hide FolderIn, HasKey;
    var rest := config.parked[i..];
    assert rest[0] == config.parked[i] && rest[1..] == config.parked[i + 1..];
  }

  lemma EndRoot(config: Config, disk: Disk, seen: set<string>, i: nat)
    requires StillToRead(config, disk, seen, i, [])
    ensures RootsToRead(config, disk, seen, i + 1)
  {
    hide HasKey, FolderFor;
  }

  /** Reading one entry of a parked root: a hidden name, a name seen already and
      what is not a directory are passed over; `next` is the set seen afterwards. */
  lemma NextEntry(config: Config, disk: Disk, seen: set<string>, i: nat, names: seq<string>, next: set<string>)
    requires StillToRead(config, disk, seen, i, names) && names != []
    requires var name := Lower(names[0]); var path := JoinPath(config.parked[i], names[0]);
      next == if path in disk.dirs && !Dotted(name) then seen + {name} else seen
    ensures StillToRead(config, disk, next, i, names[1..])
    ensures var name := Lower(names[0]); var path := JoinPath(config.parked[i], names[0]);
      path in disk.dirs && !Dotted(name) && name !in seen ==>
        SiteNamed(config, disk, name) == Some(ParkedSite(config, disk, name, path))
  {
    hide HasKey, FolderFor, JoinPath, Lower, ParkedSite, LinkSite;
  }

  lemma NothingLeft(config: Config, disk: Disk, name: string)
    requires !HasKey(config.links, name) && (!Dotted(name) ==> FolderFor(disk, config.parked, name) == None)
    ensures SiteNamed(config, disk, name) == None
  {
  }

  lemma AllRead(config: Config, disk: Disk, sites: seq<Site>, seen: set<string>)
    requires Rows(config, disk, sites, seen) && RootsToRead(config, disk, seen, |config.parked|)
    ensures forall s: Site :: s in sites <==> SiteNamed(config, disk, s.name) == Some(s)
  {
    hide LinkSite, ParkedSite, HasKey, FolderIn;
    assert config.parked[|config.parked|..] == [];
    forall s: Site | SiteNamed(config, disk, s.name) == Some(s)
      ensures s in sites
    {
      if s.name !in seen { NothingLeft(config, disk, s.name); }
    }
  }

  ghost predicate KeysLeft(links: map<string, Link>, keys: set<string>, seen: set<string>) {
    forall k | k in links && k !in keys :: Lower(k) in seen
  }

  lemma NextKey(links: map<string, Link>, keys: set<string>, seen: set<string>, k: string)
    requires KeysLeft(links, keys, seen) && keys <= links.Keys && Least(keys, k)
    ensures Lower(k) !in seen ==> FirstKey(links, Lower(k), k)
    ensures KeysLeft(links, keys - {k}, seen + {Lower(k)})
  {
    hide Less, Lower;
  }

  lemma NoneTaken(links: map<string, Link>)
    ensures KeysLeft(links, links.Keys, {})
  {
  }

  lemma AllKeys(config: Config, disk: Disk, seen: set<string>)
    requires KeysLeft(config.links, {}, seen)
    ensures RootsToRead(config, disk, seen, 0)
  {
    hide FolderFor;
    assert config.parked[0..] == config.parked;
  }

  /** The full expansion: sorted, one row a name, and under every name exactly
      the site that name should have. */
  method Resolve(config: Config, disk: Disk) returns (sites: seq<Site>)
    ensures ByName(sites)
    ensures forall s: Site :: s in sites <==> SiteNamed(config, disk, s.name) == Some(s)
  {
    hide SiteNamed, LinkSite, ParkedSite, Lower, JoinPath, Less, ByName, StillToRead, RootsToRead, FirstKey, KeysLeft,
         FolderFor, FolderIn, HasKey, Dotted;
    sites := [];
    var seen: set<string> := {};
    var keys := config.links.Keys;
    NoneTaken(config.links);
    while keys != {}
      invariant keys <= config.links.Keys && Rows(config, disk, sites, seen) && KeysLeft(config.links, keys, seen)
      decreases keys
    {
      ghost var least := LeastIsThere(keys);
      var k :| k in keys && forall j | j in keys :: j == k || Less(k, j);
      var name := Lower(k);
      NextKey(config.links, keys, seen, k);
      keys := keys - {k};
      if name in seen { assert seen + {name} == seen; continue; }
      LinkRow(config, disk, name, k);
      var site := LinkSite(config, disk, name, config.links[k]);
      AddRow(config, disk, sites, seen, site);
      sites, seen := sites + [site], seen + {name};
    }
    AllKeys(config, disk, seen);

    for i := 0 to |config.parked|
      invariant Rows(config, disk, sites, seen) && RootsToRead(config, disk, seen, i)
    {
      var root := config.parked[i];
      StartRoot(config, disk, seen, i);
      var names := EntriesOf(disk, root);
      while names != []
        invariant Rows(config, disk, sites, seen) && StillToRead(config, disk, seen, i, names)
        decreases |names|
      {
        var path, name := JoinPath(root, names[0]), Lower(names[0]);
        NextEntry(config, disk, seen, i, names, if path in disk.dirs && !Dotted(name) then seen + {name} else seen);
        names := names[1..];
        if path !in disk.dirs || Dotted(name) { continue; }
        if name in seen { assert seen + {name} == seen; continue; }
        var site := ParkedSite(config, disk, name, path);
        AddRow(config, disk, sites, seen, site);
        sites, seen := sites + [site], seen + {name};
      }
      EndRoot(config, disk, seen, i);
    }
    AllRead(config, disk, sites, seen);
    SortedByName(sites);
    sites := Sort(NameOf, sites);
  }

  // ---- one site, without scanning ----

  /** The first parked root that has a directory called `name`. */
  function FirstStat(disk: Disk, parked: seq<string>, name: string): Option<string>
    decreases |parked|
  {
    if parked == [] then None
    else if JoinPath(parked[0], name) in disk.dirs then Some(JoinPath(parked[0], name))
    else FirstStat(disk, parked[1..], name)
  }

  function OneNamed(config: Config, disk: Disk, query: string): Option<Site> {
    var name := Lower(query);
    if name == [] || Dotted(name) then None
    else if name in config.links then Some(LinkSite(config, disk, name, config.links[name]))
    else match FirstStat(disk, config.parked, name)
         case None => None
         case Some(path) => Some(ParkedSite(config, disk, name, path))
  }

  /** Link keys are lower-case, non-empty and not dotted. */
  ghost predicate TidyLinks(links: map<string, Link>) {
    forall k | k in links :: Lower(k) == k && k != [] && !Dotted(k)
  }

  /** Folders under `root` are hidden or have lower-case names, and asking the
      disk for one by name finds only what reading the directory lists, up to
      case. */
  ghost predicate TidyRoot(disk: Disk, root: string) {
    && (forall m | m in EntriesOf(disk, root) && JoinPath(root, m) in disk.dirs :: Dotted(m) || (Lower(m) == m && m != []))
    && (forall n | n != [] && !Dotted(n) && '/' !in n && JoinPath(root, n) in disk.dirs :: Lists(disk, root, Lower(n)))
  }

  ghost predicate Lists(disk: Disk, root: string, name: string) {
    exists m | m in EntriesOf(disk, root) :: JoinPath(root, m) in disk.dirs && Lower(m) == name
  }

  ghost predicate Tidy(config: Config, disk: Disk) {
    TidyLinks(config.links) && forall i | 0 <= i < |config.parked| :: TidyRoot(disk, config.parked[i])
  }

  lemma StaysDotted(name: string)
    ensures Dotted(Lower(name)) <==> Dotted(name)
  {
  }

  lemma {:induction false} FolderInIsStat(disk: Disk, root: string, names: seq<string>, name: string)
    requires forall m | m in names && JoinPath(root, m) in disk.dirs :: Dotted(m) || Lower(m) == m
    requires !Dotted(name)
    ensures FolderIn(disk, root, names, name) ==
      if name in names && JoinPath(root, name) in disk.dirs && Lower(name) == name then Some(JoinPath(root, name)) else None
    decreases |names|
  {
    hide JoinPath, Lower, Dotted;
    if names != [] {
      StaysDotted(names[0]);
      assert names == [names[0]] + names[1..];
      FolderInIsStat(disk, root, names[1..], name);
    }
  }

  lemma TidyRootStats(disk: Disk, root: string, name: string)
    requires TidyRoot(disk, root) && Lower(name) == name && name != [] && !Dotted(name) && '/' !in name
    ensures FolderIn(disk, root, EntriesOf(disk, root), name) ==
      if JoinPath(root, name) in disk.dirs then Some(JoinPath(root, name)) else None
  {
    hide JoinPath, Lower, EntriesOf;
    FolderInIsStat(disk, root, EntriesOf(disk, root), name);
    if JoinPath(root, name) in disk.dirs {
      var m :| m in EntriesOf(disk, root) && JoinPath(root, m) in disk.dirs && Lower(m) == name;
      StaysDotted(m);
    }
  }

  lemma {:induction false} FolderForIsStat(disk: Disk, parked: seq<string>, name: string)
    requires forall i | 0 <= i < |parked| :: TidyRoot(disk, parked[i])
    requires Lower(name) == name && name != [] && !Dotted(name) && '/' !in name
    ensures FolderFor(disk, parked, name) == FirstStat(disk, parked, name)
    decreases |parked|
  {
    hide JoinPath, Lower, TidyRoot, FolderIn, EntriesOf;
    if parked != [] {
      TidyRootStats(disk, parked[0], name);
      FolderForIsStat(disk, parked[1..], name);
    }
  }

  lemma {:induction false} NoNamelessFolder(disk: Disk, parked: seq<string>)
    requires forall i | 0 <= i < |parked| :: TidyRoot(disk, parked[i])
    ensures FolderFor(disk, parked, []) == None
    decreases |parked|
  {
    hide JoinPath, Lower, FolderIn, EntriesOf;
    if parked != [] {
      FolderInIsStat(disk, parked[0], EntriesOf(disk, parked[0]), []);
      NoNamelessFolder(disk, parked[1..]);
    }
  }

  lemma ClaimedIsLower(links: map<string, Link>, name: string)
    requires HasKey(links, name)
    ensures Lower(name) == name
  {
    var k :| k in links && Lower(k) == name;
    LowerTwice(k);
  }

  lemma LowerKeepsSlashes(query: string)
    ensures '/' in Lower(query) <==> '/' in query
  {
    forall i | 0 <= i < |query|
      ensures Lower(query)[i] == '/' <==> query[i] == '/'
    {
    }
  }

  lemma SameQuestion(config: Config, disk: Disk, query: string)
    ensures OneNamed(config, disk, query) == OneNamed(config, disk, Lower(query))
  {
    LowerTwice(query);
  }

  /** The links alone decide: what a name claimed by links must look like for
      the shortcut to give the first claimant. */
  ghost predicate LinkIsReached(config: Config, disk: Disk, name: string) {
    && name != [] && !Dotted(name) && name in config.links
    && forall k | FirstKey(config.links, name, k) ::
         LinkSite(config, disk, name, config.links[k]) == LinkSite(config, disk, name, config.links[name])
  }

  lemma LinkReachedIff(config: Config, disk: Disk, name: string)
    requires HasKey(config.links, name)
    ensures OneNamed(config, disk, name) == SiteNamed(config, disk, name) <==> LinkIsReached(config, disk, name)
  {
    hide JoinPath, Less, FirstStat, HasKey;
    ClaimedIsLower(config.links, name);
    FirstKeyExists(config.links, name);
    forall k | FirstKey(config.links, name, k)
      ensures SiteNamed(config, disk, name) == Some(LinkSite(config, disk, name, config.links[k]))
    {
      LinkRow(config, disk, name, k);
    }
  }

  lemma UnlinkedAgrees(config: Config, disk: Disk, name: string)
    requires !HasKey(config.links, name) && Lower(name) == name && '/' !in name
    requires forall i | 0 <= i < |config.parked| :: TidyRoot(disk, config.parked[i])
    ensures OneNamed(config, disk, name) == SiteNamed(config, disk, name)
  {
    hide JoinPath, TidyRoot, FolderFor, FirstStat, LinkSite, ParkedSite, Less;
    assert name !in config.links;
    if name == [] {
      NoNamelessFolder(disk, config.parked);
    } else if !Dotted(name) {
      FolderForIsStat(disk, config.parked, name);
    }
  }

  /** Exactly when, on tidy parked folders, the shortcut is right about every
      slash-free query: when each name that links claim is neither empty nor
      dotted, is itself a key, and that link expands to the same site as the first
      claimant. */
  lemma ShortcutAgreesIff(config: Config, disk: Disk)
    requires forall i | 0 <= i < |config.parked| :: TidyRoot(disk, config.parked[i])
    ensures (forall query | '/' !in query :: OneNamed(config, disk, query) == SiteNamed(config, disk, Lower(query)))
            <==> (forall name | '/' !in name && HasKey(config.links, name) :: LinkIsReached(config, disk, name))
  {
    hide OneNamed, SiteNamed, LinkIsReached, HasKey, Lower, TidyRoot;
    if forall query | '/' !in query :: OneNamed(config, disk, query) == SiteNamed(config, disk, Lower(query)) {
      forall name | '/' !in name && HasKey(config.links, name)
        ensures LinkIsReached(config, disk, name)
      {
        ClaimedIsLower(config.links, name);
        LinkReachedIff(config, disk, name);
      }
    }
    if forall name | '/' !in name && HasKey(config.links, name) :: LinkIsReached(config, disk, name) {
      forall query | '/' !in query
        ensures OneNamed(config, disk, query) == SiteNamed(config, disk, Lower(query))
      {
        var name := Lower(query);
        LowerTwice(query);
        LowerKeepsSlashes(query);
        SameQuestion(config, disk, query);
        if HasKey(config.links, name) {
          LinkReachedIff(config, disk, name);
        } else {
          UnlinkedAgrees(config, disk, name);
        }
      }
    }
  }

  // ---- without the condition on folders ----

  /** What any directory satisfies: its entries are plain names, and asking the
      disk for one by name finds only what reading it lists, up to case. */
  ghost predicate Honest(disk: Disk, root: string) {
    && (forall m | m in EntriesOf(disk, root) :: m != [] && '/' !in m)
    && (forall n | n != [] && '/' !in n && JoinPath(root, n) in disk.dirs :: Lists(disk, root, Lower(n)))
  }

  /** The name of the first folder listed under `name`, as it is spelled. */
  function EntryIn(disk: Disk, root: string, names: seq<string>, name: string): Option<string>
    decreases |names|
  {
    if names == [] then None
    else if JoinPath(root, names[0]) in disk.dirs && Lower(names[0]) == name then Some(names[0])
    else EntryIn(disk, root, names[1..], name)
  }

  function FirstListed(disk: Disk, parked: seq<string>, name: string): Option<string>
    decreases |parked|
  {
    if parked == [] then None
    else OrElse(EntryIn(disk, parked[0], EntriesOf(disk, parked[0]), name), FirstListed(disk, parked[1..], name))
  }

  /** The first folder listed under the name, if any, is spelled in lower case. */
  predicate FolderIsReached(disk: Disk, parked: seq<string>, name: string) {
    FirstListed(disk, parked, name).Some? ==> FirstListed(disk, parked, name) == Some(name)
  }

  lemma {:induction false} EntryGivesFolder(disk: Disk, root: string, names: seq<string>, name: string)
    ensures var entry := EntryIn(disk, root, names, name);
      && FolderIn(disk, root, names, name) == (if entry.Some? then Some(JoinPath(root, entry.value)) else None)
      && (entry.Some? ==> entry.value in names && JoinPath(root, entry.value) in disk.dirs && Lower(entry.value) == name)
      && (entry.None? ==> forall m | m in names && JoinPath(root, m) in disk.dirs :: Lower(m) != name)
    decreases |names|
  {
    hide JoinPath, Lower;
    if names != [] {
      assert names == [names[0]] + names[1..];
      EntryGivesFolder(disk, root, names[1..], name);
    }
  }

  predicate EndsWith(path: string, name: string) {
    |name| <= |path| && path[|path| - |name|..] == name
  }

  lemma JoinEndsWith(root: string, name: string)
    requires '/' !in name
    ensures EndsWith(JoinPath(root, name), name)
  {
  }

  lemma {:induction false} StatEndsWith(disk: Disk, parked: seq<string>, name: string)
    requires '/' !in name && FirstStat(disk, parked, name).Some?
    ensures EndsWith(FirstStat(disk, parked, name).value, name)
    decreases |parked|
  {
    hide EndsWith;
    JoinEndsWith(parked[0], name);
    if JoinPath(parked[0], name) !in disk.dirs { StatEndsWith(disk, parked[1..], name); }
  }

  lemma {:induction false} FolderReachedIff(disk: Disk, parked: seq<string>, name: string)
    requires forall i | 0 <= i < |parked| :: Honest(disk, parked[i])
    requires Lower(name) == name && name != [] && '/' !in name
    ensures FolderFor(disk, parked, name) == FirstStat(disk, parked, name) <==> FolderIsReached(disk, parked, name)
    decreases |parked|
  {
    hide JoinPath, Lower, FolderIn, EntryIn, EntriesOf, EndsWith;
    if parked != [] {
      var root := parked[0];
      assert Honest(disk, root);
      EntryGivesFolder(disk, root, EntriesOf(disk, root), name);
      var entry := EntryIn(disk, root, EntriesOf(disk, root), name);
      if entry.None? {
        FolderReachedIff(disk, parked[1..], name);
      } else if entry.value != name {
        OtherSpelling(disk, parked, root, entry.value, name);
      }
    }
  }

  lemma OtherSpelling(disk: Disk, parked: seq<string>, root: string, entry: string, name: string)
    requires entry != name && |entry| == |name| && '/' !in entry && '/' !in name
    ensures FirstStat(disk, parked, name) != Some(JoinPath(root, entry))
  {
    hide FirstStat;
    JoinEndsWith(root, entry);
    if FirstStat(disk, parked, name).Some? { StatEndsWith(disk, parked, name); }
  }

  ghost predicate Unclaimed(config: Config, name: string) {
    !HasKey(config.links, name) && Lower(name) == name && name != [] && !Dotted(name) && '/' !in name
  }

  lemma UnlinkedReachedIff(config: Config, disk: Disk, name: string)
    requires Unclaimed(config, name) && forall i | 0 <= i < |config.parked| :: Honest(disk, config.parked[i])
    ensures OneNamed(config, disk, name) == SiteNamed(config, disk, name) <==> FolderIsReached(disk, config.parked, name)
  {
    hide JoinPath, Honest, FolderFor, FirstStat, Less, FolderIsReached;
    assert name !in config.links;
    FolderReachedIff(disk, config.parked, name);
  }

  lemma {:induction false} NoEmptyName(disk: Disk, parked: seq<string>)
    requires forall i | 0 <= i < |parked| :: Honest(disk, parked[i])
    ensures FolderFor(disk, parked, []) == None
    decreases |parked|
  {
    hide JoinPath, FolderIn, EntriesOf;
    if parked != [] {
      assert Honest(disk, parked[0]);
      EntryGivesFolder(disk, parked[0], EntriesOf(disk, parked[0]), []);
      NoEmptyName(disk, parked[1..]);
    }
  }

  lemma NamelessAgrees(config: Config, disk: Disk, name: string)
    requires !HasKey(config.links, name) && Lower(name) == name && (name == [] || Dotted(name))
    requires forall i | 0 <= i < |config.parked| :: Honest(disk, config.parked[i])
    ensures OneNamed(config, disk, name) == SiteNamed(config, disk, name)
  {
    hide Honest, FolderFor;
    if name == [] { NoEmptyName(disk, config.parked); }
  }

  /** Exactly when the shortcut is right about every slash-free query, whatever is
      linked and parked: when links reach it as above, and the first folder listed
      under each name that no link claims is spelled in lower case. */
  lemma LookupAgreesIff(config: Config, disk: Disk)
    requires forall i | 0 <= i < |config.parked| :: Honest(disk, config.parked[i])
    ensures (forall query | '/' !in query :: OneNamed(config, disk, query) == SiteNamed(config, disk, Lower(query)))
            <==> && (forall name | '/' !in name && HasKey(config.links, name) :: LinkIsReached(config, disk, name))
                 && (forall name | Unclaimed(config, name) :: FolderIsReached(disk, config.parked, name))
  {
    hide OneNamed, SiteNamed, LinkIsReached, HasKey, Lower, Honest, FolderIsReached;
    if forall query | '/' !in query :: OneNamed(config, disk, query) == SiteNamed(config, disk, Lower(query)) {
      forall name | '/' !in name && HasKey(config.links, name)
        ensures LinkIsReached(config, disk, name)
      {
        ClaimedIsLower(config.links, name);
        LinkReachedIff(config, disk, name);
      }
      forall name | Unclaimed(config, name)
        ensures FolderIsReached(disk, config.parked, name)
      {
        UnlinkedReachedIff(config, disk, name);
      }
    }
    if && (forall name | '/' !in name && HasKey(config.links, name) :: LinkIsReached(config, disk, name))
       && (forall name | Unclaimed(config, name) :: FolderIsReached(disk, config.parked, name)) {
      forall query | '/' !in query
        ensures OneNamed(config, disk, query) == SiteNamed(config, disk, Lower(query))
      {
        var name := Lower(query);
        LowerTwice(query);
        LowerKeepsSlashes(query);
        SameQuestion(config, disk, query);
        if HasKey(config.links, name) {
          LinkReachedIff(config, disk, name);
        } else if Unclaimed(config, name) {
          UnlinkedReachedIff(config, disk, name);
        } else {
          NamelessAgrees(config, disk, name);
        }
      }
    }
  }

  /** On a tidy configuration the shortcut gives, for every slash-free query,
      exactly the site the full expansion has under that name, or none. */
  lemma ShortcutAgrees(config: Config, disk: Disk, query: string)
    requires Tidy(config, disk) && '/' !in query
    ensures OneNamed(config, disk, query) == SiteNamed(config, disk, Lower(query))
  {
    hide SiteNamed, OneNamed, LinkSite, Lower, TidyRoot, Less;
    forall name | HasKey(config.links, name)
      ensures LinkIsReached(config, disk, name)
    {
      var k :| k in config.links && Lower(k) == name;
    }
    ShortcutAgreesIff(config, disk);
  }

  /** The shortcut finds the very row the full expansion lists. */
  lemma ShortcutFindsTheRow(config: Config, disk: Disk, sites: seq<Site>, query: string, s: Site)
    requires Tidy(config, disk) && '/' !in query
    requires forall r: Site :: r in sites <==> SiteNamed(config, disk, r.name) == Some(r)
    ensures OneNamed(config, disk, query) == Some(s) <==> s in sites && s.name == Lower(query)
  {
    hide Tidy, SiteNamed, LinkSite, ParkedSite, FirstStat, Lower;
    ShortcutAgrees(config, disk, query);
  }

  method ResolveOne(config: Config, disk: Disk, query: string) returns (site: Option<Site>)
    ensures site == OneNamed(config, disk, query)
    ensures Tidy(config, disk) && '/' !in query ==> site == SiteNamed(config, disk, Lower(query))
  {
    hide Tidy, SiteNamed, LinkSite, ParkedSite, Lower, JoinPath, Less;
    if Tidy(config, disk) && '/' !in query { ShortcutAgrees(config, disk, query); }
    var name := Lower(query);
    if name == [] || Dotted(name) { return None; }
    if name in config.links { return Some(LinkSite(config, disk, name, config.links[name])); }
    for i := 0 to |config.parked|
      invariant FirstStat(disk, config.parked, name) == FirstStat(disk, config.parked[i..], name)
    {
      assert config.parked[i..][1..] == config.parked[i + 1..];
      var path := JoinPath(config.parked[i], name);
      if path in disk.dirs { return Some(ParkedSite(config, disk, name, path)); }
    }
    return None;
  }

  // ---- why the conditions are needed ----

  /** A link whose key has capitals is listed under its lower-case name, where
      the shortcut cannot find it. */
  lemma CapitalisedLinkIsMissed(config: Config, disk: Disk, k: string)
    requires k in config.links && Lower(k) !in config.links
    ensures SiteNamed(config, disk, Lower(k)).Some?
    ensures OneNamed(config, disk, Lower(k)) != SiteNamed(config, disk, Lower(k))
  {
    hide JoinPath, Less;
    LowerIsLower(k);
    LowerIsKept(Lower(k));
    assert HasKey(config.links, Lower(k));
  }

  /** A link with an empty or dotted key is listed and never found. */
  lemma HiddenLinkIsMissed(config: Config, disk: Disk, k: string)
    requires k in config.links && (k == [] || Dotted(k))
    ensures SiteNamed(config, disk, Lower(k)).Some? && OneNamed(config, disk, Lower(k)) == None
  {
    hide JoinPath, Less;
    assert HasKey(config.links, Lower(k));
  }

  /** A folder whose name begins with a dot is no site, listed or found. */
  lemma HiddenFolderIsNoSite(config: Config, disk: Disk, name: string)
    requires name != "" && name[0] == '.' && !HasKey(config.links, Lower(name))
    ensures SiteNamed(config, disk, Lower(name)) == None && OneNamed(config, disk, name) == None
  {
    hide JoinPath, Less, FolderFor, FirstStat;
    StaysDotted(name);
    LowerTwice(name);
    assert Lower(name) !in config.links;
  }

  /** On a disk that tells capitals apart, a parked folder with capitals is
      listed under its lower-case name, where the shortcut cannot find it. */
  lemma CapitalisedFolderIsMissed(config: Config, disk: Disk, name: string)
    requires Lower(name) == name && !HasKey(config.links, name) && !Dotted(name)
    requires FolderFor(disk, config.parked, name).Some?
    requires forall i | 0 <= i < |config.parked| :: JoinPath(config.parked[i], name) !in disk.dirs
    ensures SiteNamed(config, disk, name).Some? && OneNamed(config, disk, name) == None
  {
    hide JoinPath, FolderFor;
    NoStat(disk, config.parked, name);
  }

  lemma {:induction false} NoStat(disk: Disk, parked: seq<string>, name: string)
    requires forall i | 0 <= i < |parked| :: JoinPath(parked[i], name) !in disk.dirs
    ensures FirstStat(disk, parked, name) == None
    decreases |parked|
  {
    if parked != [] { NoStat(disk, parked[1..], name); }
  }

  // ---- the table of sites ----

  function FolderNames(disk: Disk, parked: seq<string>): set<string>
    decreases |parked|
  {
    if parked == [] then {} else (set m | m in EntriesOf(disk, parked[0]) :: Lower(m)) + FolderNames(disk, parked[1..])
  }

  /** All sites of a configuration, by name. */
  ghost function SitesOf(config: Config, disk: Disk): map<string, Site> {
    map n | n in (set k | k in config.links :: Lower(k)) + FolderNames(disk, config.parked)
            && SiteNamed(config, disk, n).Some? :: SiteNamed(config, disk, n).value
  }

  lemma {:induction false} FolderInHasItsName(disk: Disk, root: string, names: seq<string>, name: string)
    requires FolderIn(disk, root, names, name).Some?
    ensures exists m | m in names :: Lower(m) == name
    decreases |names|
  {
    hide JoinPath, Lower;
    assert names == [names[0]] + names[1..];
    if !(JoinPath(root, names[0]) in disk.dirs && Lower(names[0]) == name) {
      FolderInHasItsName(disk, root, names[1..], name);
    }
  }

  lemma {:induction false} FolderForHasItsName(disk: Disk, parked: seq<string>, name: string)
    requires FolderFor(disk, parked, name).Some?
    ensures name in FolderNames(disk, parked)
    decreases |parked|
  {
    hide JoinPath, Lower, FolderIn, EntriesOf;
    if FolderIn(disk, parked[0], EntriesOf(disk, parked[0]), name).Some? {
      FolderInHasItsName(disk, parked[0], EntriesOf(disk, parked[0]), name);
    } else {
      FolderForHasItsName(disk, parked[1..], name);
    }
  }

  /** The table holds every site and nothing else, each under its own name. */
  lemma TableHoldsEverySite(config: Config, disk: Disk, n: string)
    ensures (if n in SitesOf(config, disk) then Some(SitesOf(config, disk)[n]) else None) == SiteNamed(config, disk, n)
    ensures n in SitesOf(config, disk) ==> SitesOf(config, disk)[n].name == n
  {
    hide FolderFor, FolderNames, LinkSite, ParkedSite, Less;
    if SiteNamed(config, disk, n).Some? && !HasKey(config.links, n) {
      FolderForHasItsName(disk, config.parked, n);
    }
  }

  /** Changing, adding or removing the link `name` leaves every other site alone. */
  lemma OtherSitesStay(config: Config, config': Config, disk: Disk, name: string, n: string)
    requires config' == config.(links := config'.links) && TidyLinks(config.links) && TidyLinks(config'.links)
    requires forall k | k != name :: (k in config.links <==> k in config'.links)
    requires forall k | k != name && k in config.links :: config.links[k] == config'.links[k]
    requires n != name
    ensures SiteNamed(config', disk, n) == SiteNamed(config, disk, n)
  {
    hide FolderFor, DocrootFor, ModeOf, JoinPath, Less, Lower;
    if n in config.links {
      LinkRow(config, disk, n, n);
      LinkRow(config', disk, n, n);
      assert LinkSite(config, disk, n, config.links[n]) == LinkSite(config', disk, n, config'.links[n]) by {
        assert forall raw :: ModeOf(config, raw) == ModeOf(config', raw) by { SameModes(config, config'); }
      }
    } else {
      NotLinked(config, disk, n);
      NotLinked(config', disk, n);
      SameModes(config, config');
    }
  }

  lemma SameModes(config: Config, config': Config)
    requires config.defaultXdebug == config'.defaultXdebug
    ensures forall raw :: ModeOf(config, raw) == ModeOf(config', raw)
  {
    hide Xdebug.Parsed;
  }

  lemma NotLinked(config: Config, disk: Disk, n: string)
    requires TidyLinks(config.links) && n !in config.links
    ensures !HasKey(config.links, n)
  {
    hide Lower;
  }

  /** A link with another branch database. */
  function WithBranchDb(link: Link, database: Option<string>, branch: Option<string>, port: Option<nat>): Link {
    link.(database := database, dbBranch := branch, dbPort := port)
  }

  /** Recording a branch database changes no site, which is why it needs no
      reconcile. */
  lemma BranchDbChangesNoSite(config: Config, disk: Disk, name: string, database: Option<string>,
                              branch: Option<string>, port: Option<nat>)
    requires name in config.links
    ensures var config' := config.(links := config.links[name := WithBranchDb(config.links[name], database, branch, port)]);
      SitesOf(config', disk) == SitesOf(config, disk)
  {
    hide SitesOf, SiteNamed;
    var config' := config.(links := config.links[name := WithBranchDb(config.links[name], database, branch, port)]);
    forall n
      ensures SiteNamed(config', disk, n) == SiteNamed(config, disk, n)
    {
      BranchDbLeavesSite(config, disk, name, database, branch, port, n);
    }
    forall n
      ensures (if n in SitesOf(config, disk) then Some(SitesOf(config, disk)[n]) else None) == SiteNamed(config, disk, n)
      ensures (if n in SitesOf(config', disk) then Some(SitesOf(config', disk)[n]) else None) == SiteNamed(config', disk, n)
    {
      TableHoldsEverySite(config, disk, n);
      TableHoldsEverySite(config', disk, n);
    }
    forall n
      ensures n in SitesOf(config', disk) <==> n in SitesOf(config, disk)
      ensures n in SitesOf(config, disk) ==> SitesOf(config', disk)[n] == SitesOf(config, disk)[n]
    {
      assert SiteNamed(config', disk, n) == SiteNamed(config, disk, n);
    }
  }

  lemma BranchDbLeavesSite(config: Config, disk: Disk, name: string, database: Option<string>, branch: Option<string>,
                           port: Option<nat>, n: string)
    requires name in config.links
    ensures var config' := config.(links := config.links[name := WithBranchDb(config.links[name], database, branch, port)]);
      SiteNamed(config', disk, n) == SiteNamed(config, disk, n)
  {
    hide FolderFor, DocrootFor, ModeOf, JoinPath, Less, Lower;
    var config' := config.(links := config.links[name := WithBranchDb(config.links[name], database, branch, port)]);
    SameModes(config, config');
    if HasKey(config.links, n) {
      FirstKeyExists(config.links, n);
      var k :| FirstKey(config.links, n, k);
      LinkRow(config, disk, n, k);
      assert FirstKey(config'.links, n, k);
      LinkRow(config', disk, n, k);
    } else {
      assert !HasKey(config'.links, n);
    }
  }
}
