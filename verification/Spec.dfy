/** `dpl.toml`: applying a project's spec to the configuration and capturing a
    link back into a spec. */
module Spec {
  import opened Wrappers
  import opened Text
  import opened Sites
  import Xdebug

  const POSTGRES_PORT: nat := 5432

  datatype SiteSpec = SiteSpec(
    name: Option<string>, php: Option<string>, secure: bool, runtime: Option<string>, watch: Option<bool>,
    xdebug: Option<string>, profile: bool, preload: Option<string>, database: Option<string>, dbPort: Option<nat>,
    services: seq<string>, dev: Option<string>)

  /** What applying a spec asks of the machine: which files exist, a project's
      package.json scripts, its checked-out branch, and which PHP versions are
      installed. */
  datatype Machine = Machine(isFile: string -> bool, scripts: string -> seq<string>, head: string -> Option<string>,
                             hasPhp: string -> bool)

  const RUNTIMES: seq<string> := ["octane-swoole", "octane-roadrunner", "octane-frankenphp"]

  datatype Warning = BadXdebug | UnknownRuntime | NoPreload | NoPackageJson | NoScript | NoSuchPhp

  // ---- the settings that degrade rather than fail ----

  function XdebugOf(spec: SiteSpec): (Option<string>, seq<Warning>) {
    match spec.xdebug
    case None => (None, [])
    case Some(text) =>
      var parsed := Xdebug.Parsed(text);
      if parsed.Err? then (None, [BadXdebug])
      else if parsed.value.text == "off" then (None, [])
      else (Some(parsed.value.text), [])
  }

  function RuntimeOf(spec: SiteSpec): (Option<string>, seq<Warning>) {
    match spec.runtime
    case None => (None, [])
    case Some(r) =>
      if r == "fpm" || r == "" then (None, []) else if r in RUNTIMES then (Some(r), []) else (None, [UnknownRuntime])
  }

  function PreloadOf(m: Machine, path: string, spec: SiteSpec): (Option<string>, seq<Warning>) {
    match spec.preload
    case None => (None, [])
    case Some(rel) => if m.isFile(JoinPath(path, rel)) then (Some(rel), []) else (None, [NoPreload])
  }

  function DevOf(m: Machine, path: string, spec: SiteSpec): (Option<string>, seq<Warning>) {
    match spec.dev
    case None => (None, [])
    case Some(script) =>
      if script in m.scripts(path) then (Some(script), [])
      else if !m.isFile(JoinPath(path, "package.json")) then (None, [NoPackageJson])
      else (None, [NoScript])
  }

  /** Which branch's data the link is recorded to hold: what was recorded, if the
      link already had this database and a branch; otherwise what is checked out. */
  function BranchOf(m: Machine, links: map<string, Link>, name: string, path: string, spec: SiteSpec): Option<string> {
    if spec.database.None? then None
    else if name in links && links[name].database == spec.database && links[name].dbBranch.Some?
    then links[name].dbBranch
    else m.head(path)
  }

  function LinkOf(m: Machine, links: map<string, Link>, name: string, path: string, spec: SiteSpec): Link {
    Sites.Link(path, spec.php, spec.secure, RuntimeOf(spec).0, spec.watch, DevOf(m, path, spec).0, None, XdebugOf(spec).0,
      spec.profile, PreloadOf(m, path, spec).0, spec.database, BranchOf(m, links, name, path, spec),
      if spec.dbPort == Some(POSTGRES_PORT) then None else spec.dbPort)
  }

  function NameOf(path: string, spec: SiteSpec): Option<string> {
    if spec.name.Some? then Some(Lower(spec.name.value)) else NameFor(path)
  }

  /** Applying: exactly one link is set, whatever it was before. */
  function Applied(m: Machine, links: map<string, Link>, path: string, spec: SiteSpec): Option<map<string, Link>> {
    match NameOf(path, spec)
    case None => None
    case Some(name) => Some(links[name := LinkOf(m, links, name, path, spec)])
  }

  function Warnings(m: Machine, path: string, spec: SiteSpec): seq<Warning> {
    XdebugOf(spec).1 + RuntimeOf(spec).1 + PreloadOf(m, path, spec).1 + DevOf(m, path, spec).1
    + if spec.php.Some? && !m.hasPhp(spec.php.value) then [NoSuchPhp] else []
  }

  // ---- capturing ----

  function SpecOf(name: string, link: Link): SiteSpec {
    SiteSpec(if NameFor(link.path) == Some(name) then None else Some(name), link.php, link.secure, link.runtime,
      link.watch, link.xdebug, link.profile, link.preload, link.database, link.dbPort, [], link.dev)
  }

  /** The first link, in key order, at `path`. */
  ghost predicate FirstAt(links: map<string, Link>, path: string, name: string) {
    && name in links && links[name].path == path
    && forall k | k in links && links[k].path == path :: k == name || Less(name, k)
  }

  method Export(links: map<string, Link>, path: string) returns (spec: Option<SiteSpec>)
    ensures spec.None? <==> forall k | k in links :: links[k].path != path
    ensures spec.Some? ==> exists name :: FirstAt(links, path, name) && spec.value == SpecOf(name, links[name])
  {
    hide Less, SpecOf;
    var keys := links.Keys;
    while keys != {}
      invariant keys <= links.Keys && forall k | k in links && k !in keys :: links[k].path != path
      decreases keys
    {
      ghost var least := LeastIsThere(keys);
      var k :| k in keys && forall j | j in keys :: j == k || Less(k, j);
      keys := keys - {k};
      if links[k].path == path {
        assert FirstAt(links, path, k);
        return Some(SpecOf(k, links[k]));
      }
    }
    return None;
  }

  // ---- the laws ----

  /** Applying a spec again changes nothing, even if another branch has been
      checked out since, unless the database was attached with no branch to
      record. */
  lemma ApplyingIsIdempotent(m: Machine, m': Machine, links: map<string, Link>, path: string, spec: SiteSpec)
    requires Applied(m, links, path, spec).Some?
    requires m'.isFile == m.isFile && m'.scripts == m.scripts
    ensures var once := Applied(m, links, path, spec).value; var name := NameOf(path, spec).value;
      Applied(m', once, path, spec) == Some(once) <==>
      spec.database.Some? && once[name].dbBranch.None? ==> m'.head(path).None?
  {
    hide Lower, Xdebug.Parsed, JoinPath;
    var once, name := Applied(m, links, path, spec).value, NameOf(path, spec).value;
    var twice := Applied(m', once, path, spec).value;
    assert once[name].database == spec.database;
    assert twice == once <==> twice[name] == once[name];
  }

  lemma OthersAreLeftAlone(m: Machine, links: map<string, Link>, path: string, spec: SiteSpec, k: string)
    requires Applied(m, links, path, spec).Some? && NameOf(path, spec) != Some(k)
    ensures var after := Applied(m, links, path, spec).value;
      (k in after <==> k in links) && (k in links ==> after[k] == links[k])
  {
  }

  /** What a link must be for a spec to capture all of it. */
  ghost predicate Capturable(m: Machine, link: Link) {
    && link.share.None?
    && link.dbPort != Some(POSTGRES_PORT)
    && (link.xdebug.Some? ==> link.xdebug.value != "off" && Xdebug.Parsed(link.xdebug.value) == Ok(Xdebug.Mode(link.xdebug.value)))
    && (link.runtime.Some? ==> link.runtime.value in RUNTIMES)
    && (link.preload.Some? ==> m.isFile(JoinPath(link.path, link.preload.value)))
    && (link.dev.Some? ==> link.dev.value in m.scripts(link.path))
    && (link.dbBranch.Some? ==> link.database.Some?)
    && (link.database.Some? && link.dbBranch.None? ==> m.head(link.path).None?)
  }

  ghost predicate OnlyAt(links: map<string, Link>, name: string) {
    name in links && forall k | k in links && links[k].path == links[name].path :: k == name
  }

  /** With one link per path, capturing a link and applying the capture gives the
      very same configuration exactly when the link holds nothing a spec cannot
      carry and its key is lower-case. */
  lemma CaptureRestoresIff(m: Machine, links: map<string, Link>, name: string)
    requires OnlyAt(links, name)
    ensures Applied(m, links, links[name].path, SpecOf(name, links[name])) == Some(links) <==>
      Lower(name) == name && Capturable(m, links[name])
  {
    hide Xdebug.Parsed, JoinPath, Lower, NameFor;
    var link := links[name];
    var spec := SpecOf(name, link);
    NameForIsLower(link.path);
    var key := NameOf(link.path, spec).value;
    var after := Applied(m, links, link.path, spec).value;
    assert after[key].path == link.path;
    if key == name {
      assert after == links <==> after[name] == link;
      FieldByField(m, links, name);
    }
  }

  lemma FieldByField(m: Machine, links: map<string, Link>, name: string)
    requires name in links
    ensures LinkOf(m, links, name, links[name].path, SpecOf(name, links[name])) == links[name] <==>
      Capturable(m, links[name])
  {
    hide Xdebug.Parsed, JoinPath, Lower, NameFor;
  }

  /** What applying leaves behind can be captured in full. */
  lemma AppliedIsCapturable(m: Machine, links: map<string, Link>, path: string, spec: SiteSpec)
    requires Applied(m, links, path, spec).Some?
    ensures var name := NameOf(path, spec).value;
      Lower(name) == name && Capturable(m, Applied(m, links, path, spec).value[name])
  {
    hide Xdebug.Parsed, JoinPath, Lower, NameFor;
    NameForIsLower(path);
    if spec.name.Some? { LowerTwice(spec.name.value); }
    if spec.xdebug.Some? && Xdebug.Parsed(spec.xdebug.value).Ok? { Xdebug.ReparsingIsIdentity(spec.xdebug.value); }
  }

  /** Apply, capture, apply: for a fixed disk and checked-out branch, and one
      link per path, the capture of what was applied restores exactly it, live
      branch included. */
  lemma CaptureRestoresWhatWasApplied(m: Machine, links: map<string, Link>, path: string, spec: SiteSpec)
    requires Applied(m, links, path, spec).Some?
    requires OnlyAt(Applied(m, links, path, spec).value, NameOf(path, spec).value)
    ensures var once := Applied(m, links, path, spec).value; var name := NameOf(path, spec).value;
      && once[name].path == path && FirstAt(once, path, name)
      && Applied(m, once, path, SpecOf(name, once[name])) == Some(once)
  {
    hide Capturable, SpecOf, Less, Lower;
    AppliedIsCapturable(m, links, path, spec);
    CaptureRestoresIff(m, Applied(m, links, path, spec).value, NameOf(path, spec).value);
  }

  /** A spec that turns Xdebug off for its site leaves the site on the
      configuration's default mode. */
  lemma OffMeansTheDefault(config: Config, m: Machine, path: string, spec: SiteSpec, text: string)
    requires spec.xdebug == Some(text) && Xdebug.Parsed(text) == Ok(Xdebug.Mode("off"))
    requires Applied(m, config.links, path, spec).Some?
    ensures var link := Applied(m, config.links, path, spec).value[NameOf(path, spec).value];
      ModeOf(config, link.xdebug) == ModeOf(config, None)
  {
    hide Xdebug.Parsed, Lower, JoinPath;
  }

  lemma NameForIsLower(path: string)
    ensures NameFor(path).Some? ==> Lower(NameFor(path).value) == NameFor(path).value
  {
    hide Split;
    var pieces := Split(path, '/');
    LowerTwice(pieces[|pieces| - 1]);
  }

  // ---- what is degraded, and what is said about it ----

  function OneIf(b: bool, w: Warning): seq<Warning> {
    if b then [w] else []
  }

  ghost predicate Once(ws: seq<Warning>) {
    forall i, j | 0 <= i < j < |ws| :: ws[i] != ws[j]
  }

  lemma AddOne(ws: seq<Warning>, b: bool, w: Warning)
    requires Once(ws) && w !in ws
    ensures Once(ws + OneIf(b, w)) && forall x :: x in ws + OneIf(b, w) <==> x in ws || (b && x == w)
  {
  }

  /** `fpm`, nothing, or one of the three Octane runtimes. */
  predicate KnownRuntime(r: string) {
    r == "" || r == "fpm" || r == "octane-swoole" || r == "octane-roadrunner" || r == "octane-frankenphp"
  }

  lemma XdebugWarns(spec: SiteSpec)
    ensures XdebugOf(spec).1 == OneIf(spec.xdebug.Some? && Xdebug.Parsed(spec.xdebug.value).Err?, BadXdebug)
  {
    hide Xdebug.Parsed;
  }

  lemma RuntimeWarns(spec: SiteSpec)
    ensures RuntimeOf(spec).1 == OneIf(spec.runtime.Some? && !KnownRuntime(spec.runtime.value), UnknownRuntime)
  {
  }

  lemma PreloadWarns(m: Machine, path: string, spec: SiteSpec)
    ensures PreloadOf(m, path, spec).1 == OneIf(spec.preload.Some? && !m.isFile(JoinPath(path, spec.preload.value)), NoPreload)
  {
    hide JoinPath;
  }

  lemma DevWarns(m: Machine, path: string, spec: SiteSpec)
    ensures DevOf(m, path, spec).1 == (var gone := spec.dev.Some? && spec.dev.value !in m.scripts(path);
      var listed := m.isFile(JoinPath(path, "package.json"));
      OneIf(gone && !listed, NoPackageJson) + OneIf(gone && listed, NoScript))
  {
    hide JoinPath;
    assert OneIf(false, NoPackageJson) + OneIf(false, NoScript) == [];
  }

  lemma SixReasons(xdebug: bool, runtime: bool, preload: bool, gone: bool, listed: bool, php: bool)
    ensures var ws := OneIf(xdebug, BadXdebug) + OneIf(runtime, UnknownRuntime) + OneIf(preload, NoPreload)
      + (OneIf(gone && !listed, NoPackageJson) + OneIf(gone && listed, NoScript)) + OneIf(php, NoSuchPhp);
      && Once(ws)
      && (BadXdebug in ws <==> xdebug) && (UnknownRuntime in ws <==> runtime) && (NoPreload in ws <==> preload)
      && (NoPackageJson in ws <==> gone && !listed) && (NoScript in ws <==> gone && listed) && (NoSuchPhp in ws <==> php)
  {
    hide Once, OneIf;
    NothingSaid();
    AddOne([], xdebug, BadXdebug);
    var w1 := OneIf(xdebug, BadXdebug);
    assert [] + w1 == w1;
    AddOne(w1, runtime, UnknownRuntime);
    var w2 := w1 + OneIf(runtime, UnknownRuntime);
    AddOne(w2, preload, NoPreload);
    var w3 := w2 + OneIf(preload, NoPreload);
    var a, b := OneIf(gone && !listed, NoPackageJson), OneIf(gone && listed, NoScript);
    AddOne(w3, gone && !listed, NoPackageJson);
    AddOne(w3 + a, gone && listed, NoScript);
    assert w3 + a + b == w3 + (a + b);
    AddOne(w3 + (a + b), php, NoSuchPhp);
  }

  lemma NothingSaid()
    ensures Once([])
  {
  }

  /** Each warning is given exactly for its reason, and once. */
  lemma WarningsHaveReasons(m: Machine, path: string, spec: SiteSpec)
    ensures var ws := Warnings(m, path, spec);
      && (BadXdebug in ws <==> spec.xdebug.Some? && Xdebug.Parsed(spec.xdebug.value).Err?)
      && (UnknownRuntime in ws <==> spec.runtime.Some? && !KnownRuntime(spec.runtime.value))
      && (NoPreload in ws <==> spec.preload.Some? && !m.isFile(JoinPath(path, spec.preload.value)))
      && (NoPackageJson in ws <==>
            spec.dev.Some? && spec.dev.value !in m.scripts(path) && !m.isFile(JoinPath(path, "package.json")))
      && (NoScript in ws <==>
            spec.dev.Some? && spec.dev.value !in m.scripts(path) && m.isFile(JoinPath(path, "package.json")))
      && (NoSuchPhp in ws <==> spec.php.Some? && !m.hasPhp(spec.php.value))
      && Once(ws)
  {
    hide Xdebug.Parsed, JoinPath, XdebugOf, RuntimeOf, PreloadOf, DevOf, OneIf, Once, KnownRuntime;
    XdebugWarns(spec);
    RuntimeWarns(spec);
    PreloadWarns(m, path, spec);
    DevWarns(m, path, spec);
    var php := spec.php.Some? && !m.hasPhp(spec.php.value);
    PhpWarns(php);
    SixReasons(spec.xdebug.Some? && Xdebug.Parsed(spec.xdebug.value).Err?,
      spec.runtime.Some? && !KnownRuntime(spec.runtime.value),
      spec.preload.Some? && !m.isFile(JoinPath(path, spec.preload.value)),
      spec.dev.Some? && spec.dev.value !in m.scripts(path), m.isFile(JoinPath(path, "package.json")), php);
  }

  lemma PhpWarns(b: bool)
    ensures OneIf(b, NoSuchPhp) == if b then [NoSuchPhp] else []
  {
  }

  /** The settings that degrade: kept unless warned about, or at their default. */
  lemma DegradedSettings(m: Machine, path: string, spec: SiteSpec)
    ensures RuntimeOf(spec).0 == if spec.runtime.Some? && KnownRuntime(spec.runtime.value) && spec.runtime.value != ""
                                    && spec.runtime.value != "fpm" then spec.runtime else None
    ensures PreloadOf(m, path, spec).0 ==
      if spec.preload.Some? && m.isFile(JoinPath(path, spec.preload.value)) then spec.preload else None
    ensures DevOf(m, path, spec).0 == if spec.dev.Some? && spec.dev.value in m.scripts(path) then spec.dev else None
  {
    hide JoinPath;
  }

  lemma XdebugKept(spec: SiteSpec)
    ensures XdebugOf(spec).0.Some? ==>
      spec.xdebug.Some? && Xdebug.Parsed(spec.xdebug.value) == Ok(Xdebug.Mode(XdebugOf(spec).0.value))
    ensures XdebugOf(spec).0.None? <==> spec.xdebug.None? || Xdebug.Parsed(spec.xdebug.value).Err?
                                        || Xdebug.Parsed(spec.xdebug.value) == Ok(Xdebug.Mode("off"))
  {
    hide Xdebug.Parsed;
  }

  /** The live branch a spec records: none without a database; the one recorded, where
      the same database was attached already; or else the one checked out. */
  lemma LiveBranchIsKept(m: Machine, links: map<string, Link>, path: string, spec: SiteSpec)
    requires Applied(m, links, path, spec).Some?
    ensures var name := NameOf(path, spec).value; var branch := Applied(m, links, path, spec).value[name].dbBranch;
      var recorded := if name in links && links[name].database == spec.database then links[name].dbBranch else None;
      && (spec.database.None? ==> branch.None?)
      && (spec.database.Some? && recorded.Some? ==> branch == recorded)
      && (spec.database.Some? && recorded.None? ==> branch == m.head(path))
  {
    hide Lower, NameFor, RuntimeOf, PreloadOf, DevOf, XdebugOf;
  }

  /** The link a spec makes, setting by setting: what would not work is left out, the
      default port is not written down, and nothing is shared. */
  lemma AppliedSettingBySetting(m: Machine, links: map<string, Link>, path: string, spec: SiteSpec)
    requires Applied(m, links, path, spec).Some?
    ensures var link := Applied(m, links, path, spec).value[NameOf(path, spec).value];
      && link.path == path && link.php == spec.php && link.secure == spec.secure && link.watch == spec.watch
      && link.profile == spec.profile && link.share.None? && link.database == spec.database
      && link.dev == (if spec.dev.Some? && spec.dev.value in m.scripts(path) then spec.dev else None)
      && link.preload ==
         (if spec.preload.Some? && m.isFile(JoinPath(path, spec.preload.value)) then spec.preload else None)
      && link.runtime == (if spec.runtime.Some? && KnownRuntime(spec.runtime.value) && spec.runtime.value != ""
                             && spec.runtime.value != "fpm" then spec.runtime else None)
      && link.dbPort == (if spec.dbPort == Some(5432) then None else spec.dbPort)
      && (link.xdebug.Some? ==> spec.xdebug.Some? && Xdebug.Parsed(spec.xdebug.value) == Ok(Xdebug.Mode(link.xdebug.value)))
      && (link.xdebug.None? <==> spec.xdebug.None? || Xdebug.Parsed(spec.xdebug.value).Err?
                                 || Xdebug.Parsed(spec.xdebug.value) == Ok(Xdebug.Mode("off")))
  {
    hide Xdebug.Parsed, JoinPath, Lower, NameFor, RuntimeOf, PreloadOf, DevOf, XdebugOf, KnownRuntime, BranchOf;
    DegradedSettings(m, path, spec);
    XdebugKept(spec);
  }
}
