/** Octane servers: the crash ladder every supervised child follows, plus
    reloading the workers when the watched sources have changed and stopped
    changing. */
module Octane {
  import opened Wrappers
  import opened Ladders
  import opened Supervisor

  /** A number that moves whenever a watched source does. */
  type Mark = int

  const RESTART_SETTLE: Time := 2

  /** What a server was started for; changing any of it needs a new server. */
  datatype Setup = Setup(runtime: string, phpBin: string, project: string)

  datatype Server = Server(
    port: nat,
    proc: Proc<Setup>,
    watch: bool,
    fingerprint: Option<Mark>,
    dirty: bool,
    reloading: bool,
    reloads: nat)

  /** One pass as one server sees it: the world, how a reload in flight stands
      (none while it runs), the tree's fingerprint if it was scanned, and
      whether `octane:reload` can be spawned. */
  datatype Pass = Pass(world: World, reloadDone: Option<bool>, scan: Option<Mark>, reloadSpawns: bool)

  // ---- the debounce ----

  datatype Verdict = Baseline | Changed | Settled | Idle

  function Classify(previous: Option<Mark>, now: Mark, dirty: bool, reloading: bool): Verdict {
    match previous
    case None => Baseline
    case Some(prev) =>
      if prev != now then Changed
      else if dirty && !reloading then Settled
      else Idle
  }

  /** A restart: down at once with its history forgotten, to be started by a pass
      once the port has had time to come free. */
  function BeginRestart(s: Server, now: Time): Server {
    s.(reloading := false, dirty := false, fingerprint := None,
       proc := s.proc.(up := false, failures := 0, retryAt := Some(now + RESTART_SETTLE)))
  }

  /** What one pass did about the sources, for the record. */
  datatype Action = Based(at: Mark) | Reloaded(at: Mark) | Bounced

  function SettleReload(s: Server, p: Pass): Server {
    if s.reloading && p.reloadDone.Some? then s.(reloading := false) else s
  }

  predicate ReloadFailed(s: Server, p: Pass) {
    s.reloading && p.reloadDone == Some(false)
  }

  /** The part of a pass that concerns a server that is up. */
  function Watched(s: Server, p: Pass): (Server, seq<Action>) {
    if p.scan.None? then (s, []) else
    var now := p.scan.value;
    match Classify(s.fingerprint, now, s.dirty, s.reloading)
    case Baseline => (s.(fingerprint := Some(now)), [Based(now)])
    case Changed => (s.(fingerprint := Some(now), dirty := true), [])
    case Idle => (s, [])
    case Settled =>
      if p.reloadSpawns then (s.(dirty := false, reloading := true, reloads := s.reloads + 1), [Reloaded(now)])
      else (BeginRestart(s, p.world.now), [Action.Bounced])
  }

  function Supervised(s: Server, p: Pass): (Server, seq<Action>) {
    if ReloadFailed(s, p) then (BeginRestart(SettleReload(s, p), p.world.now), [Action.Bounced]) else
    var s1 := SettleReload(s, p);
    var s2 := s1.(proc := Tick(BACKEND_LADDER, s1.proc, p.world));
    if Reap(BACKEND_LADDER, s1.proc, p.world).up then Watched(s2, p) else (s2, [])
  }

  /** `dpl octane reload`. */
  function AskedToReload(s: Server, p: Pass): Server {
    var s1 := s.(proc := Reap(BACKEND_LADDER, s.proc, p.world));
    if s1.proc.up && p.reloadSpawns then s1.(reloading := true, reloads := s1.reloads + 1)
    else BeginRestart(s1, p.world.now)
  }

  function Launched(setup: Setup, port: nat, watch: bool, now: Time): Server {
    Server(port, Proc(setup, true, now, 0, None), watch, None, false, false, 0)
  }

  /** A server that stays: the same process and port, and a new baseline if
      watching was off. */
  function Rewatched(s: Server, watch: bool): Server {
    if watch && !s.watch then s.(fingerprint := None, dirty := false, watch := watch) else s.(watch := watch)
  }

  /** What starting a server needs: `artisan` and laravel/octane in the project,
      a free port, and a spawn that works. */
  datatype Launch = Launch(installed: bool, port: Option<nat>, spawns: bool, now: Time)

  predicate Launchable(l: Launch) {
    l.installed && l.port.Some? && l.spawns
  }

  class AppServers {
    var servers: map<string, Server>

    constructor ()
      ensures servers == map[]
    {
      servers := map[];
    }

    /** The port to proxy `site` to, or none when php-fpm must serve it. */
    method Ensure(site: string, setup: Setup, watch: bool, l: Launch) returns (port: Option<nat>)
      modifies this
      ensures port.Some? <==>
        (site in old(servers) && old(servers)[site].proc.config == setup) || (l.installed && l.port.Some? && l.spawns)
      ensures port.Some? ==> site in servers && servers[site].port == port.value
      ensures site in old(servers) && old(servers)[site].proc.config == setup
              ==> servers == old(servers)[site := Rewatched(old(servers)[site], watch)]
      ensures !(site in old(servers) && old(servers)[site].proc.config == setup)
              ==> servers == if Launchable(l) then old(servers)[site := Launched(setup, l.port.value, watch, l.now)]
                             else old(servers) - {site}
    {
      if site in servers && servers[site].proc.config == setup {
        var s := servers[site];
        if watch && !s.watch {
          s := s.(fingerprint := None, dirty := false);
        }
        servers := servers[site := s.(watch := watch)];
        return Some(s.port);
      }
      if site in servers {
        servers := servers - {site};
      }
      if !l.installed || l.port.None? {
        assert old(servers) - {site} == servers;
        return None;
      }
      var server := Server(l.port.value, Fresh(setup, l.now), watch, None, false, false, 0);
      server := server.(proc := Start(BACKEND_LADDER, server.proc, World(l.now, false, l.spawns)));
      if !server.proc.up {
        assert old(servers) - {site} == servers;
        return None;
      }
      servers := servers[site := server];
      return l.port;
    }

    method Retain(keep: set<string>)
      modifies this
      ensures servers == map k | k in old(servers) && k in keep :: old(servers)[k]
    {
      servers := map k | k in servers && k in keep :: servers[k];
    }

    method Supervise(passes: map<string, Pass>)
      requires servers.Keys <= passes.Keys
      modifies this
      ensures servers == map k | k in old(servers) :: Supervised(old(servers)[k], passes[k]).0
    {
      var todo := servers.Keys;
      while todo != {}
        invariant todo <= servers.Keys == old(servers).Keys
        invariant forall k | k in servers ::
          servers[k] == if k in todo then old(servers)[k] else Supervised(old(servers)[k], passes[k]).0
        decreases todo
      {
        var site :| site in todo;
        todo := todo - {site};
        var after := SuperviseOne(servers[site], passes[site]);
        servers := servers[site := after];
      }
    }

    static method SuperviseOne(before: Server, p: Pass) returns (s: Server)
      ensures s == Supervised(before, p).0
    {
      s := before;
      if s.reloading && p.reloadDone.Some? {
        s := s.(reloading := false);
        if !p.reloadDone.value {
          return BeginRestart(s, p.world.now);
        }
      }
      s := s.(proc := Reap(BACKEND_LADDER, s.proc, p.world));
      if !s.proc.up {
        if s.proc.failures >= MAX_FAILURES {
          return s;
        }
        if s.proc.retryAt.Some? && p.world.now < s.proc.retryAt.value {
          return s;
        }
        return s.(proc := Start(BACKEND_LADDER, s.proc, p.world));
      }
      if s.proc.failures > 0 && p.world.now - s.proc.started >= HEALTHY_AFTER {
        s := s.(proc := s.proc.(failures := 0));
      }
      if p.scan.None? {
        return s;
      }
      match Classify(s.fingerprint, p.scan.value, s.dirty, s.reloading) {
        case Baseline => s := s.(fingerprint := p.scan);
        case Changed => s := s.(fingerprint := p.scan, dirty := true);
        case Settled =>
          s := s.(dirty := false);
          if p.reloadSpawns {
            s := s.(reloading := true, reloads := s.reloads + 1);
          } else {
            s := BeginRestart(s, p.world.now);
          }
        case Idle =>
      }
    }

    method Reload(site: string, p: Pass) returns (known: bool)
      modifies this
      ensures known <==> site in old(servers)
      ensures servers == if known then old(servers)[site := AskedToReload(old(servers)[site], p)] else old(servers)
    {
      if site !in servers {
        return false;
      }
      var s := servers[site];
      s := s.(proc := Reap(BACKEND_LADDER, s.proc, p.world));
      if s.proc.up {
        if p.reloadSpawns {
          s := s.(reloading := true, reloads := s.reloads + 1);
        } else {
          s := BeginRestart(s, p.world.now);
        }
      } else {
        s := BeginRestart(s, p.world.now);
      }
      servers := servers[site := s];
      return true;
    }

    method Restart(site: string, now: Time) returns (known: bool)
      modifies this
      ensures known <==> site in old(servers)
      ensures servers == if known then old(servers)[site := BeginRestart(old(servers)[site], now)] else old(servers)
    {
      if site !in servers {
        return false;
      }
      servers := servers[site := BeginRestart(servers[site], now)];
      return true;
    }
  }

  // ---- runs of passes over one server ----

  function Passed(s: Server, ps: seq<Pass>): Server
    decreases |ps|
  {
    if ps == [] then s else Passed(Supervised(s, ps[0]).0, ps[1..])
  }

  function Actions(s: Server, ps: seq<Pass>): seq<Action>
    decreases |ps|
  {
    if ps == [] then [] else Supervised(s, ps[0]).1 + Actions(Supervised(s, ps[0]).0, ps[1..])
  }

  // ---- everything that is done to a server ----

  /** A supervision pass, `dpl octane reload` (which finds the tree at `tree`),
      a restart, or watching turned on or off. */
  datatype Doing =
    | Polled(pass: Pass)
    | AskedFor(pass: Pass, tree: Mark)
    | ToldToRestart(now: Time)
    | WatchSet(on: bool)

  predicate ReloadsNow(s: Server, p: Pass) {
    Reap(BACKEND_LADDER, s.proc, p.world).up && p.reloadSpawns
  }

  function Did(s: Server, e: Doing): (Server, seq<Action>) {
    match e
    case Polled(p) => Supervised(s, p)
    case AskedFor(p, tree) => (AskedToReload(s, p), [if ReloadsNow(s, p) then Reloaded(tree) else Action.Bounced])
    case ToldToRestart(now) => (BeginRestart(s, now), [Action.Bounced])
    case WatchSet(on) => (Rewatched(s, on), [])
  }

  function Lived(s: Server, es: seq<Doing>): Server
    decreases |es|
  {
    if es == [] then s else Lived(Did(s, es[0]).0, es[1..])
  }

  function Log(s: Server, es: seq<Doing>): seq<Action>
    decreases |es|
  {
    if es == [] then [] else Did(s, es[0]).1 + Log(Did(s, es[0]).0, es[1..])
  }

  function ReloadsIn(log: seq<Action>): nat
    decreases |log|
  {
    if log == [] then 0 else (if log[0].Reloaded? then 1 else 0) + ReloadsIn(log[1..])
  }

  lemma {:induction false} ReloadsConcat(a: seq<Action>, b: seq<Action>)
    ensures ReloadsIn(a + b) == ReloadsIn(a) + ReloadsIn(b)
    decreases |a|
  {
    if a == [] {
      assert a + b == b;
    } else {
      ReloadsConcat(a[1..], b);
      assert (a + b)[1..] == a[1..] + b;
    }
  }

  lemma StepCountsReloads(s: Server, e: Doing)
    ensures Did(s, e).0.reloads == s.reloads + ReloadsIn(Did(s, e).1)
  {
    hide Tick, Reap, BackoffFor;
  }

  /** The reloads a server reports are those done to it. */
  lemma {:induction false} ReloadsAreCounted(s: Server, es: seq<Doing>)
    ensures Lived(s, es).reloads == s.reloads + ReloadsIn(Log(s, es))
    decreases |es|
  {
    hide Did, ReloadsIn;
    if es == [] {
      assert ReloadsIn([]) == 0 by { NoReloads(); }
    } else {
      StepCountsReloads(s, es[0]);
      ReloadsAreCounted(Did(s, es[0]).0, es[1..]);
      ReloadsConcat(Did(s, es[0]).1, Log(Did(s, es[0]).0, es[1..]));
    }
  }

  lemma NoReloads()
    ensures ReloadsIn([]) == 0
  {
  }

  /** Watching that comes on again starts over: whatever happened meanwhile, the first
      look only remembers the tree, and a second one that finds it unchanged does
      nothing. Turning it off, or on when it is on, forgets nothing. */
  lemma WatchingAnewStartsOver(s: Server, p: Pass, q: Pass)
    requires AllCalm(Rewatched(s, true), [p, q]) && p.scan == q.scan
    ensures !s.watch ==> Actions(Rewatched(s, true), [p, q]) == [Based(p.scan.value)]
    ensures Rewatched(s, true).proc == s.proc && Rewatched(s, true).port == s.port
    ensures s.watch ==> Rewatched(s, true) == s
    ensures Rewatched(s, false) == s.(watch := false)
  {
    hide BackoffFor;
    var t := Rewatched(s, true);
    assert [p, q][1..] == [q] && [q][1..] == [];
    if !s.watch {
      var t1 := Supervised(t, p).0;
      assert Supervised(t, p).1 == [Based(p.scan.value)] && t1.fingerprint == p.scan && !t1.dirty;
      assert AllCalm(t1, [q]);
      assert Supervised(t1, q).1 == [];
      assert Actions(t1, [q]) == [] + [];
      assert [Based(p.scan.value)] + ([] + []) == [Based(p.scan.value)];
    }
  }

  // ---- no change is lost ----

  /** The fingerprint the workers were last brought up to date with. */
  function LastHeld(held: Option<Mark>, log: seq<Action>): Option<Mark> {
    if log == [] then held else
    match log[|log| - 1]
    case Based(f) => Some(f)
    case Reloaded(f) => Some(f)
    case Bounced => None
  }

  ghost predicate UpToDate(s: Server, held: Option<Mark>) {
    s.fingerprint.Some? ==> s.dirty || held == s.fingerprint
  }

  /** A requested reload finds the tree as the last pass saw it, unless a change
      is pending anyway. */
  predicate Tracked(s: Server, e: Doing) {
    e.AskedFor? && ReloadsNow(s, e.pass) && s.fingerprint.Some? && !s.dirty ==> s.fingerprint == Some(e.tree)
  }

  ghost predicate AllTracked(s: Server, es: seq<Doing>)
    decreases |es|
  {
    es == [] || (Tracked(s, es[0]) && AllTracked(Did(s, es[0]).0, es[1..]))
  }

  /** Exactly the tracked events keep the workers known to be up to date. */
  lemma StepKeepsUpToDateIff(s: Server, held: Option<Mark>, e: Doing)
    requires UpToDate(s, held)
    ensures UpToDate(Did(s, e).0, LastHeld(held, Did(s, e).1)) <==> Tracked(s, e)
  {
    hide BackoffFor;
  }

  lemma LastHeldConcat(held: Option<Mark>, a: seq<Action>, b: seq<Action>)
    ensures LastHeld(LastHeld(held, a), b) == LastHeld(held, a + b)
  {
    if b == [] {
      assert a + b == a;
    }
  }

  lemma {:induction false} RunKeepsUpToDate(s: Server, held: Option<Mark>, es: seq<Doing>)
    requires UpToDate(s, held) && AllTracked(s, es)
    ensures UpToDate(Lived(s, es), LastHeld(held, Log(s, es)))
    decreases |es|
  {
    hide Did, UpToDate, Tracked, LastHeld;
    if es == [] {
      NothingLogged(held);
    } else {
      StepKeepsUpToDateIff(s, held, es[0]);
      var (s', log) := Did(s, es[0]);
      RunKeepsUpToDate(s', LastHeld(held, log), es[1..]);
      LastHeldConcat(held, log, Log(s', es[1..]));
    }
  }

  lemma NothingLogged(held: Option<Mark>)
    ensures LastHeld(held, []) == held
  {
  }

  /** The pass found the server up, scanned its tree and did not bounce it. */
  predicate Looked(s: Server, p: Pass) {
    && p.scan.Some? && !ReloadFailed(s, p)
    && Reap(BACKEND_LADDER, s.proc, p.world).up
    && Action.Bounced !in Supervised(s, p).1
  }

  /** No on-save change is lost: after any history of passes, crashes, requested
      reloads, restarts and watch settings, and a pass that looked at the tree,
      either a change is still pending, or the last reload or baseline was at
      exactly the fingerprint just seen. */
  lemma NoChangeIsLost(s: Server, es: seq<Doing>, p: Pass)
    requires s.fingerprint.None? && AllTracked(s, es) && Looked(Lived(s, es), p)
    ensures var log := Log(s, es) + Supervised(Lived(s, es), p).1;
            Supervised(Lived(s, es), p).0.dirty || LastHeld(None, log) == p.scan
  {
    RunKeepsUpToDate(s, None, es);
    var before := Lived(s, es);
    StepKeepsUpToDateIff(before, LastHeld(None, Log(s, es)), Polled(p));
    LastHeldConcat(None, Log(s, es), Supervised(before, p).1);
    LookedAt(before, p);
  }

  lemma LookedAt(s: Server, p: Pass)
    requires Looked(s, p)
    ensures Supervised(s, p).0.fingerprint == p.scan
  {
    hide BackoffFor;
  }

  /** Where tracking fails a change can be lost: a reload requested right after an
      edit leaves the workers on that edit, and if the edit is undone before the
      next pass, no pass ever notices. */
  lemma UndoneEditIsMissed(s: Server, f: Mark, tree: Mark, ask: Pass, p: Pass)
    requires s.fingerprint == Some(f) && !s.dirty && ReloadsNow(s, ask) && tree != f
    requires Looked(AskedToReload(s, ask), p) && p.scan == Some(f)
    ensures var after := Did(s, AskedFor(ask, tree));
            var (end, log) := Supervised(after.0, p);
            !end.dirty && LastHeld(None, after.1 + log) == Some(tree) != p.scan
  {
    hide BackoffFor;
    var after := AskedToReload(s, ask);
    assert Supervised(after, p).1 == [];
    assert [Reloaded(tree)] + [] == [Reloaded(tree)];
  }

  /** A reload the watcher starts never overlaps another, and a first scan is
      only ever a baseline. */
  lemma ReloadsDoNotOverlap(s: Server, p: Pass, f: Mark)
    requires Reloaded(f) in Supervised(s, p).1
    ensures !s.reloading || p.reloadDone == Some(true)
    ensures s.fingerprint == Some(f) && s.dirty && p.scan == Some(f)
    ensures Supervised(s, p).1 == [Reloaded(f)] && Supervised(s, p).0.reloading
  {
    var s1 := SettleReload(s, p);
    assert p.reloadDone.Some? && !p.reloadDone.value ==> p.reloadDone == Some(false);
    assert !ReloadFailed(s, p) && Reap(BACKEND_LADDER, s1.proc, p.world).up;
    assert Supervised(s, p).1 == Watched(s1.(proc := Tick(BACKEND_LADDER, s1.proc, p.world)), p).1;
    assert Classify(s1.fingerprint, p.scan.value, s1.dirty, s1.reloading) == Settled;
  }

  // ---- a burst of saves ----

  /** The server stays up, the tree is scanned, reloads can be spawned and none
      fails. */
  predicate Calm(s: Server, p: Pass) {
    s.proc.up && !p.world.exited && p.scan.Some? && p.reloadSpawns && p.reloadDone != Some(false)
  }

  ghost predicate AllCalm(s: Server, ps: seq<Pass>)
    decreases |ps|
  {
    ps == [] || (Calm(s, ps[0]) && AllCalm(Supervised(s, ps[0]).0, ps[1..]))
  }

  /** Every pass of a burst sees the tree moved again. */
  ghost predicate Burst(from: Mark, ps: seq<Pass>)
    decreases |ps|
  {
    ps == [] || (ps[0].scan.Some? && ps[0].scan.value != from && Burst(ps[0].scan.value, ps[1..]))
  }

  predicate InFlight(s: Server, p: Pass) {
    s.reloading && p.reloadDone.None?
  }

  lemma {:induction false} BurstOnlyMarks(s: Server, from: Mark, ps: seq<Pass>)
    requires ps != [] && s.fingerprint == Some(from) && Burst(from, ps) && AllCalm(s, ps)
    ensures Actions(s, ps) == []
    ensures var t := Passed(s, ps);
            t.fingerprint == ps[|ps| - 1].scan && t.dirty && t.reloads == s.reloads && t.proc.up
    decreases |ps|
  {
    var t := Supervised(s, ps[0]).0;
    CalmChange(s, from, ps[0]);
    if |ps| > 1 {
      BurstOnlyMarks(t, ps[0].scan.value, ps[1..]);
    } else {
      assert ps[1..] == [] && Passed(t, []) == t && Actions(t, []) == [];
    }
  }

  lemma CalmChange(s: Server, from: Mark, p: Pass)
    requires s.fingerprint == Some(from) && Calm(s, p) && p.scan != Some(from)
    ensures var (t, log) := Supervised(s, p);
            log == [] && t.fingerprint == p.scan && t.dirty && t.reloads == s.reloads && t.proc.up
  {
  }

  /** `k` is the first pass that finds no reload in flight, or none does. */
  ghost predicate FirstFree(s: Server, ps: seq<Pass>, k: nat) {
    && k <= |ps|
    && (forall j | 0 <= j < k :: InFlight(Passed(s, ps[..j]), ps[j]))
    && (k < |ps| ==> !InFlight(Passed(s, ps[..k]), ps[k]))
  }

  lemma CalmQuiet(s: Server, f: Mark, p: Pass)
    requires s.fingerprint == Some(f) && Calm(s, p) && p.scan == Some(f)
    ensures var (t, log) := Supervised(s, p);
            && t.fingerprint == Some(f)
            && (t.dirty <==> s.dirty && InFlight(s, p))
            && log == if s.dirty && !InFlight(s, p) then [Reloaded(f)] else []
  {
  }

  lemma PassesAfterFirst(s: Server, ps: seq<Pass>, j: nat)
    requires j < |ps|
    ensures Passed(s, ps[..j + 1]) == Passed(Supervised(s, ps[0]).0, ps[1..][..j])
    ensures Actions(s, ps[..j + 1]) == Supervised(s, ps[0]).1 + Actions(Supervised(s, ps[0]).0, ps[1..][..j])
  {
    assert ps[..j + 1][0] == ps[0] && ps[..j + 1][1..] == ps[1..][..j];
  }

  lemma {:induction false} QuietReloadsOnce(s: Server, f: Mark, ps: seq<Pass>) returns (k: nat)
    requires s.fingerprint == Some(f) && AllCalm(s, ps)
    requires forall p | p in ps :: p.scan == Some(f)
    ensures Actions(s, ps) == if s.dirty && k < |ps| then [Reloaded(f)] else []
    ensures s.dirty ==> FirstFree(s, ps, k) && Actions(s, ps[..k]) == []
    decreases |ps|
  {
    k := 0;
    if ps != [] {
      var t := Supervised(s, ps[0]).0;
      assert ps[0] in ps && forall p | p in ps[1..] :: p in ps;
      CalmQuiet(s, f, ps[0]);
      hide Supervised, InFlight, Calm;
      assert ps[..0] == [] && Passed(s, []) == s;
      var next := QuietReloadsOnce(t, f, ps[1..]);
      if s.dirty && InFlight(s, ps[0]) {
        k := next + 1;
        forall j | 0 <= j < |ps|
          ensures Passed(s, ps[..j + 1]) == Passed(t, ps[1..][..j])
          ensures Actions(s, ps[..j + 1]) == Actions(t, ps[1..][..j])
        {
          PassesAfterFirst(s, ps, j);
        }
        forall j | 0 <= j < k
          ensures InFlight(Passed(s, ps[..j]), ps[j])
        {
          if j > 0 {
            assert InFlight(Passed(t, ps[1..][..j - 1]), ps[1..][j - 1]);
          }
        }
      }
    }
  }

  lemma {:induction false} PassedConcat(s: Server, a: seq<Pass>, b: seq<Pass>)
    ensures Passed(s, a + b) == Passed(Passed(s, a), b)
    ensures Actions(s, a + b) == Actions(s, a) + Actions(Passed(s, a), b)
    decreases |a|
  {
    hide Supervised;
    if a == [] {
      assert a + b == b;
      assert Actions(s, a + b) == [] + Actions(s, b);
    } else {
      var (next, log) := Supervised(s, a[0]);
      assert (a + b)[0] == a[0] && (a + b)[1..] == a[1..] + b;
      PassedConcat(next, a[1..], b);
      assert log + (Actions(next, a[1..]) + Actions(Passed(s, a), b)) == Actions(s, a) + Actions(Passed(s, a), b);
    }
  }

  lemma {:induction false} CalmConcat(s: Server, a: seq<Pass>, b: seq<Pass>)
    requires AllCalm(s, a + b)
    ensures AllCalm(s, a) && AllCalm(Passed(s, a), b)
    decreases |a|
  {
    hide Supervised, Calm;
    if a == [] {
      assert a + b == b;
    } else {
      assert (a + b)[0] == a[0] && (a + b)[1..] == a[1..] + b;
      CalmConcat(Supervised(s, a[0]).0, a[1..], b);
    }
  }

  /** However many saves land in a burst, they reload the workers exactly once:
      at the first quiet pass, `k`, with no reload in flight. */
  lemma BurstReloadsOnce(s: Server, from: Mark, burst: seq<Pass>, f: Mark, quiet: seq<Pass>) returns (k: nat)
    requires s.fingerprint == Some(from) && burst != [] && Burst(from, burst) && burst[|burst| - 1].scan == Some(f)
    requires AllCalm(s, burst + quiet)
    requires forall p | p in quiet :: p.scan == Some(f)
    ensures FirstFree(Passed(s, burst), quiet, k)
    ensures Actions(s, burst + quiet) == if k < |quiet| then [Reloaded(f)] else []
    ensures Actions(s, burst + quiet[..k]) == []
  {
    hide Supervised, Passed, Actions, AllCalm, Burst, InFlight;
    PassedConcat(s, burst, quiet);
    CalmConcat(s, burst, quiet);
    BurstOnlyMarks(s, from, burst);
    k := QuietReloadsOnce(Passed(s, burst), f, quiet);
    PassedConcat(s, burst, quiet[..k]);
  }

  // ---- the crash ladder ----

  /** Whatever is done to a server, its failures stay at most the cap, and below
      it while it is up. */
  lemma StepKeepsSane(s: Server, e: Doing)
    requires Sane(s.proc)
    ensures Sane(Did(s, e).0.proc)
  {
    hide Tick, Reap, Starts, Classify;
    if e.Polled? || e.AskedFor? { OnePassCharges(BACKEND_LADDER, s.proc, e.pass.world); }
  }

  lemma {:induction false} FailuresStayCapped(s: Server, es: seq<Doing>)
    requires Sane(s.proc)
    ensures Sane(Lived(s, es).proc)
    decreases |es|
  {
    hide Did, Sane;
    if es != [] {
      StepKeepsSane(s, es[0]);
      FailuresStayCapped(Did(s, es[0]).0, es[1..]);
    }
  }

  /** So from its launch on, for every server. */
  lemma LaunchedStaysCapped(setup: Setup, port: nat, watch: bool, now: Time, es: seq<Doing>)
    ensures Sane(Lived(Launched(setup, port, watch, now), es).proc)
  {
    hide Lived;
    FailuresStayCapped(Launched(setup, port, watch, now), es);
  }

  /** The pass tries to start the server. */
  predicate StartsNow(s: Server, e: Doing) {
    e.Polled? && !ReloadFailed(s, e.pass) && Starts(BACKEND_LADDER, s.proc, Ticked(e.pass.world))
  }

  function StartsIn(s: Server, es: seq<Doing>): seq<Time>
    decreases |es|
  {
    if es == [] then []
    else (if StartsNow(s, es[0]) then [es[0].pass.world.now] else []) + StartsIn(Did(s, es[0]).0, es[1..])
  }

  function Restarts(log: seq<Action>): nat
    decreases |log|
  {
    if log == [] then 0 else (if log[0] == Action.Bounced then 1 else 0) + Restarts(log[1..])
  }

  /** The server is never seen to last `HEALTHY_AFTER`. */
  predicate Young(s: Server, e: Doing) {
    (e.Polled? || e.AskedFor?) && s.proc.up ==> e.pass.world.now - s.proc.started < HEALTHY_AFTER
  }

  ghost predicate AllYoung(s: Server, es: seq<Doing>)
    decreases |es|
  {
    es == [] || (Young(s, es[0]) && AllYoung(Did(s, es[0]).0, es[1..]))
  }

  /** Starts the failure count stands for. */
  function Charged(s: Server): nat {
    s.proc.failures + if s.proc.up then 1 else 0
  }

  /** A restart wipes the count and starts nothing yet; anything else charges each
      start. */
  lemma StepCharges(s: Server, e: Doing)
    requires Sane(s.proc) && Young(s, e)
    ensures var (t, log) := Did(s, e);
            && (log == [Action.Bounced] ==> Charged(t) == 0 && !StartsNow(s, e))
            && (log != [Action.Bounced] ==>
                  Action.Bounced !in log && Charged(t) == Charged(s) + if StartsNow(s, e) then 1 else 0)
  {
    hide Tick, Reap, Starts, Classify;
    if e.Polled? || e.AskedFor? { OnePassCharges(BACKEND_LADDER, s.proc, e.pass.world); }
  }

  lemma {:induction false} RestartsConcat(a: seq<Action>, b: seq<Action>)
    ensures Restarts(a + b) == Restarts(a) + Restarts(b)
    decreases |a|
  {
    if a == [] {
      assert a + b == b;
    } else {
      RestartsConcat(a[1..], b);
      assert (a + b)[1..] == a[1..] + b;
    }
  }

  lemma {:induction false} NoRestarts(log: seq<Action>)
    requires Action.Bounced !in log
    ensures Restarts(log) == 0
    decreases |log|
  {
    if log != [] { NoRestarts(log[1..]); }
  }

  /** In every run whatever, of passes, requested reloads, restarts and watch
      settings, whose starts all die young: at most five starts for each restart,
      and five more. */
  lemma {:induction false} FiveStartsPerRestart(s: Server, es: seq<Doing>)
    requires Sane(s.proc) && AllYoung(s, es)
    ensures |StartsIn(s, es)| + Charged(s) <= MAX_FAILURES * (1 + Restarts(Log(s, es)))
    decreases |es|
  {
    hide Did, StartsNow, Young, Charged, Restarts, Sane;
    if es == [] {
      NoRestarts([]);
      ChargedIsCapped(s);
    } else {
      var (t, log) := Did(s, es[0]);
      StepKeepsSane(s, es[0]);
      StepCharges(s, es[0]);
      FiveStartsPerRestart(t, es[1..]);
      RestartsConcat(log, Log(t, es[1..]));
      ChargedIsCapped(s);
      if log == [Action.Bounced] { OneRestart(); } else { NoRestarts(log); }
    }
  }

  lemma ChargedIsCapped(s: Server)
    requires Sane(s.proc)
    ensures Charged(s) <= MAX_FAILURES
  {
  }

  lemma OneRestart()
    ensures Restarts([Action.Bounced]) == 1
  {
  }

  // ---- when a stopped server comes back ----

  /** `k` is the first pass at or after `due`. */
  ghost predicate FirstPassDue(es: seq<Doing>, due: Time, k: int) {
    && 0 <= k < |es| && es[k].Polled? && es[k].pass.world.now >= due
    && forall i | 0 <= i < k && es[i].Polled? :: es[i].pass.world.now < due
  }

  ghost predicate NoPassDue(es: seq<Doing>, due: Time) {
    forall i | 0 <= i < |es| && es[i].Polled? :: es[i].pass.world.now < due
  }

  lemma FirstPassIsLater(es: seq<Doing>, due: Time)
    requires es != []
    ensures var dueNow := es[0].Polled? && es[0].pass.world.now >= due;
      && (dueNow ==> !NoPassDue(es, due) && FirstPassDue(es, due, 0) && forall k | FirstPassDue(es, due, k) :: k == 0)
      && (!dueNow ==> (NoPassDue(es, due) <==> NoPassDue(es[1..], due))
                      && forall k | FirstPassDue(es, due, k) :: FirstPassDue(es[1..], due, k - 1) && 0 < k < |es| && es[k] == es[1..][k - 1])
  {
    forall i | 1 <= i < |es|
      ensures es[i] == es[1..][i - 1]
    {
    }
  }

  lemma NoPasses(due: Time)
    ensures NoPassDue([], due) && forall k :: !FirstPassDue([], due, k)
  {
  }

  /** A server that is down below the cap is tried by the first pass at or after the
      time it waits for, and by none before. */
  lemma {:induction false} PassedWhenDue(s: Server, due: Time, es: seq<Doing>)
    requires !s.proc.up && s.proc.failures < MAX_FAILURES && s.proc.retryAt == Some(due) && !s.reloading
    requires forall e | e in es :: e.Polled? || e.WatchSet?
    ensures StartsIn(s, es) == [] <==> NoPassDue(es, due)
    ensures forall k | FirstPassDue(es, due, k) :: StartsIn(s, es) != [] && StartsIn(s, es)[0] == es[k].pass.world.now
    decreases |es|
  {
    hide BackoffFor, Classify, FirstPassDue, NoPassDue;
    if es == [] {
      NoPasses(due);
    } else {
      assert es[0] in es && forall e | e in es[1..] :: e in es;
      FirstPassIsLater(es, due);
      var t := Did(s, es[0]).0;
      if !(es[0].Polled? && es[0].pass.world.now >= due) {
        assert t.proc == s.proc && !t.reloading && !StartsNow(s, es[0]);
        PassedWhenDue(t, due, es[1..]);
        assert StartsIn(s, es) == [] + StartsIn(t, es[1..]);
      }
    }
  }

  lemma RestartIsBegun(s: Server, now: Time)
    ensures Did(s, ToldToRestart(now)).0 == BeginRestart(s, now)
  {
  }

  /** A restarted server, whatever it went through before, is down at once, on the same
      port with nothing left to reload, and tried by the first pass two seconds later
      or more. */
  lemma RestartsTakeTwoSeconds(s: Server, now: Time, es: seq<Doing>)
    requires forall e | e in es :: e.Polled? || e.WatchSet?
    ensures var t := Did(s, ToldToRestart(now)).0;
      && !t.proc.up && t.proc.failures == 0 && t.proc.config == s.proc.config && t.port == s.port && t.watch == s.watch
      && t.fingerprint.None? && !t.dirty && !t.reloading
      && (StartsIn(t, es) == [] <==> NoPassDue(es, now + 2))
      && forall k | FirstPassDue(es, now + 2, k) ::
           StartsIn(t, es) != [] && StartsIn(t, es)[0] == es[k].pass.world.now
  {
    hide FirstPassDue, NoPassDue, Did;
    assert Did(s, ToldToRestart(now)).0 == BeginRestart(s, now) by { RestartIsBegun(s, now); }
    PassedWhenDue(BeginRestart(s, now), now + 2, es);
  }

  /** A crash found by a pass waits its rung, as every failure on this ladder does. */
  lemma CrashesWaitTheirRung(s: Server, p: Pass, es: seq<Doing>)
    requires s.proc.up && p.world.exited && !ReloadFailed(s, p) && NthFailure(s.proc, p.world) <= 4
    requires !Supervised(s, p).0.reloading && forall e | e in es :: e.Polled? || e.WatchSet?
    ensures var due := p.world.now + [2, 5, 15, 60][NthFailure(s.proc, p.world) - 1]; var t := Supervised(s, p).0;
      && !t.proc.up
      && (StartsIn(t, es) == [] <==> NoPassDue(es, due))
      && forall k | FirstPassDue(es, due, k) :: StartsIn(t, es) != [] && StartsIn(t, es)[0] == es[k].pass.world.now
  {
    var n := NthFailure(s.proc, p.world);
    RungsAre(n);
    hide FirstPassDue, NoPassDue;
    PassedWhenDue(Supervised(s, p).0, p.world.now + BackoffFor(BACKEND_LADDER, n), es);
  }

  // ---- with no failed reload ----

  /** No reload in flight has failed, and a due one can be spawned; or watching is
      set. */
  predicate Steady(e: Doing) {
    match e
    case Polled(p) => p.reloadDone != Some(false) && p.reloadSpawns
    case WatchSet(_) => true
    case _ => false
  }

  function Ticks(es: seq<Doing>): seq<Event>
    decreases |es|
  {
    if es == [] then [] else (if es[0].Polled? then [Ticked(es[0].pass.world)] else []) + Ticks(es[1..])
  }

  /** Then a server's process is exactly a supervised child on the Octane ladder. */
  lemma StepFollowsTheLadder(s: Server, e: Doing)
    requires Steady(e)
    ensures Action.Bounced !in Did(s, e).1
    ensures Did(s, e).0.proc == if e.Polled? then Act(BACKEND_LADDER, s.proc, Ticked(e.pass.world)) else s.proc
    ensures StartsNow(s, e) <==> e.Polled? && Starts(BACKEND_LADDER, s.proc, Ticked(e.pass.world))
  {
    hide BackoffFor;
  }

  lemma {:induction false} RunFollowsTheLadder(s: Server, es: seq<Doing>)
    requires forall e | e in es :: Steady(e)
    ensures Action.Bounced !in Log(s, es)
    ensures Lived(s, es).proc == Run(BACKEND_LADDER, s.proc, Ticks(es))
    ensures StartsIn(s, es) == StartTimes(BACKEND_LADDER, s.proc, Ticks(es))
    ensures AllYoung(s, es) ==> CrashLooping(BACKEND_LADDER, s.proc, Ticks(es))
    decreases |es|
  {
    hide Did, StartsNow, Starts, Act, Steady;
    if es != [] {
      var e := es[0];
      var t := Did(s, e).0;
      StepFollowsTheLadder(s, e);
      RunFollowsTheLadder(t, es[1..]);
      if e.Polled? {
        assert Ticks(es) == [Ticked(e.pass.world)] + Ticks(es[1..]) && Ticks(es)[1..] == Ticks(es[1..]);
      } else {
        assert Ticks(es) == Ticks(es[1..]) && StartsIn(s, es) == StartsIn(t, es[1..]);
      }
    }
  }

  /** An Octane server just launched, or just told to restart, whose starts all
      die young: as long as no reload in flight fails and each can be spawned, it
      is started at most five times, each start after its backoff, over at least
      the whole ladder. */
  lemma OctaneCrashLoopsAreBounded(s: Server, now: Time, es: seq<Doing>)
    requires s.proc.failures == 0 && (s.proc.up ==> s.proc.started <= now)
    requires Ordered(now, Ticks(es)) && AllYoung(s, es) && forall e | e in es :: Steady(e)
    ensures var times := (if s.proc.up then [s.proc.started] else []) + StartsIn(s, es);
            && |times| <= MAX_FAILURES && Spaced(BACKEND_LADDER, times)
            && (|times| == MAX_FAILURES ==> times[4] - times[0] >= 82)
  {
    hide Did;
    var first := if s.proc.up then [s.proc.started] else [];
    assert Accounted(BACKEND_LADDER, s.proc, first, now);
    RunFollowsTheLadder(s, es);
    var end := LoopsAreAccountedFor(BACKEND_LADDER, s.proc, first, now, Ticks(es));
    var times := first + StartsIn(s, es);
    if |times| == MAX_FAILURES {
      SpanOfStarts(BACKEND_LADDER, times, 4);
      WholeLadder(BACKEND_LADDER);
    }
  }

  // ---- failed reloads take the bound away ----

  /** Just started, not yet scanned. */
  predicate JustStarted(s: Server, at: Time) {
    s.proc.up && s.proc.started == at && s.proc.failures == 0
    && s.fingerprint.None? && !s.dirty && !s.reloading
  }

  function Quiet(now: Time, scan: Mark): Pass {
    Pass(World(now, false, true), None, Some(scan), true)
  }

  /** One save after a start at `at`, and the reload it leads to failing, either
      because the command cannot be spawned or because it exits badly; then the
      restart. */
  function BadSave(at: Time, spawns: bool): seq<Doing> {
    [Polled(Quiet(at + 1, 0)), Polled(Quiet(at + 2, 1)), Polled(Quiet(at + 3, 1).(reloadSpawns := spawns))]
    + (if spawns then [Polled(Quiet(at + 4, 1).(reloadDone := Some(false)))] else [])
    + [Polled(Quiet(at + 6, 1))]
  }

  lemma Unroll(s: Server, e: Doing, es: seq<Doing>)
    ensures Lived(s, [e] + es) == Lived(Did(s, e).0, es)
    ensures StartsIn(s, [e] + es) == (if StartsNow(s, e) then [e.pass.world.now] else []) + StartsIn(Did(s, e).0, es)
    ensures AllYoung(s, [e] + es) <==> Young(s, e) && AllYoung(Did(s, e).0, es)
  {
    assert ([e] + es)[1..] == es;
  }

  /** Up to the bounce: baseline, change, reload that fails. */
  lemma BadSaveBounces(s: Server, at: Time, spawns: bool)
    requires JustStarted(s, at)
    ensures var n := if spawns then 4 else 3; var es := BadSave(at, spawns)[..n]; var t := Lived(s, es);
            && StartsIn(s, es) == [] && AllYoung(s, es)
            && !t.proc.up && t.proc.failures == 0 && t.fingerprint.None? && !t.dirty && !t.reloading
            && t.proc.retryAt.Some? && t.proc.retryAt.value <= at + 6
  {
    hide Lived, StartsIn, AllYoung, BackoffFor;
    var e1, e2, e3 := Polled(Quiet(at + 1, 0)), Polled(Quiet(at + 2, 1)), Polled(Quiet(at + 3, 1).(reloadSpawns := spawns));
    var e4 := Polled(Quiet(at + 4, 1).(reloadDone := Some(false)));
    var s1 := Did(s, e1).0;
    assert s1.fingerprint == Some(0) && !s1.dirty && !s1.reloading && s1.proc == s.proc;
    var s2 := Did(s1, e2).0;
    assert s2.fingerprint == Some(1) && s2.dirty && !s2.reloading && s2.proc == s.proc;
    var s3 := Did(s2, e3).0;
    hide Did, StartsNow;
    assert spawns ==> s3.reloading;
    NothingDone(s3);
    if spawns {
      NothingDone(Did(s3, e4).0);
      Unroll(s3, e4, []);
      assert BadSave(at, spawns)[..4] == [e1] + ([e2] + ([e3] + ([e4] + [])));
      Unroll(s2, e3, [e4] + []);
      Unroll(s1, e2, [e3] + ([e4] + []));
      Unroll(s, e1, [e2] + ([e3] + ([e4] + [])));
    } else {
      assert BadSave(at, spawns)[..3] == [e1] + ([e2] + ([e3] + []));
      Unroll(s2, e3, []);
      Unroll(s1, e2, [e3] + []);
      Unroll(s, e1, [e2] + ([e3] + []));
    }
  }

  lemma NothingDone(s: Server)
    ensures Lived(s, []) == s && StartsIn(s, []) == [] && AllYoung(s, [])
  {
  }

  lemma {:induction false} LivedConcat(s: Server, a: seq<Doing>, b: seq<Doing>)
    ensures Lived(s, a + b) == Lived(Lived(s, a), b)
    ensures StartsIn(s, a + b) == StartsIn(s, a) + StartsIn(Lived(s, a), b)
    ensures AllYoung(s, a + b) <==> AllYoung(s, a) && AllYoung(Lived(s, a), b)
    decreases |a|
  {
    hide Did, Young, Lived, StartsIn, AllYoung, StartsNow;
    NothingDone(s);
    if a == [] {
      assert a + b == b && [] + StartsIn(s, b) == StartsIn(s, b);
    } else {
      assert a == [a[0]] + a[1..] && a + b == [a[0]] + (a[1..] + b);
      Unroll(s, a[0], a[1..]);
      Unroll(s, a[0], a[1..] + b);
      LivedConcat(Did(s, a[0]).0, a[1..], b);
    }
  }

  lemma BadSaveRestarts(s: Server, at: Time, spawns: bool)
    requires JustStarted(s, at)
    ensures var es := BadSave(at, spawns);
            && JustStarted(Lived(s, es), at + 6) && StartsIn(s, es) == [at + 6] && AllYoung(s, es)
  {
    hide Lived, StartsIn, AllYoung;
    BadSaveBounces(s, at, spawns);
    var n := if spawns then 4 else 3;
    var es := BadSave(at, spawns);
    var last := Polled(Quiet(at + 6, 1));
    var t := Lived(s, es[..n]);
    assert es == es[..n] + ([last] + []);
    LivedConcat(s, es[..n], [last] + []);
    Unroll(t, last, []);
    NothingDone(Did(t, last).0);
    assert [at + 6] + [] == [at + 6] && [] + [at + 6] == [at + 6];
  }

  /** Through failed automatic reloads alone, whichever way they fail, and passes
      alone, a server whose every start is young is started as often as one likes:
      `n` saves, `n` starts. */
  lemma {:induction false} FailedReloadsHaveNoBound(s: Server, at: Time, spawns: bool, n: nat) returns (es: seq<Doing>)
    requires JustStarted(s, at)
    ensures forall e | e in es :: e.Polled? && !e.pass.world.exited && (e.pass.reloadDone == Some(false) ==> spawns)
                                  && (!e.pass.reloadSpawns ==> !spawns)
    ensures Ordered(at, Ticks(es)) && AllYoung(s, es) && |StartsIn(s, es)| == n
    decreases n
  {
    hide Lived, StartsIn, AllYoung, Did, JustStarted;
    if n == 0 {
      es := [];
      NothingDone(s);
    } else {
      var save := BadSave(at, spawns);
      BadSaveRestarts(s, at, spawns);
      var more := FailedReloadsHaveNoBound(Lived(s, save), at + 6, spawns, n - 1);
      es := save + more;
      LivedConcat(s, save, more);
      SavesAreOrdered(at, spawns, more);
    }
  }

  lemma TickFirst(from: Time, p: Pass, es: seq<Doing>)
    requires from <= p.world.now && Ordered(p.world.now, Ticks(es))
    ensures Ordered(from, Ticks([Polled(p)] + es))
  {
    assert ([Polled(p)] + es)[1..] == es;
    var ticks := [Ticked(p.world)] + Ticks(es);
    assert Ticks([Polled(p)] + es) == ticks && ticks[1..] == Ticks(es);
  }

  lemma SavesAreOrdered(at: Time, spawns: bool, more: seq<Doing>)
    requires Ordered(at + 6, Ticks(more))
    ensures Ordered(at, Ticks(BadSave(at, spawns) + more))
  {
    hide Ordered, Ticks;
    var p1, p2, p3 := Quiet(at + 1, 0), Quiet(at + 2, 1), Quiet(at + 3, 1).(reloadSpawns := spawns);
    var p4, p5 := Quiet(at + 4, 1).(reloadDone := Some(false)), Quiet(at + 6, 1);
    TickFirst(if spawns then at + 4 else at + 3, p5, more);
    var end := [Polled(p5)] + more;
    if spawns {
      TickFirst(at + 3, p4, end);
      end := [Polled(p4)] + end;
    }
    TickFirst(at + 2, p3, end);
    TickFirst(at + 1, p2, [Polled(p3)] + end);
    TickFirst(at, p1, [Polled(p2)] + ([Polled(p3)] + end));
    assert BadSave(at, spawns) + more == [Polled(p1)] + ([Polled(p2)] + ([Polled(p3)] + end));
  }
}
