/** Where the refinement ends: what one undisturbed switch does in any state, and
    the states and calls from which switches lose or mix branches, one for each
    condition that `BranchProtocol` puts on its runs. */
module BranchHazards {
  import opened Wrappers
  import opened Names
  import opened Catalog
  import opened BranchProtocol

  // ---- one switch with nobody else about ----

  lemma Prepend(s: State, e: Event, es: seq<Event>)
    requires Enabled(s, e) && Possible(Step(s, e), es)
    ensures Possible(s, [e] + es) && Run(s, [e] + es) == Run(Step(s, e), es)
  {
    assert ([e] + es)[1..] == es;
  }

  lemma NothingMore(s: State)
    ensures Possible(s, []) && Run(s, []) == s
  {
  }

  lemma {:induction false} RunConcat(s: State, a: seq<Event>, b: seq<Event>)
    requires Possible(s, a) && Possible(Run(s, a), b)
    ensures Possible(s, a + b) && Run(s, a + b) == Run(Run(s, a), b)
    decreases |a|
  {
    hide Step, Enabled;
    if a == [] {
      assert a + b == b;
    } else {
      assert (a + b)[1..] == a[1..] + b;
      RunConcat(Step(s, a[0]), a[1..], b);
    }
  }

  /** States one successful psql call apart. */
  ghost predicate Chained(chain: seq<State>, tid: Tid) {
    forall i | 0 <= i < |chain| - 1 ::
      Enabled(chain[i], Psql(tid, true)) && chain[i + 1] == Step(chain[i], Psql(tid, true))
  }

  lemma PsqlMoves(s: State, tid: Tid, job: Job, pc: Pc) returns (s': State)
    requires tid in s.threads && s.threads[tid].phase == Sql(job, pc) && !Finished(pc)
    ensures var (pc', dbs') := SqlStep(pc, s.dbs, JobBase(job), JobFrom(job), JobTo(job), true);
            && Enabled(s, Psql(tid, true)) && s' == Step(s, Psql(tid, true))
            && s'.dbs == dbs' && s'.records == s.records && s'.threads.Keys == s.threads.Keys
            && s'.threads[tid].site == s.threads[tid].site
            && s'.threads[tid].phase
               == if pc'.Failed? then Done(false) else if pc'.Switched? then Recording(job) else Sql(job, pc')
  {
    s' := Step(s, Psql(tid, true));
  }

  lemma Chain(a: seq<State>, b: seq<State>, tid: Tid)
    requires Chained(a, tid) && Chained(b, tid) && |a| > 0 && |b| > 0 && a[|a| - 1] == b[0]
    ensures Chained(a + b[1..], tid) && (a + b[1..])[|a + b[1..]| - 1] == b[|b| - 1] && (a + b[1..])[0] == a[0]
  {
    hide Step, Enabled;
    var c := a + b[1..];
    forall i | 0 <= i < |c| - 1
      ensures Enabled(c[i], Psql(tid, true)) && c[i + 1] == Step(c[i], Psql(tid, true))
    {
      if i < |a| - 1 {
        assert c[i] == a[i] && c[i + 1] == a[i + 1];
      } else {
        assert c[i] == b[i + 1 - |a|] && c[i + 1] == b[i + 2 - |a|];
      }
    }
  }

  lemma CheckingCalls(s: State, tid: Tid, job: Job) returns (chain: seq<State>)
    requires tid in s.threads && s.threads[tid].phase == Sql(job, CheckBase) && JobBase(job) in s.dbs
    ensures Chained(chain, tid) && |chain| > 0 && chain[0] == s
    ensures var last := chain[|chain| - 1];
            && last.dbs == s.dbs && last.records == s.records && last.threads.Keys == s.threads.Keys
            && last.threads[tid].site == s.threads[tid].site && last.threads[tid].phase == Sql(job, CheckFrom)
  {
    hide Step, Enabled, JobBase, JobFrom, JobTo;
    var s1 := PsqlMoves(s, tid, job, CheckBase);
    var s2 := PsqlMoves(s1, tid, job, Evict);
    chain := [s, s1, s2];
  }

  /** Any parked copy of the live branch is dropped first. */
  lemma DroppingCalls(s: State, tid: Tid, job: Job) returns (chain: seq<State>)
    requires tid in s.threads && s.threads[tid].phase == Sql(job, CheckFrom)
    ensures Chained(chain, tid) && |chain| > 0 && chain[0] == s
    ensures var last := chain[|chain| - 1];
            && last.dbs == s.dbs - {JobFrom(job)} && last.records == s.records && last.threads.Keys == s.threads.Keys
            && last.threads[tid].site == s.threads[tid].site && last.threads[tid].phase == Sql(job, Park)
  {
    hide Step, Enabled, JobBase, JobFrom, JobTo;
    var s1 := PsqlMoves(s, tid, job, CheckFrom);
    chain := [s, s1];
    if JobFrom(job) in s.dbs {
      var s2 := PsqlMoves(s1, tid, job, DropFrom);
      chain := [s, s1, s2];
    } else {
      assert s.dbs - {JobFrom(job)} == s.dbs;
    }
  }

  lemma RenamedOver(cat: map<Key, Data>, base: Key, parkFrom: Key)
    requires base in cat && base != parkFrom
    ensures Renamed(cat - {parkFrom}, base, parkFrom) == Renamed(cat, base, parkFrom)
  {
  }

  /** Up to where the target is looked up: the live data is parked. */
  lemma ParkingCalls(s: State, tid: Tid, job: Job) returns (chain: seq<State>)
    requires tid in s.threads && s.threads[tid].phase == Sql(job, CheckBase)
    requires JobBase(job) in s.dbs && JobFrom(job) != JobBase(job)
    ensures Chained(chain, tid) && |chain| > 0 && chain[0] == s
    ensures var last := chain[|chain| - 1];
            && last.dbs == Renamed(s.dbs, JobBase(job), JobFrom(job))
            && last.records == s.records && last.threads.Keys == s.threads.Keys
            && last.threads[tid].site == s.threads[tid].site && last.threads[tid].phase == Sql(job, CheckTo)
  {
    hide Step, Enabled, Renamed, JobBase, JobFrom, JobTo;
    var checking := CheckingCalls(s, tid, job);
    var dropping := DroppingCalls(checking[|checking| - 1], tid, job);
    Chain(checking, dropping, tid);
    chain := checking + dropping[1..];
    var ready := chain[|chain| - 1];
    var parked := PsqlMoves(ready, tid, job, Park);
    RenamedOver(s.dbs, JobBase(job), JobFrom(job));
    Chain(chain, [ready, parked], tid);
    chain := chain + [ready, parked][1..];
  }

  /** Bringing the target live. */
  lemma BringingCalls(s: State, tid: Tid, job: Job) returns (chain: seq<State>)
    requires tid in s.threads && s.threads[tid].phase == Sql(job, CheckTo)
    requires JobBase(job) !in s.dbs && JobFrom(job) in s.dbs
    ensures Chained(chain, tid) && |chain| > 0 && chain[0] == s
    ensures var last := chain[|chain| - 1];
            && last.dbs == (if JobTo(job) in s.dbs then Renamed(s.dbs, JobTo(job), JobBase(job))
                            else s.dbs[JobBase(job) := s.dbs[JobFrom(job)]])
            && last.records == s.records && last.threads.Keys == s.threads.Keys
            && last.threads[tid].site == s.threads[tid].site && last.threads[tid].phase == Recording(job)
  {
    hide Step, Enabled, JobBase, JobFrom, JobTo;
    var s1 := PsqlMoves(s, tid, job, CheckTo);
    if JobTo(job) in s.dbs {
      var s2 := PsqlMoves(s1, tid, job, EvictTo);
      var s3 := PsqlMoves(s2, tid, job, Restore);
      chain := [s, s1, s2, s3];
    } else {
      var s2 := PsqlMoves(s1, tid, job, Clone);
      chain := [s, s1, s2];
    }
  }

  lemma SwapInTwo(cat: map<Key, Data>, base: Key, parkFrom: Key, parkTo: Key)
    requires base in cat && base != parkFrom && base != parkTo && parkFrom != parkTo
    ensures var parked := Renamed(cat, base, parkFrom);
      Swapped(cat, base, parkFrom, parkTo) ==
      if parkTo in parked then Renamed(parked, parkTo, base) else parked[base := parked[parkFrom]]
  {
  }

  /** All the psql calls, none failing. */
  lemma AllCalls(s: State, tid: Tid, job: Job) returns (chain: seq<State>)
    requires tid in s.threads && s.threads[tid].phase == Sql(job, CheckBase) && JobBase(job) in s.dbs
    requires JobFrom(job) != JobBase(job) && JobTo(job) != JobFrom(job) && JobTo(job) != JobBase(job)
    ensures Chained(chain, tid) && |chain| > 0 && chain[0] == s
    ensures var last := chain[|chain| - 1];
            && last.dbs == Swapped(s.dbs, JobBase(job), JobFrom(job), JobTo(job))
            && last.records == s.records && last.threads.Keys == s.threads.Keys
            && last.threads[tid].site == s.threads[tid].site && last.threads[tid].phase == Recording(job)
  {
    hide Step, Enabled, Chained, JobBase, JobFrom, JobTo, Swapped;
    var parking := ParkingCalls(s, tid, job);
    var bringing := BringingCalls(parking[|parking| - 1], tid, job);
    chain := parking + bringing[1..];
    Chain(parking, bringing, tid);
    SwapInTwo(s.dbs, JobBase(job), JobFrom(job), JobTo(job));
  }

  lemma SaveRecords(s: State, tid: Tid, job: Job)
    requires tid in s.threads && s.threads[tid].phase == Recording(job) && s.threads[tid].site in s.records
    ensures var s' := Step(s, Save(tid));
            && s'.ops.None? && s'.dbs == s.dbs && s'.threads.Keys == s.threads.Keys
            && s'.records == s.records[s.threads[tid].site := Record(Some(job.base), Some(job.to), job.recordPort)]
  {
  }

  /** A chain of successful psql calls, then the record. */
  lemma {:induction false} CallsThenSave(s: State, chain: seq<State>, tid: Tid) returns (es: seq<Event>)
    requires |chain| > 0 && chain[0] == s && Chained(chain, tid)
    requires tid in chain[|chain| - 1].threads && chain[|chain| - 1].threads[tid].phase.Recording?
    ensures Possible(s, es) && |es| > 0 && Run(s, es) == Step(chain[|chain| - 1], Save(tid))
    decreases |chain|
  {
    hide SqlStep, NamesUsable;
    if |chain| == 1 {
      NothingMore(Step(s, Save(tid)));
      Prepend(s, Save(tid), []);
      es := [Save(tid)] + [];
    } else {
      es := CallsThenSave(chain[1], chain[1..], tid);
      Prepend(s, Psql(tid, true), es);
      es := [Psql(tid, true)] + es;
    }
  }

  /** A call of `switch` on `site` has somewhere to go, on the server at `port`. */
  ghost predicate CanSwitch(s: State, site: Site, to: Bytes, port: nat) {
    && s.ops.None? && site in s.records && Attached(s.records[site])
    && var base, from := s.records[site].database.value, s.records[site].branch.value;
       from != to && NamesUsable(base, from, to) && GoodNames(base, {from, to}) && (port, base) in s.dbs
  }

  function CallPort(s: State, site: Site, portOverride: Option<nat>): nat
    requires site in s.records
  {
    if portOverride.Some? then portOverride.value else PortOf(s.records[site].port)
  }

  /** The branch a call goes to: the one named, or else the one checked out. */
  function Target(wanted: Option<Bytes>, head: Option<Bytes>): Option<Bytes> {
    match wanted
    case Some(_) => wanted
    case None => head
  }

  /** Called, alone under OPS and past its reading. */
  lemma SwitchBegins(s: State, tid: Tid, site: Site, wanted: Option<Bytes>, head: Option<Bytes>, portOverride: Option<nat>,
                     to: Bytes) returns (next: State)
    requires Target(wanted, head) == Some(to) && tid !in s.threads && site in s.records
    requires CanSwitch(s, site, to, CallPort(s, site, portOverride))
    ensures var es := [Call(tid, site, wanted, portOverride)] + ([Lock(tid)] + [Read(tid, head, true)]);
      Possible(s, es) && Run(s, es) == next
    ensures var r := s.records[site];
      && next.dbs == s.dbs && next.records == s.records && next.threads.Keys == s.threads.Keys + {tid}
      && next.threads[tid].site == site
      && next.threads[tid].phase == Sql(Job(r.database.value, r.branch.value, to, CallPort(s, site, portOverride), r.port), CheckBase)
  {
    hide NamesUsable, GoodNames, Possible, Run;
    var s1 := Step(s, Call(tid, site, wanted, portOverride));
    var s2 := Step(s1, Lock(tid));
    next := Step(s2, Read(tid, head, true));
    NothingMore(next);
    Prepend(s2, Read(tid, head, true), []);
    assert [Read(tid, head, true)] + [] == [Read(tid, head, true)];
    Prepend(s1, Lock(tid), [Read(tid, head, true)]);
    Prepend(s, Call(tid, site, wanted, portOverride), [Lock(tid)] + [Read(tid, head, true)]);
  }

  /** A call that finds OPS free is answered without a psql call, with nothing changed
      and OPS free again, exactly when the site is not linked or not attached, no branch
      is named or checked out, that branch is live already, or, for another one, no
      server answers or one of the three names cannot be quoted. Only being there
      already is a success. The calls go to the port asked for, else the recorded one,
      else 5432. */
  lemma AnsweredAtOnceIff(s: State, tid: Tid, site: Site, wanted: Option<Bytes>, head: Option<Bytes>,
                          portOverride: Option<nat>, portOpen: bool)
    requires s.ops.None? && tid !in s.threads
    ensures var es := [Call(tid, site, wanted, portOverride)] + ([Lock(tid)] + [Read(tid, head, portOpen)]);
      Possible(s, es)
      && var next := Run(s, es); var r := if site in s.records then s.records[site] else Record(None, None, None);
         var to := Target(wanted, head);
         && next.dbs == s.dbs && next.records == s.records && next.threads.Keys == s.threads.Keys + {tid}
         && var phase := next.threads[tid].phase;
            && (phase.Done? || phase.Sql?) && (next.ops.None? <==> phase.Done?)
            && (phase == Done(true) <==> Attached(r) && to == r.branch)
            && (phase.Sql? <==>
                  && Attached(r) && to.Some? && to != r.branch && portOpen && SafeIdentifier(r.database.value)
                  && SafeIdentifier(ParkedName(r.database.value, r.branch.value))
                  && SafeIdentifier(ParkedName(r.database.value, to.value)))
            && (phase.Sql? ==>
                  phase.job.port == (if portOverride.Some? then portOverride.value
                                     else if r.port.Some? then r.port.value else 5432))
  {
    hide Possible, Run, SafeIdentifier, ParkedName;
    var s1 := Step(s, Call(tid, site, wanted, portOverride));
    var s2 := Step(s1, Lock(tid));
    var next := Step(s2, Read(tid, head, portOpen));
    NothingMore(next);
    Prepend(s2, Read(tid, head, portOpen), []);
    assert [Read(tid, head, portOpen)] + [] == [Read(tid, head, portOpen)];
    Prepend(s1, Lock(tid), [Read(tid, head, portOpen)]);
    Prepend(s, Call(tid, site, wanted, portOverride), [Lock(tid)] + [Read(tid, head, portOpen)]);
  }

  lemma JobKeys(base: Bytes, from: Bytes, to: Bytes, port: nat, recordPort: Option<nat>)
    requires from != to && GoodNames(base, {from, to})
    ensures var j := Job(base, from, to, port, recordPort);
      && JobBase(j) == (port, base) && JobFrom(j) == (port, ParkedName(base, from)) && JobTo(j) == (port, ParkedName(base, to))
      && JobFrom(j) != JobBase(j) && JobTo(j) != JobFrom(j) && JobTo(j) != JobBase(j)
  {
    hide ParkedName;
    assert from in {from, to} && to in {from, to};
  }

  /** Started in any state with OPS free, and with nobody else about, a switch to the
      branch named, or else to the one checked out, swaps the two parked databases
      through the base, drops whatever copy of the live branch was parked before, and
      records the branch. */
  lemma UndisturbedSwitch(s: State, tid: Tid, site: Site, wanted: Option<Bytes>, head: Option<Bytes>,
                          portOverride: Option<nat>, to: Bytes) returns (es: seq<Event>)
    requires Target(wanted, head) == Some(to) && tid !in s.threads && site in s.records
    requires CanSwitch(s, site, to, CallPort(s, site, portOverride))
    ensures Possible(s, es) && [Call(tid, site, wanted, portOverride)] + ([Lock(tid)] + [Read(tid, head, true)]) <= es
    ensures var end := Run(s, es); var r := s.records[site]; var port := CallPort(s, site, portOverride);
            var base := r.database.value;
            && end.ops.None? && end.threads.Keys == s.threads.Keys + {tid}
            && end.records == s.records[site := r.(branch := Some(to))]
            && end.dbs == Swapped(s.dbs, (port, base), (port, ParkedName(base, r.branch.value)), (port, ParkedName(base, to)))
  {
    hide NamesUsable, GoodNames, Possible, Run, ParkedName, Chained, Swapped, Step, JobBase, JobFrom, JobTo, Target;
    var r, port := s.records[site], CallPort(s, site, portOverride);
    var next := SwitchBegins(s, tid, site, wanted, head, portOverride, to);
    var job := Job(r.database.value, r.branch.value, to, port, r.port);
    JobKeys(r.database.value, r.branch.value, to, port, r.port);
    var chain := AllCalls(next, tid, job);
    var calls := CallsThenSave(next, chain, tid);
    SaveRecords(chain[|chain| - 1], tid, job);
    var begin := [Call(tid, site, wanted, portOverride)] + ([Lock(tid)] + [Read(tid, head, true)]);
    RunConcat(s, begin, calls);
    es := begin + calls;
  }

  // ---- the hazards ----

  /** A switch given another server's port records its branch all the same: the
      site's own base still holds the old branch's data, under the new branch's
      name. Hence the obligation in `Fair`. */
  lemma ForeignPortMisrecords(base: Bytes, from: Bytes, to: Bytes, home: Option<nat>, port: nat, mine: Data, theirs: Data)
    returns (es: seq<Event>)
    requires port != PortOf(home) && from != to && NamesUsable(base, from, to) && GoodNames(base, {from, to})
    ensures var r := Record(Some(base), Some(from), home);
            var s := State(None, map["site" := r], map[], map[(PortOf(home), base) := mine, (port, base) := theirs]);
            && Possible(s, es) && Run(s, es).ops.None?
            && "site" in Run(s, es).records && Run(s, es).records["site"].branch == Some(to)
            && (PortOf(home), base) in Run(s, es).dbs && Run(s, es).dbs[(PortOf(home), base)] == mine
            && (PortOf(home), ParkedName(base, from)) !in Run(s, es).dbs
  {
    hide NamesUsable, Possible, Run, ParkedName;
    var r := Record(Some(base), Some(from), home);
    var s := State(None, map["site" := r], map[], map[(PortOf(home), base) := mine, (port, base) := theirs]);
    es := UndisturbedSwitch(s, 0, "site", Some(to), None, Some(port), to);
  }

  /** Two branches whose parked names collide share one parked database: a first
      visit to `b` makes `a`'s data live under `b`'s name, and `a` has no parked
      copy any more. Hence the names in a plan must be good. */
  lemma CollidingNamesMixBranches(base: Bytes, live: Bytes, a: Bytes, b: Bytes, home: Option<nat>, mine: Data, theirs: Data)
    returns (es: seq<Event>)
    requires a != b && ParkedName(base, a) == ParkedName(base, b)
    requires live != b && NamesUsable(base, live, b) && GoodNames(base, {live, b})
    ensures var r := Record(Some(base), Some(live), home);
            var s := State(None, map["site" := r], map[],
                           map[(PortOf(home), base) := mine, (PortOf(home), ParkedName(base, a)) := theirs]);
            && Possible(s, es) && Run(s, es).ops.None?
            && "site" in Run(s, es).records && Run(s, es).records["site"].branch == Some(b)
            && (PortOf(home), base) in Run(s, es).dbs && Run(s, es).dbs[(PortOf(home), base)] == theirs
            && (PortOf(home), ParkedName(base, a)) !in Run(s, es).dbs
  {
    hide NamesUsable, Possible, Run, ParkedName;
    var r := Record(Some(base), Some(live), home);
    var s := State(None, map["site" := r], map[],
                   map[(PortOf(home), base) := mine, (PortOf(home), ParkedName(base, a)) := theirs]);
    es := UndisturbedSwitch(s, 0, "site", Some(b), None, None, b);
  }

  /** Two sites attached to one database, as two links to one checkout are. */
  ghost predicate Shared(s: State, x: Site, y: Site) {
    && x != y && x in s.records && y in s.records && Attached(s.records[x]) && Attached(s.records[y])
    && BaseKey(s.records[x]) == BaseKey(s.records[y]) && s.records[x].branch == s.records[y].branch
  }

  /** In every state where two sites share a database: once both have followed a
      checkout to a branch parked before, the branch they left is gone. The second
      switch still takes it for the live one, so it drops its good parked copy and
      parks the other branch's data in its place. */
  lemma SharedBaseLosesABranch(s: State, x: Site, y: Site, to: Bytes, t: Tid, u: Tid) returns (es: seq<Event>)
    requires Shared(s, x, y) && t != u && t !in s.threads && u !in s.threads
    requires CanSwitch(s, x, to, PortOf(s.records[x].port)) && ParkKey(s.records[x], to) in s.dbs
    ensures Possible(s, es)
    ensures var end := Run(s, es); var r := s.records[x]; var from := ParkKey(r, r.branch.value);
            var theirs := s.dbs[ParkKey(r, to)];
            && end.ops.None? && x in end.records && y in end.records
            && end.records[x].branch == Some(to) && end.records[y].branch == Some(to)
            && end.dbs == (s.dbs - {ParkKey(r, to)})[from := theirs][BaseKey(r) := theirs]
            && (theirs != s.dbs[BaseKey(r)] && (forall k | k in s.dbs && k != BaseKey(r) && k != from :: s.dbs[k] != s.dbs[BaseKey(r)])
                ==> forall k | k in end.dbs :: end.dbs[k] != s.dbs[BaseKey(r)])
  {
    hide NamesUsable, Possible, Run, ParkedName;
    var first := UndisturbedSwitch(s, t, x, Some(to), None, None, to);
    var s1 := Run(s, first);
    var second := UndisturbedSwitch(s1, u, y, Some(to), None, None, to);
    es := first + second;
    RunConcat(s, first, second);
  }

  /** The same on a first visit, as soon as the application has written to the new
      branch's copy. */
  lemma SharedBaseOverwritesABranch(s: State, x: Site, y: Site, to: Bytes, work: Data, t: Tid, u: Tid)
    returns (es: seq<Event>)
    requires Shared(s, x, y) && t != u && t !in s.threads && u !in s.threads
    requires CanSwitch(s, x, to, PortOf(s.records[x].port))
    ensures Possible(s, es)
    ensures var end := Run(s, es); var r := s.records[x];
            && end.ops.None? && x in end.records && y in end.records
            && end.records[x].branch == Some(to) && end.records[y].branch == Some(to)
            && end.dbs == (s.dbs - {ParkKey(r, to)})[ParkKey(r, r.branch.value) := work][BaseKey(r) := work]
  {
    hide NamesUsable, Possible, Run, ParkedName;
    var first := UndisturbedSwitch(s, t, x, Some(to), None, None, to);
    var s1 := Run(s, first);
    var write := Write(x, work);
    var s2 := Step(s1, write);
    var second := UndisturbedSwitch(s2, u, y, Some(to), None, None, to);
    Prepend(s1, write, second);
    es := first + ([write] + second);
    RunConcat(s, first, [write] + second);
  }

  /** Nor can a base be called what another site's branch is parked as: the first
      switch to that branch takes the base away. */
  lemma NestedBaseIsTaken(s: State, x: Site, y: Site, to: Bytes, t: Tid) returns (es: seq<Event>)
    requires x != y && t !in s.threads && x in s.records && CanSwitch(s, x, to, PortOf(s.records[x].port))
    requires y in s.records && Attached(s.records[y]) && BaseKey(s.records[y]) == ParkKey(s.records[x], to)
    requires BaseKey(s.records[y]) in s.dbs
    ensures Possible(s, es)
    ensures var end := Run(s, es);
            && end.ops.None? && y in end.records && end.records[y] == s.records[y]
            && BaseKey(s.records[y]) !in end.dbs
            && BaseKey(s.records[x]) in end.dbs && end.dbs[BaseKey(s.records[x])] == s.dbs[BaseKey(s.records[y])]
  {
    hide NamesUsable, Possible, Run, ParkedName;
    es := UndisturbedSwitch(s, t, x, Some(to), None, None, to);
  }

  /** Nor must there be a parked copy of the branch a site is attached on, as
      detaching, checking that branch out and attaching again leaves: the first
      switch drops it. */
  lemma ReattachingLosesABranch(s: State, x: Site, to: Bytes, t: Tid) returns (es: seq<Event>)
    requires t !in s.threads && x in s.records && CanSwitch(s, x, to, PortOf(s.records[x].port))
    requires var r := s.records[x]; var stale := ParkKey(r, r.branch.value);
      stale in s.dbs && forall k | k in s.dbs && k != stale :: s.dbs[k] != s.dbs[stale]
    ensures Possible(s, es)
    ensures var end := Run(s, es);
            && end.ops.None?
            && forall k | k in end.dbs :: end.dbs[k] != s.dbs[ParkKey(s.records[x], s.records[x].branch.value)]
  {
    hide NamesUsable, Possible, Run, ParkedName;
    es := UndisturbedSwitch(s, t, x, Some(to), None, None, to);
  }
}
