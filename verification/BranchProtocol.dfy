/** Branch switches as concurrent threads: the `OPS` mutex, the registry record
    each switch reads and later writes, and one psql call per step, with
    applications writing to their base databases at any moment. */
module BranchProtocol {
  import opened Wrappers
  import opened Names
  import opened Catalog

  type Site = string
  type Tid = nat
  /** A database on the server listening on a port. */
  type Key = (nat, Bytes)

  const DEFAULT_PORT: nat := 5432

  /** What the registry stores for a linked site. */
  datatype Record = Record(database: Option<Bytes>, branch: Option<Bytes>, port: Option<nat>)

  /** What a switch has read once it starts its psql calls. */
  datatype Job = Job(base: Bytes, from: Bytes, to: Bytes, port: nat, recordPort: Option<nat>)

  datatype Phase =
    | Waiting              // for OPS
    | Reading              // OPS held, registry not read yet
    | Sql(job: Job, pc: Pc)
    | Recording(job: Job)  // switched, not recorded yet
    | Done(ok: bool)

  /** A call of `switch`. `wanted` and `portOverride` are its arguments. */
  datatype Thread = Thread(site: Site, wanted: Option<Bytes>, portOverride: Option<nat>, phase: Phase)

  datatype State = State(
    ops: Option<Tid>,
    records: map<Site, Record>,
    threads: map<Tid, Thread>,
    dbs: map<Key, Data>)

  datatype Event =
    | Call(tid: Tid, site: Site, wanted: Option<Bytes>, portOverride: Option<nat>)
    | Lock(tid: Tid)
    | Read(tid: Tid, head: Option<Bytes>, portOpen: bool)
    | Psql(tid: Tid, ok: bool)
    | Save(tid: Tid)
    | Write(site: Site, data: Data)

  // ---- the steps ----

  function PortOf(port: Option<nat>): nat {
    match port case Some(p) => p case None => DEFAULT_PORT
  }

  predicate Attached(r: Record) {
    r.database.Some? && r.branch.Some?
  }

  function BaseKey(r: Record): Key
    requires Attached(r)
  {
    (PortOf(r.port), r.database.value)
  }

  /** Where a site's branch is parked. */
  function ParkKey(r: Record, branch: Bytes): Key
    requires Attached(r)
  {
    (PortOf(r.port), ParkedName(r.database.value, branch))
  }

  function JobBase(j: Job): Key { (j.port, j.base) }
  function JobFrom(j: Job): Key { (j.port, ParkedName(j.base, j.from)) }
  function JobTo(j: Job): Key { (j.port, ParkedName(j.base, j.to)) }

  predicate NamesUsable(base: Bytes, from: Bytes, to: Bytes) {
    SafeIdentifier(base) && SafeIdentifier(ParkedName(base, from)) && SafeIdentifier(ParkedName(base, to))
  }

  /** What a switch does after reading the registry: finish at once, or start
      its psql calls. */
  function AfterRead(records: map<Site, Record>, t: Thread, head: Option<Bytes>, portOpen: bool): Phase {
    if t.site !in records then Done(false) else
    var r := records[t.site];
    var to := if t.wanted.Some? then t.wanted else head;
    if r.database.None? || to.None? || r.branch.None? then Done(false) else
    if r.branch == to then Done(true) else
    if !portOpen || !NamesUsable(r.database.value, r.branch.value, to.value) then Done(false) else
    var port := if t.portOverride.Some? then t.portOverride.value else PortOf(r.port);
    Sql(Job(r.database.value, r.branch.value, to.value, port, r.port), CheckBase)
  }

  function Moved(s: State, tid: Tid, phase: Phase): State
    requires tid in s.threads
  {
    s.(threads := s.threads[tid := s.threads[tid].(phase := phase)],
       ops := if phase.Done? then None else s.ops)
  }

  predicate Enabled(s: State, e: Event) {
    match e
    case Call(tid, _, _, _) => tid !in s.threads
    case Lock(tid) => tid in s.threads && s.threads[tid].phase.Waiting? && s.ops.None?
    case Read(tid, _, _) => tid in s.threads && s.threads[tid].phase.Reading?
    case Psql(tid, _) => tid in s.threads && s.threads[tid].phase.Sql? && !Finished(s.threads[tid].phase.pc)
    case Save(tid) => tid in s.threads && s.threads[tid].phase.Recording?
    case Write(site, _) => site in s.records && Attached(s.records[site]) && BaseKey(s.records[site]) in s.dbs
  }

  function PsqlResult(s: State, tid: Tid, ok: bool): (Pc, map<Key, Data>)
    requires Enabled(s, Psql(tid, ok))
  {
    var p := s.threads[tid].phase;
    SqlStep(p.pc, s.dbs, JobBase(p.job), JobFrom(p.job), JobTo(p.job), ok)
  }

  function Step(s: State, e: Event): State
    requires Enabled(s, e)
  {
    match e
    case Call(tid, site, wanted, portOverride) =>
      s.(threads := s.threads[tid := Thread(site, wanted, portOverride, Waiting)])
    case Lock(tid) =>
      s.(threads := s.threads[tid := s.threads[tid].(phase := Reading)], ops := Some(tid))
    case Read(tid, head, portOpen) =>
      Moved(s, tid, AfterRead(s.records, s.threads[tid], head, portOpen))
    case Psql(tid, ok) =>
      var (pc, dbs') := PsqlResult(s, tid, ok);
      var job := s.threads[tid].phase.job;
      Moved(s.(dbs := dbs'), tid,
            if pc.Failed? then Done(false) else if pc.Switched? then Recording(job) else Sql(job, pc))
    case Save(tid) =>
      var t := s.threads[tid];
      if t.site !in s.records then Moved(s, tid, Done(false)) else
      var job := t.phase.job;
      Moved(s.(records := s.records[t.site := Record(Some(job.base), Some(job.to), job.recordPort)]), tid, Done(true))
    case Write(site, data) =>
      s.(dbs := s.dbs[BaseKey(s.records[site]) := data])
  }

  ghost predicate Possible(s: State, es: seq<Event>)
    decreases |es|
  {
    es == [] || (Enabled(s, es[0]) && Possible(Step(s, es[0]), es[1..]))
  }

  function Run(s: State, es: seq<Event>): State
    requires Possible(s, es)
    decreases |es|
  {
    if es == [] then s else Run(Step(s, es[0]), es[1..])
  }

  // ---- the specification: a map from branch to data, and the live branch ----

  datatype Spec = Spec(live: Bytes, data: map<Bytes, Data>)

  datatype Op = Switch(site: Site, to: Bytes) | Store(site: Site, data: Data)

  function Apply(sp: Spec, op: Op): Spec {
    match op
    case Switch(_, to) =>
      if to in sp.data then sp.(live := to)
      else if sp.live in sp.data then Spec(to, sp.data[to := sp.data[sp.live]])
      else sp
    case Store(_, d) => sp.(data := sp.data[sp.live := d])
  }

  function ApplyAll(sps: map<Site, Spec>, ops: seq<Op>): map<Site, Spec>
    decreases |ops|
  {
    if ops == [] then sps
    else if ops[0].site !in sps then ApplyAll(sps, ops[1..])
    else ApplyAll(sps[ops[0].site := Apply(sps[ops[0].site], ops[0])], ops[1..])
  }

  /** The specification-level operation a step carries out, if any: a switch
      takes effect at its last psql call. */
  function Effect(s: State, e: Event): seq<Op>
    requires Enabled(s, e)
  {
    match e
    case Psql(tid, ok) =>
      if PsqlResult(s, tid, ok).0.Switched? then [Switch(s.threads[tid].site, s.threads[tid].phase.job.to)] else []
    case Write(site, data) => [Store(site, data)]
    case _ => []
  }

  function Effects(s: State, es: seq<Event>): seq<Op>
    requires Possible(s, es)
    decreases |es|
  {
    if es == [] then [] else Effect(s, es[0]) + Effects(Step(s, es[0]), es[1..])
  }

  // ---- what a run may assume ----

  /** For each attached site, the branches its run may visit. */
  type Plan = map<Site, set<Bytes>>

  ghost function Family(r: Record, branches: set<Bytes>): set<Key>
    requires Attached(r)
  {
    {BaseKey(r)} + set b | b in branches :: ParkKey(r, b)
  }

  /** The sites in `own` have their databases to themselves. What the other
      attached sites share with each other does not matter. */
  ghost predicate Apart(records: map<Site, Record>, plan: Plan, own: set<Site>) {
    && (forall x | x in records && Attached(records[x]) :: x in plan && records[x].branch.value in plan[x])
    && (forall x | x in own :: x in records && Attached(records[x]) && GoodNames(records[x].database.value, plan[x]))
    && (forall x, y | x in own && y in records && x != y && Attached(records[y]) ::
          Family(records[x], plan[x]) !! Family(records[y], plan[y]))
  }

  /** The caller obligations of an event: branches the plan knows, and a port
      override only if it names the server the site is recorded on. */
  ghost predicate Fair(s: State, e: Event, plan: Plan) {
    match e
    case Call(_, site, wanted, portOverride) =>
      && (wanted.Some? && site in plan ==> wanted.value in plan[site])
      && (portOverride.Some? && site in s.records ==> portOverride.value == PortOf(s.records[site].port))
    case Read(tid, head, _) =>
      tid in s.threads && head.Some? && s.threads[tid].site in plan ==> head.value in plan[s.threads[tid].site]
    case _ => true
  }

  ghost predicate AllFair(s: State, es: seq<Event>, plan: Plan)
    requires Possible(s, es)
    decreases |es|
  {
    es == [] || (Fair(s, es[0], plan) && AllFair(Step(s, es[0]), es[1..], plan))
  }

  // ---- how the catalog represents the specification ----

  ghost predicate ParkedMatch(r: Record, branches: set<Bytes>, sp: Spec, dbs: map<Key, Data>, b: Bytes)
    requires Attached(r)
  {
    var k := ParkKey(r, b);
    (k in dbs <==> b in sp.data) && (b in sp.data && k in dbs ==> dbs[k] == sp.data[b])
  }

  /** Every branch's data is under its parked name, except that the live one's
      is in the base while the base exists. */
  ghost predicate Represents(r: Record, branches: set<Bytes>, sp: Spec, dbs: map<Key, Data>)
    requires Attached(r)
  {
    && sp.live in branches && sp.live in sp.data && sp.data.Keys <= branches
    && (forall b | b in branches && b != sp.live :: ParkedMatch(r, branches, sp, dbs, b))
    && var park := ParkKey(r, sp.live);
       if BaseKey(r) in dbs
       then dbs[BaseKey(r)] == sp.data[sp.live] && park !in dbs
       else park in dbs && dbs[park] == sp.data[sp.live]
  }

  predicate Critical(p: Phase) {
    !p.Waiting? && !p.Done?
  }

  /** Where the thread inside `OPS` stands. */
  ghost predicate ThreadOk(s: State, sps: map<Site, Spec>, plan: Plan, tid: Tid)
    requires tid in s.threads
  {
    var t := s.threads[tid];
    && (t.wanted.Some? && t.site in plan ==> t.wanted.value in plan[t.site])
    && (t.portOverride.Some? && t.site in s.records ==> t.portOverride.value == PortOf(s.records[t.site].port))
    && (Critical(t.phase) ==> s.ops == Some(tid))
    && (t.phase.Sql? || t.phase.Recording? ==>
          && t.site in s.records && Attached(s.records[t.site]) && t.site in plan
          && var r := s.records[t.site];
             var j := t.phase.job;
             && j.base == r.database.value && j.port == PortOf(r.port) && j.recordPort == r.port
             && r.branch == Some(j.from) && j.to in plan[t.site] && j.to != j.from
             && (t.site in sps && t.phase.Recording? ==> sps[t.site].live == j.to)
             && (t.site in sps && t.phase.Sql? ==> sps[t.site].live == j.from && PcOk(s.dbs, j, t.phase.pc)))
  }

  /** What the catalog looks like before each psql call. */
  ghost predicate PcOk(dbs: map<Key, Data>, j: Job, pc: Pc) {
    match pc
    case CheckBase => true
    case Evict => JobBase(j) in dbs
    case CheckFrom => JobBase(j) in dbs
    case DropFrom => false
    case Park => JobBase(j) in dbs
    case CheckTo => JobBase(j) !in dbs
    case EvictTo => JobBase(j) !in dbs && JobTo(j) in dbs
    case Restore => JobBase(j) !in dbs && JobTo(j) in dbs
    case Clone => JobBase(j) !in dbs && JobTo(j) !in dbs
    case Switched(_) => false
    case Failed => false
  }

  predicate RecordingAt(s: State, site: Site) {
    s.ops.Some? && s.ops.value in s.threads
    && s.threads[s.ops.value].phase.Recording? && s.threads[s.ops.value].site == site
  }

  /** `sps` has the specification of every site that has its databases to itself;
      the others may do what they like with theirs. */
  ghost predicate Inv(s: State, sps: map<Site, Spec>, plan: Plan) {
    && Apart(s.records, plan, sps.Keys)
    && (s.ops.Some? ==> s.ops.value in s.threads && Critical(s.threads[s.ops.value].phase))
    && (forall tid | tid in s.threads :: ThreadOk(s, sps, plan, tid))
    && (forall x | x in sps ::
          && Represents(s.records[x], plan[x], sps[x], s.dbs)
          && (!RecordingAt(s, x) ==> s.records[x].branch == Some(sps[x].live)))
  }

  // ---- every step keeps the invariant ----

  lemma Untouched(r: Record, branches: set<Bytes>, sp: Spec, dbs: map<Key, Data>, dbs': map<Key, Data>)
    requires Attached(r) && Represents(r, branches, sp, dbs)
    requires forall k | k in Family(r, branches) :: (k in dbs <==> k in dbs') && (k in dbs ==> dbs[k] == dbs'[k])
    ensures Represents(r, branches, sp, dbs')
  {
    assert BaseKey(r) in Family(r, branches);
    forall b | b in branches
      ensures ParkKey(r, b) in Family(r, branches)
    {
    }
    forall b | b in branches && b != sp.live
      ensures ParkedMatch(r, branches, sp, dbs', b)
    {
      assert ParkedMatch(r, branches, sp, dbs, b);
      assert ParkKey(r, b) in Family(r, branches);
    }
    assert ParkKey(r, sp.live) in Family(r, branches);
  }

  /** The job a switch on this record's site may hold. */
  ghost predicate JobFor(r: Record, branches: set<Bytes>, sp: Spec, j: Job) {
    && Attached(r) && GoodNames(r.database.value, branches)
    && j.base == r.database.value && j.port == PortOf(r.port) && sp.live == j.from
    && j.from in branches && j.to in branches && j.to != j.from
  }

  /** A job's three databases and the parked copy of any branch: which are the
      same. */
  lemma JobNames(r: Record, branches: set<Bytes>, sp: Spec, j: Job, b: Bytes)
    requires JobFor(r, branches, sp, j) && b in branches
    ensures var k := ParkKey(r, b);
            && JobBase(j) == BaseKey(r) && k != JobBase(j) && k in Family(r, branches)
            && (k == JobFrom(j) <==> b == j.from) && (k == JobTo(j) <==> b == j.to)
    ensures JobBase(j) in Family(r, branches)
  {
    hide ParkedName;
  }

  /** What a represented specification says of a job's three databases. */
  lemma JobView(r: Record, branches: set<Bytes>, sp: Spec, dbs: map<Key, Data>, j: Job)
    requires JobFor(r, branches, sp, j) && Represents(r, branches, sp, dbs)
    ensures JobBase(j) == BaseKey(r) && JobFrom(j) != JobBase(j) && JobTo(j) != JobBase(j) && JobFrom(j) != JobTo(j)
    ensures {JobBase(j), JobFrom(j), JobTo(j)} <= Family(r, branches)
    ensures if JobBase(j) in dbs then JobFrom(j) !in dbs && dbs[JobBase(j)] == sp.data[j.from]
            else JobFrom(j) in dbs && dbs[JobFrom(j)] == sp.data[j.from]
    ensures JobTo(j) in dbs <==> j.to in sp.data
    ensures JobTo(j) in dbs ==> dbs[JobTo(j)] == sp.data[j.to]
  {
    hide ParkedName, GoodNames, Family;
    JobNames(r, branches, sp, j, j.from);
    JobNames(r, branches, sp, j, j.to);
    assert ParkedMatch(r, branches, sp, dbs, j.to);
  }

  lemma ParkKeeps(r: Record, branches: set<Bytes>, sp: Spec, dbs: map<Key, Data>, j: Job)
    requires JobFor(r, branches, sp, j) && Represents(r, branches, sp, dbs) && JobBase(j) in dbs
    ensures Represents(r, branches, sp, Renamed(dbs, JobBase(j), JobFrom(j)))
  {
    hide ParkedName, GoodNames, Family;
    JobView(r, branches, sp, dbs, j);
    JobNames(r, branches, sp, j, j.from);
    forall b | b in branches && b != sp.live
      ensures ParkedMatch(r, branches, sp, Renamed(dbs, JobBase(j), JobFrom(j)), b)
    {
      assert ParkedMatch(r, branches, sp, dbs, b);
      JobNames(r, branches, sp, j, b);
    }
  }

  lemma RestoreKeeps(r: Record, branches: set<Bytes>, sp: Spec, dbs: map<Key, Data>, j: Job)
    requires JobFor(r, branches, sp, j) && Represents(r, branches, sp, dbs) && JobBase(j) !in dbs && JobTo(j) in dbs
    ensures Represents(r, branches, sp.(live := j.to), Renamed(dbs, JobTo(j), JobBase(j)))
    ensures j.to in sp.data
  {
    hide ParkedName, GoodNames, Family;
    JobView(r, branches, sp, dbs, j);
    JobNames(r, branches, sp, j, j.from);
    JobNames(r, branches, sp, j, j.to);
    forall b | b in branches && b != j.to
      ensures ParkedMatch(r, branches, sp.(live := j.to), Renamed(dbs, JobTo(j), JobBase(j)), b)
    {
      assert b != sp.live ==> ParkedMatch(r, branches, sp, dbs, b);
      JobNames(r, branches, sp, j, b);
    }
  }

  lemma CloneKeeps(r: Record, branches: set<Bytes>, sp: Spec, dbs: map<Key, Data>, j: Job)
    requires JobFor(r, branches, sp, j) && Represents(r, branches, sp, dbs) && JobBase(j) !in dbs && JobTo(j) !in dbs
    ensures JobFrom(j) in dbs && j.to !in sp.data
    ensures Represents(r, branches, Spec(j.to, sp.data[j.to := sp.data[j.from]]), dbs[JobBase(j) := dbs[JobFrom(j)]])
  {
    hide ParkedName, GoodNames, Family;
    JobView(r, branches, sp, dbs, j);
    JobNames(r, branches, sp, j, j.from);
    JobNames(r, branches, sp, j, j.to);
    var after := Spec(j.to, sp.data[j.to := sp.data[j.from]]);
    forall b | b in branches && b != j.to
      ensures ParkedMatch(r, branches, after, dbs[JobBase(j) := dbs[JobFrom(j)]], b)
    {
      assert b != sp.live ==> ParkedMatch(r, branches, sp, dbs, b);
      JobNames(r, branches, sp, j, b);
    }
  }

  /** One psql call keeps the catalog representing the specification; the last
      call of a switch is where the specification switches. */
  lemma PsqlKeepsData(r: Record, branches: set<Bytes>, sp: Spec, dbs: map<Key, Data>, j: Job, pc: Pc, ok: bool)
    requires Attached(r) && Represents(r, branches, sp, dbs) && GoodNames(r.database.value, branches)
    requires j.base == r.database.value && j.port == PortOf(r.port) && sp.live == j.from
    requires j.to in branches && j.to != j.from && !Finished(pc) && PcOk(dbs, j, pc)
    ensures var (pc', dbs') := SqlStep(pc, dbs, JobBase(j), JobFrom(j), JobTo(j), ok);
            var sp' := if pc'.Switched? then Apply(sp, Switch("", j.to)) else sp;
            && Represents(r, branches, sp', dbs')
            && (Finished(pc') || PcOk(dbs', j, pc'))
            && (pc'.Switched? ==> sp'.live == j.to)
            && (forall k | k !in Family(r, branches) :: (k in dbs <==> k in dbs') && (k in dbs ==> dbs[k] == dbs'[k]))
  {
    assert JobFor(r, branches, sp, j);
    hide JobFor, Represents, GoodNames, Family, JobBase, JobFrom, JobTo;
    JobView(r, branches, sp, dbs, j);
    if ok {
      match pc
      case Park => ParkKeeps(r, branches, sp, dbs, j);
      case Restore => RestoreKeeps(r, branches, sp, dbs, j);
      case Clone => CloneKeeps(r, branches, sp, dbs, j);
      case _ =>
    }
  }

  lemma CallKeeps(s: State, sps: map<Site, Spec>, plan: Plan, e: Event)
    requires Inv(s, sps, plan) && Enabled(s, e) && Fair(s, e, plan)
    requires e.Call? || e.Lock? || e.Read?
    ensures Inv(Step(s, e), sps, plan)
  {
    hide Represents, Family, GoodNames, NamesUsable;
    var s' := Step(s, e);
    forall tid | tid in s'.threads
      ensures ThreadOk(s', sps, plan, tid)
    {
      CallKeepsThread(s, sps, plan, e, tid);
    }
    forall x | x in sps
      ensures !RecordingAt(s', x) ==> s'.records[x].branch == Some(sps[x].live)
    {
      assert !RecordingAt(s', x) ==> !RecordingAt(s, x);
    }
  }

  lemma CallKeepsThread(s: State, sps: map<Site, Spec>, plan: Plan, e: Event, tid: Tid)
    requires Inv(s, sps, plan) && Enabled(s, e) && Fair(s, e, plan)
    requires e.Call? || e.Lock? || e.Read?
    requires tid in Step(s, e).threads
    ensures ThreadOk(Step(s, e), sps, plan, tid)
  {
    hide Represents, Family, GoodNames, NamesUsable;
    if tid in s.threads {
      assert ThreadOk(s, sps, plan, tid);
      if e.Read? && tid == e.tid {
        assert s.ops == Some(tid);
      }
    }
  }

  lemma SaveKeepsThread(s: State, sps: map<Site, Spec>, plan: Plan, tid: Tid, t: Tid)
    requires Inv(s, sps, plan) && Enabled(s, Save(tid)) && t in s.threads
    ensures ThreadOk(Step(s, Save(tid)), sps, plan, t)
  {
    hide Represents, GoodNames, PcOk, Family, Apart;
    assert ThreadOk(s, sps, plan, t) && ThreadOk(s, sps, plan, tid);
  }

  lemma SaveKeepsSite(s: State, sps: map<Site, Spec>, plan: Plan, tid: Tid, x: Site)
    requires Inv(s, sps, plan) && Enabled(s, Save(tid)) && x in sps
    ensures var s' := Step(s, Save(tid));
            && x in s'.records && Attached(s'.records[x]) && x in plan && s'.dbs == s.dbs
            && s'.records[x].database == s.records[x].database && s'.records[x].port == s.records[x].port
            && Represents(s'.records[x], plan[x], sps[x], s'.dbs) && s'.records[x].branch == Some(sps[x].live)
  {
    hide Represents, GoodNames, PcOk, Family;
    assert ThreadOk(s, sps, plan, tid);
    var site := s.threads[tid].site;
    assert RecordingAt(s, site);
    assert x != site ==> !RecordingAt(s, x);
    Relabelled(s.records[x], Step(s, Save(tid)).records[x], plan[x], sps[x], s.dbs);
  }

  lemma SaveKeepsKeys(s: State, sps: map<Site, Spec>, plan: Plan, tid: Tid)
    requires Inv(s, sps, plan) && Enabled(s, Save(tid))
    ensures var s' := Step(s, Save(tid));
            && s'.records.Keys == s.records.Keys && s'.threads.Keys == s.threads.Keys && s'.ops.None?
            && forall x | x in s.records ::
                 && (Attached(s'.records[x]) <==> Attached(s.records[x]))
                 && s'.records[x].database == s.records[x].database && s'.records[x].port == s.records[x].port
                 && (s'.records[x] == s.records[x] || (Attached(s'.records[x]) && x in plan && s'.records[x].branch.value in plan[x]))
  {
    hide Represents, GoodNames, PcOk, Family, Apart;
    assert ThreadOk(s, sps, plan, tid);
  }

  lemma SameFamilies(records: map<Site, Record>, records': map<Site, Record>, plan: Plan, own: set<Site>)
    requires Apart(records, plan, own) && records'.Keys == records.Keys
    requires forall x | x in records ::
               && (Attached(records'[x]) <==> Attached(records[x]))
               && records'[x].database == records[x].database && records'[x].port == records[x].port
               && (records'[x] == records[x] || (Attached(records'[x]) && x in plan && records'[x].branch.value in plan[x]))
    ensures Apart(records', plan, own)
  {
    hide GoodNames;
    forall x | x in records && Attached(records[x])
      ensures x in plan && Family(records'[x], plan[x]) == Family(records[x], plan[x])
    {
    }
    hide Family;
  }

  lemma SaveKeeps(s: State, sps: map<Site, Spec>, plan: Plan, tid: Tid)
    requires Inv(s, sps, plan) && Enabled(s, Save(tid))
    ensures Inv(Step(s, Save(tid)), sps, plan)
  {
    hide Represents, GoodNames, PcOk, ThreadOk, Apart, Step, Critical;
    var s' := Step(s, Save(tid));
    SaveKeepsKeys(s, sps, plan, tid);
    forall x | x in sps
      ensures x in s'.records && x in plan && Attached(s'.records[x]) && s'.records[x].branch == Some(sps[x].live)
      ensures Represents(s'.records[x], plan[x], sps[x], s'.dbs)
    {
      SaveKeepsSite(s, sps, plan, tid, x);
    }
    forall t | t in s'.threads
      ensures ThreadOk(s', sps, plan, t)
    {
      SaveKeepsThread(s, sps, plan, tid, t);
    }
    SameFamilies(s.records, s'.records, plan, sps.Keys);
  }

  /** The branch a record names does not matter to what the catalog holds. */
  lemma Relabelled(r: Record, r': Record, branches: set<Bytes>, sp: Spec, dbs: map<Key, Data>)
    requires Attached(r) && Attached(r') && r'.database == r.database && r'.port == r.port
    requires Represents(r, branches, sp, dbs)
    ensures Represents(r', branches, sp, dbs)
  {
    forall b | b in branches && b != sp.live
      ensures ParkedMatch(r', branches, sp, dbs, b)
    {
      assert ParkedMatch(r, branches, sp, dbs, b);
    }
  }

  lemma WriteLeavesOthers(s: State, sps: map<Site, Spec>, plan: Plan, site: Site, data: Data, x: Site)
    requires Inv(s, sps, plan) && Enabled(s, Write(site, data)) && x in sps && x != site
    ensures Represents(s.records[x], plan[x], sps[x], Step(s, Write(site, data)).dbs)
  {
    hide Represents, GoodNames, ThreadOk;
    assert BaseKey(s.records[site]) in Family(s.records[site], plan[site]);
    assert Family(s.records[x], plan[x]) !! Family(s.records[site], plan[site]);
    hide Family;
    Untouched(s.records[x], plan[x], sps[x], s.dbs, Step(s, Write(site, data)).dbs);
  }

  lemma WriteKeeps(s: State, sps: map<Site, Spec>, plan: Plan, site: Site, data: Data)
    requires Inv(s, sps, plan) && Enabled(s, Write(site, data)) && site in sps
    ensures Inv(Step(s, Write(site, data)), sps[site := Apply(sps[site], Store(site, data))], plan)
  {
    hide Represents, GoodNames;
    var s' := Step(s, Write(site, data));
    var sps' := sps[site := Apply(sps[site], Store(site, data))];
    forall tid | tid in s'.threads
      ensures ThreadOk(s', sps', plan, tid)
    {
      WriteKeepsThread(s, sps, plan, site, data, tid);
    }
    forall x | x in sps'
      ensures Represents(s'.records[x], plan[x], sps'[x], s'.dbs)
      ensures !RecordingAt(s', x) ==> s'.records[x].branch == Some(sps'[x].live)
    {
      assert RecordingAt(s', x) == RecordingAt(s, x);
      assert BaseKey(s.records[site]) in Family(s.records[site], plan[site]);
      if x != site {
        WriteLeavesOthers(s, sps, plan, site, data, x);
      } else {
        WriteKeepsData(s.records[x], plan[x], sps[x], s.dbs, data);
      }
    }
  }

  /** A write to a database that other attached sites share. */
  lemma WriteElsewhere(s: State, sps: map<Site, Spec>, plan: Plan, site: Site, data: Data)
    requires Inv(s, sps, plan) && Enabled(s, Write(site, data)) && site !in sps
    ensures Inv(Step(s, Write(site, data)), sps, plan)
  {
    hide Represents, GoodNames, Family;
    var s' := Step(s, Write(site, data));
    forall tid | tid in s'.threads
      ensures ThreadOk(s', sps, plan, tid)
    {
      WriteElsewhereThread(s, sps, plan, site, data, tid);
    }
    hide ThreadOk;
    forall x | x in sps
      ensures Represents(s'.records[x], plan[x], sps[x], s'.dbs)
      ensures !RecordingAt(s', x) ==> s'.records[x].branch == Some(sps[x].live)
    {
      assert RecordingAt(s', x) == RecordingAt(s, x);
      WriteLeavesOthers(s, sps, plan, site, data, x);
    }
  }

  lemma WriteElsewhereThread(s: State, sps: map<Site, Spec>, plan: Plan, site: Site, data: Data, tid: Tid)
    requires Inv(s, sps, plan) && Enabled(s, Write(site, data)) && site !in sps && tid in s.threads
    ensures ThreadOk(Step(s, Write(site, data)), sps, plan, tid)
  {
    hide Represents, GoodNames, Family;
    assert ThreadOk(s, sps, plan, tid);
  }

  lemma WriteKeepsThread(s: State, sps: map<Site, Spec>, plan: Plan, site: Site, data: Data, tid: Tid)
    requires Inv(s, sps, plan) && Enabled(s, Write(site, data)) && site in sps && tid in s.threads
    ensures ThreadOk(Step(s, Write(site, data)), sps[site := Apply(sps[site], Store(site, data))], plan, tid)
  {
    hide Represents, GoodNames, Family;
    assert ThreadOk(s, sps, plan, tid);
  }

  lemma WriteKeepsData(r: Record, branches: set<Bytes>, sp: Spec, dbs: map<Key, Data>, data: Data)
    requires Attached(r) && Represents(r, branches, sp, dbs) && GoodNames(r.database.value, branches) && BaseKey(r) in dbs
    ensures Represents(r, branches, sp.(data := sp.data[sp.live := data]), dbs[BaseKey(r) := data])
  {
    forall b | b in branches && b != sp.live
      ensures ParkedMatch(r, branches, sp.(data := sp.data[sp.live := data]), dbs[BaseKey(r) := data], b)
    {
      assert ParkedMatch(r, branches, sp, dbs, b);
    }
  }

  /** The thread inside OPS changed only its own site's databases. */
  lemma Advance(s: State, sps: map<Site, Spec>, plan: Plan, tid: Tid, dbs': map<Key, Data>, phase': Phase, sp': Spec)
    requires Inv(s, sps, plan) && tid in s.threads && s.threads[tid].phase.Sql? && s.threads[tid].site in sps
    requires ThreadOk(s, sps, plan, tid)
    requires var t := s.threads[tid];
             var r := s.records[t.site];
             && Represents(r, plan[t.site], sp', dbs')
             && (forall k | k !in Family(r, plan[t.site]) :: (k in s.dbs <==> k in dbs') && (k in s.dbs ==> s.dbs[k] == dbs'[k]))
             && match phase'
                case Done(_) => sp' == sps[t.site]
                case Recording(j) => j == t.phase.job && sp'.live == j.to
                case Sql(j, pc) => j == t.phase.job && sp' == sps[t.site] && PcOk(dbs', j, pc)
                case _ => false
    ensures Inv(Moved(s.(dbs := dbs'), tid, phase'), sps[s.threads[tid].site := sp'], plan)
  {
    hide Represents, Family, GoodNames;
    var t := s.threads[tid];
    var s' := Moved(s.(dbs := dbs'), tid, phase');
    var sps' := sps[t.site := sp'];
    forall u | u in s'.threads
      ensures ThreadOk(s', sps', plan, u)
    {
      AdvanceThread(s, sps, plan, tid, dbs', phase', sp', u);
    }
    forall x | x in sps'
      ensures Represents(s.records[x], plan[x], sps'[x], dbs')
      ensures !RecordingAt(s', x) ==> s.records[x].branch == Some(sps'[x].live)
    {
      AdvanceSite(s, sps, plan, tid, dbs', phase', sp', x);
    }
  }

  lemma AdvanceSite(s: State, sps: map<Site, Spec>, plan: Plan, tid: Tid, dbs': map<Key, Data>, phase': Phase,
                    sp': Spec, x: Site)
    requires Inv(s, sps, plan) && tid in s.threads && s.threads[tid].phase.Sql? && x in sps
    requires s.threads[tid].site in sps
    requires phase'.Recording? || sp' == sps[s.threads[tid].site]
    requires var r := s.records[s.threads[tid].site];
             && (s.threads[tid].site == x ==> Represents(s.records[x], plan[x], sp', dbs'))
             && (forall k | k !in Family(r, plan[s.threads[tid].site]) ::
                   (k in s.dbs <==> k in dbs') && (k in s.dbs ==> s.dbs[k] == dbs'[k]))
    ensures var sps' := sps[s.threads[tid].site := sp'];
            && Represents(s.records[x], plan[x], sps'[x], dbs')
            && (!RecordingAt(Moved(s.(dbs := dbs'), tid, phase'), x) ==> s.records[x].branch == Some(sps'[x].live))
  {
    hide Represents, GoodNames;
    assert !RecordingAt(s, x);
    if x != s.threads[tid].site {
      Untouched(s.records[x], plan[x], sps[x], s.dbs, dbs');
    }
  }

  lemma AdvanceThread(s: State, sps: map<Site, Spec>, plan: Plan, tid: Tid, dbs': map<Key, Data>, phase': Phase,
                      sp': Spec, u: Tid)
    requires Inv(s, sps, plan) && tid in s.threads && s.threads[tid].phase.Sql? && u in s.threads
    requires s.threads[tid].site in sps
    requires match phase'
             case Done(_) => true
             case Recording(j) => j == s.threads[tid].phase.job && sp'.live == j.to
             case Sql(j, pc) => j == s.threads[tid].phase.job && sp' == sps[s.threads[tid].site] && PcOk(dbs', j, pc)
             case _ => false
    ensures ThreadOk(Moved(s.(dbs := dbs'), tid, phase'), sps[s.threads[tid].site := sp'], plan, u)
  {
    hide Represents, Family, GoodNames;
    assert ThreadOk(s, sps, plan, tid) && ThreadOk(s, sps, plan, u);
    if u != tid {
      assert !Critical(s.threads[u].phase);
    }
  }

  lemma PsqlKeepsOwn(s: State, sps: map<Site, Spec>, plan: Plan, tid: Tid, ok: bool)
    requires Inv(s, sps, plan) && Enabled(s, Psql(tid, ok)) && s.threads[tid].site in sps
    ensures Inv(Step(s, Psql(tid, ok)), ApplyAll(sps, Effect(s, Psql(tid, ok))), plan)
  {
    hide Represents, Family, SqlStep, PcOk, GoodNames;
    assert ThreadOk(s, sps, plan, tid);
    var t := s.threads[tid];
    PsqlKeepsData(s.records[t.site], plan[t.site], sps[t.site], s.dbs, t.phase.job, t.phase.pc, ok);
    var (pc, dbs') := PsqlResult(s, tid, ok);
    var sp' := if pc.Switched? then Apply(sps[t.site], Switch("", t.phase.job.to)) else sps[t.site];
    var phase' := if pc.Failed? then Done(false) else if pc.Switched? then Recording(t.phase.job) else Sql(t.phase.job, pc);
    Advance(s, sps, plan, tid, dbs', phase', sp');
    assert sps[t.site := sps[t.site]] == sps;
    assert ApplyAll(sps, Effect(s, Psql(tid, ok))) == sps[t.site := sp'] by {
      OneEffect(sps, Switch(t.site, t.phase.job.to));
    }
  }

  /** A psql call touches its own job's databases only. */
  lemma SqlFrame(pc: Pc, dbs: map<Key, Data>, j: Job, ok: bool, k: Key)
    requires !Finished(pc) && k != JobBase(j) && k != JobFrom(j) && k != JobTo(j)
    ensures var dbs' := SqlStep(pc, dbs, JobBase(j), JobFrom(j), JobTo(j), ok).1;
      (k in dbs <==> k in dbs') && (k in dbs ==> dbs[k] == dbs'[k])
  {
    hide JobBase, JobFrom, JobTo;
  }

  /** Whatever site it is on, a psql call stays within that site's databases. */
  lemma PsqlFrame(s: State, sps: map<Site, Spec>, plan: Plan, tid: Tid, ok: bool, k: Key)
    requires Inv(s, sps, plan) && Enabled(s, Psql(tid, ok))
    requires s.threads[tid].site in s.records && Attached(s.records[s.threads[tid].site])
    requires k !in Family(s.records[s.threads[tid].site], plan[s.threads[tid].site])
    ensures var dbs' := PsqlResult(s, tid, ok).1;
      (k in s.dbs <==> k in dbs') && (k in s.dbs ==> s.dbs[k] == dbs'[k])
  {
    hide Represents, SqlStep, PcOk, GoodNames;
    assert ThreadOk(s, sps, plan, tid);
    SqlFrame(s.threads[tid].phase.pc, s.dbs, s.threads[tid].phase.job, ok, k);
  }

  /** A psql call of a site that shares its databases: the others' are left alone. */
  lemma PsqlElsewhere(s: State, sps: map<Site, Spec>, plan: Plan, tid: Tid, ok: bool)
    requires Inv(s, sps, plan) && Enabled(s, Psql(tid, ok)) && s.threads[tid].site !in sps
    ensures Inv(Step(s, Psql(tid, ok)), sps, plan)
  {
    hide Represents, Family, SqlStep, PcOk, GoodNames;
    assert ThreadOk(s, sps, plan, tid);
    var s' := Step(s, Psql(tid, ok));
    forall u | u in s'.threads
      ensures ThreadOk(s', sps, plan, u)
    {
      assert ThreadOk(s, sps, plan, u);
      assert u != tid ==> !Critical(s.threads[u].phase);
    }
    forall x | x in sps
      ensures Represents(s'.records[x], plan[x], sps[x], s'.dbs)
      ensures !RecordingAt(s', x) ==> s'.records[x].branch == Some(sps[x].live)
    {
      assert !RecordingAt(s, x);
      forall k | k in Family(s.records[x], plan[x])
        ensures (k in s.dbs <==> k in s'.dbs) && (k in s.dbs ==> s.dbs[k] == s'.dbs[k])
      {
        PsqlFrame(s, sps, plan, tid, ok, k);
      }
      Untouched(s.records[x], plan[x], sps[x], s.dbs, s'.dbs);
    }
  }

  lemma NoEffect(sps: map<Site, Spec>, ops: seq<Op>)
    requires forall op | op in ops :: op.site !in sps
    ensures ApplyAll(sps, ops) == sps
    decreases |ops|
  {
    if ops != [] {
      assert ops[0] in ops && forall op | op in ops[1..] :: op in ops;
      NoEffect(sps, ops[1..]);
    }
  }

  lemma OneEffect(sps: map<Site, Spec>, op: Op)
    requires op.site in sps
    ensures ApplyAll(sps, [op]) == sps[op.site := Apply(sps[op.site], op)]
  {
    assert [op][1..] == [];
  }

  /** Every step, whoever takes it, leaves the catalog representing the
      specification with that step's operation applied. */
  lemma StepRefines(s: State, sps: map<Site, Spec>, plan: Plan, e: Event)
    requires Inv(s, sps, plan) && Enabled(s, e) && Fair(s, e, plan)
    ensures Inv(Step(s, e), ApplyAll(sps, Effect(s, e)), plan)
  {
    hide Inv, Apply, Step;
    match e
    case Call(_, _, _, _) => CallKeeps(s, sps, plan, e);
    case Lock(_) => CallKeeps(s, sps, plan, e);
    case Read(_, _, _) => CallKeeps(s, sps, plan, e);
    case Psql(tid, ok) =>
      if s.threads[tid].site in sps {
        PsqlKeepsOwn(s, sps, plan, tid, ok);
      } else {
        PsqlElsewhere(s, sps, plan, tid, ok);
        NoEffect(sps, Effect(s, e));
      }
    case Save(tid) => SaveKeeps(s, sps, plan, tid);
    case Write(site, data) =>
      if site in sps {
        WriteKeeps(s, sps, plan, site, data);
        OneEffect(sps, Store(site, data));
      } else {
        WriteElsewhere(s, sps, plan, site, data);
        NoEffect(sps, Effect(s, e));
      }
  }

  // ---- whole runs ----

  lemma ApplyAllConcat(sps: map<Site, Spec>, a: seq<Op>, b: seq<Op>)
    ensures ApplyAll(sps, a + b) == ApplyAll(ApplyAll(sps, a), b)
    decreases |a|
  {
    if a == [] {
      assert a + b == b;
    } else {
      assert (a + b)[1..] == a[1..] + b;
      ApplyAllConcat(if a[0].site in sps then sps[a[0].site := Apply(sps[a[0].site], a[0])] else sps, a[1..], b);
    }
  }

  /** For every interleaving of switches and writes, with any psql call
      failing, the catalog represents the map from branch to data that the
      completed switches and the writes describe. */
  lemma {:induction false} RunRefines(s: State, sps: map<Site, Spec>, plan: Plan, es: seq<Event>)
    requires Inv(s, sps, plan) && Possible(s, es) && AllFair(s, es, plan)
    ensures Inv(Run(s, es), ApplyAll(sps, Effects(s, es)), plan)
    decreases |es|
  {
    if es != [] {
      StepRefines(s, sps, plan, es[0]);
      RunRefines(Step(s, es[0]), ApplyAll(sps, Effect(s, es[0])), plan, es[1..]);
      ApplyAllConcat(sps, Effect(s, es[0]), Effects(Step(s, es[0]), es[1..]));
    }
  }

  /** Whenever OPS is free and the base exists, the recorded branch is the live
      one and the base holds exactly that branch's data. */
  lemma RecordNamesTheLiveBranch(s: State, sps: map<Site, Spec>, plan: Plan, es: seq<Event>, site: Site)
    requires Inv(s, sps, plan) && Possible(s, es) && AllFair(s, es, plan)
    requires site in sps
    ensures var end := Run(s, es);
            var spec := ApplyAll(sps, Effects(s, es));
            && site in spec && site in end.records && Attached(end.records[site])
            && (end.ops.None? && BaseKey(end.records[site]) in end.dbs ==>
                  var branch := end.records[site].branch.value;
                  && branch == spec[site].live && branch in spec[site].data
                  && end.dbs[BaseKey(end.records[site])] == spec[site].data[branch]
                  && ParkKey(end.records[site], branch) !in end.dbs)
  {
    RunRefines(s, sps, plan, es);
    ApplyAllKeepsSites(sps, Effects(s, es));
  }

  lemma ApplyAllKeepsSites(sps: map<Site, Spec>, ops: seq<Op>)
    ensures ApplyAll(sps, ops).Keys == sps.Keys
    decreases |ops|
  {
    if ops != [] {
      ApplyAllKeepsSites(if ops[0].site in sps then sps[ops[0].site := Apply(sps[ops[0].site], ops[0])] else sps, ops[1..]);
    }
  }

  /** At every moment of every run, mid-switch included, every branch's data is
      in the catalog: under its parked name, or in the base if it is live. */
  lemma NoBranchIsEverLost(s: State, sps: map<Site, Spec>, plan: Plan, es: seq<Event>, site: Site, branch: Bytes)
    requires Inv(s, sps, plan) && Possible(s, es) && AllFair(s, es, plan)
    requires site in sps && branch in sps[site].data
    ensures var end := Run(s, es);
            var spec := ApplyAll(sps, Effects(s, es));
            && site in spec && branch in spec[site].data && site in end.records && Attached(end.records[site])
            && var r := end.records[site];
               var park := ParkKey(r, branch);
               var home := if branch == spec[site].live && BaseKey(r) in end.dbs then BaseKey(r) else park;
               home in end.dbs && end.dbs[home] == spec[site].data[branch]
  {
    RunRefines(s, sps, plan, es);
    var end := Run(s, es);
    var spec := ApplyAll(sps, Effects(s, es));
    ApplyAllKeepsSites(sps, Effects(s, es));
    BranchesOnlyGrow(sps, Effects(s, es), site, branch);
    if branch != spec[site].live {
      assert ParkedMatch(end.records[site], plan[site], spec[site], end.dbs, branch);
    }
  }

  lemma BranchesOnlyGrow(sps: map<Site, Spec>, ops: seq<Op>, site: Site, branch: Bytes)
    requires site in sps && branch in sps[site].data
    ensures site in ApplyAll(sps, ops) && branch in ApplyAll(sps, ops)[site].data
    decreases |ops|
  {
    if ops != [] {
      BranchesOnlyGrow(if ops[0].site in sps then sps[ops[0].site := Apply(sps[ops[0].site], ops[0])] else sps,
                       ops[1..], site, branch);
    }
  }

  /** A branch that is switched away from comes back with exactly the data it
      had: nothing else that happens changes it until it is live again. */
  lemma AwayAndBack(sps: map<Site, Spec>, ops: seq<Op>, site: Site, branch: Bytes)
    requires site in sps && branch in sps[site].data && branch != sps[site].live
    requires forall op | op in ops :: op != Switch(site, branch)
    ensures var after := ApplyAll(sps, ops);
            && site in after && branch in after[site].data && after[site].live != branch
            && after[site].data[branch] == sps[site].data[branch]
            && Apply(after[site], Switch(site, branch)).live == branch
            && Apply(after[site], Switch(site, branch)).data == after[site].data
    decreases |ops|
  {
    if ops != [] {
      assert ops[0] in ops && forall op | op in ops[1..] :: op in ops;
      AwayAndBack(if ops[0].site in sps then sps[ops[0].site := Apply(sps[ops[0].site], ops[0])] else sps,
                  ops[1..], site, branch);
    }
  }

  lemma {:induction false} OthersLeaveSpec(sps: map<Site, Spec>, ops: seq<Op>, site: Site)
    requires site in sps && forall op | op in ops :: op.site != site
    ensures site in ApplyAll(sps, ops) && ApplyAll(sps, ops)[site] == sps[site]
    decreases |ops|
  {
    if ops != [] {
      assert ops[0] in ops && forall op | op in ops[1..] :: op in ops;
      OthersLeaveSpec(if ops[0].site in sps then sps[ops[0].site := Apply(sps[ops[0].site], ops[0])] else sps,
                      ops[1..], site);
    }
  }

  lemma BackInTheSpec(sps: map<Site, Spec>, site: Site, branch: Bytes, other: Bytes, before: seq<Op>, away: seq<Op>)
    requires site in sps && sps[site].live == branch && branch in sps[site].data && other != branch
    requires (forall op | op in before :: op.site != site) && Switch(site, branch) !in away
    ensures var after := ApplyAll(sps, before + [Switch(site, other)] + away + [Switch(site, branch)]);
            && site in after && after[site].live == branch && branch in after[site].data
            && after[site].data[branch] == sps[site].data[branch]
  {
    hide Apply;
    var waited := ApplyAll(sps, before);
    OthersLeaveSpec(sps, before, site);
    var left := ApplyAll(waited, [Switch(site, other)]);
    OneEffect(waited, Switch(site, other));
    LeavesItsData(sps[site], site, other);
    AwayAndBack(left, away, site, branch);
    var back := ApplyAll(left, away);
    OneEffect(back, Switch(site, branch));
    ApplyAllConcat(sps, before, [Switch(site, other)]);
    ApplyAllConcat(sps, before + [Switch(site, other)], away);
    ApplyAllConcat(sps, before + [Switch(site, other)] + away, [Switch(site, branch)]);
  }

  lemma LeavesItsData(sp: Spec, site: Site, other: Bytes)
    requires sp.live in sp.data && other != sp.live
    ensures var after := Apply(sp, Switch(site, other));
            after.live == other && sp.live in after.data && after.data[sp.live] == sp.data[sp.live]
  {
  }

  /** The site whose databases a step may change. */
  ghost function Touched(s: State, e: Event): set<Site>
    requires Enabled(s, e)
  {
    match e
    case Psql(tid, _) => {s.threads[tid].site}
    case Write(site, _) => {site}
    case _ => {}
  }

  lemma StepFrame(s: State, sps: map<Site, Spec>, plan: Plan, e: Event, k: Key)
    requires Inv(s, sps, plan) && Enabled(s, e)
    requires forall x | x in Touched(s, e) && x in s.records && Attached(s.records[x]) :: k !in Family(s.records[x], plan[x])
    ensures k in Step(s, e).dbs <==> k in s.dbs
    ensures k in s.dbs ==> Step(s, e).dbs[k] == s.dbs[k]
  {
    hide SqlStep, Represents, GoodNames;
    if e.Psql? {
      assert ThreadOk(s, sps, plan, e.tid);
      assert s.threads[e.tid].site in Touched(s, e);
      PsqlFrame(s, sps, plan, e.tid, e.ok, k);
    }
    if e.Write? {
      assert e.site in Touched(s, e);
      assert BaseKey(s.records[e.site]) in Family(s.records[e.site], plan[e.site]);
    }
  }

  /** No step moves a site to another base or port. */
  lemma HomesStay(s: State, sps: map<Site, Spec>, plan: Plan, e: Event, site: Site)
    requires Inv(s, sps, plan) && Enabled(s, e) && site in s.records && Attached(s.records[site])
    ensures site in Step(s, e).records && Attached(Step(s, e).records[site])
    ensures Family(Step(s, e).records[site], plan[site]) == Family(s.records[site], plan[site])
    ensures BaseKey(Step(s, e).records[site]) == BaseKey(s.records[site])
    ensures !e.Save? ==> Step(s, e).records == s.records
    ensures e.Save? && s.threads[e.tid].site != site ==> Step(s, e).records[site] == s.records[site]
  {
    hide Represents, GoodNames, PcOk;
    if e.Save? {
      assert ThreadOk(s, sps, plan, e.tid);
    }
  }

  lemma NobodyAttaches(s: State, sps: map<Site, Spec>, plan: Plan, e: Event, site: Site)
    requires Inv(s, sps, plan) && Enabled(s, e)
    requires site in Step(s, e).records && Attached(Step(s, e).records[site])
    ensures site in s.records && Attached(s.records[site])
  {
    hide Represents, GoodNames, PcOk, Family;
    if e.Save? { assert ThreadOk(s, sps, plan, e.tid); }
  }

  lemma {:induction false} BaseStays(s: State, sps: map<Site, Spec>, plan: Plan, es: seq<Event>, site: Site)
    requires Inv(s, sps, plan) && Possible(s, es) && AllFair(s, es, plan) && site in sps
    ensures site in Run(s, es).records && Attached(Run(s, es).records[site])
    ensures BaseKey(Run(s, es).records[site]) == BaseKey(s.records[site])
    decreases |es|
  {
    hide Represents, GoodNames, Family, Fair, Effect, Apply, Step, ThreadOk;
    if es != [] {
      StepRefines(s, sps, plan, es[0]);
      ApplyAllKeepsSites(sps, Effect(s, es[0]));
      HomesStay(s, sps, plan, es[0], site);
      BaseStays(Step(s, es[0]), ApplyAll(sps, Effect(s, es[0])), plan, es[1..], site);
    }
  }

  /** A whole run away and back: a site live on `branch` switches to another
      branch, anything at all is done meanwhile (further switches, writes, failed
      calls, other sites), and it switches back. Its base database then holds
      exactly what it held at the start. */
  lemma ComesBackUnchanged(s: State, sps: map<Site, Spec>, plan: Plan, es: seq<Event>, site: Site, branch: Bytes,
                           other: Bytes, before: seq<Op>, away: seq<Op>)
    requires Inv(s, sps, plan) && Possible(s, es) && AllFair(s, es, plan) && site in sps
    requires s.ops.None? && s.records[site].branch == Some(branch) && BaseKey(s.records[site]) in s.dbs && other != branch
    requires Effects(s, es) == before + [Switch(site, other)] + away + [Switch(site, branch)]
    requires (forall op | op in before :: op.site != site) && Switch(site, branch) !in away
    ensures var end := Run(s, es);
            && site in end.records && Attached(end.records[site])
            && var base := BaseKey(s.records[site]);
               && BaseKey(end.records[site]) == base
               && (end.ops.None? && base in end.dbs ==>
                     end.records[site].branch == Some(branch) && end.dbs[base] == s.dbs[base])
  {
    RecordNamesTheLiveBranch(s, sps, plan, es, site);
    BaseStays(s, sps, plan, es, site);
    assert Represents(s.records[site], plan[site], sps[site], s.dbs) && sps[site].live == branch;
    hide Inv, Represents, Possible, AllFair, Run, Effects;
    BackInTheSpec(sps, site, branch, other, before, away);
  }

  /** Databases that belong to no attached site are never touched, also by sites
      that share theirs. */
  lemma {:induction false} OtherDatabasesAreUntouched(s: State, sps: map<Site, Spec>, plan: Plan, es: seq<Event>, k: Key)
    requires Inv(s, sps, plan) && Possible(s, es) && AllFair(s, es, plan)
    requires forall x | x in s.records && Attached(s.records[x]) :: k !in Family(s.records[x], plan[x])
    ensures k in Run(s, es).dbs <==> k in s.dbs
    ensures k in s.dbs ==> Run(s, es).dbs[k] == s.dbs[k]
    decreases |es|
  {
    if es != [] {
      var e := es[0];
      var s' := Step(s, e);
      StepRefines(s, sps, plan, e);
      ApplyAllKeepsSites(sps, Effect(s, e));
      StepFrame(s, sps, plan, e, k);
      forall x | x in s'.records && Attached(s'.records[x])
        ensures k !in Family(s'.records[x], plan[x])
      {
        NobodyAttaches(s, sps, plan, e, x);
        HomesStay(s, sps, plan, e, x);
      }
      OtherDatabasesAreUntouched(s', ApplyAll(sps, Effect(s, e)), plan, es[1..], k);
    }
  }

  // ---- a switch that died half-way ----

  /** The base is gone and no switch of this site has got past looking for it. */
  ghost predicate Stuck(s: State, site: Site) {
    && site in s.records && Attached(s.records[site]) && BaseKey(s.records[site]) !in s.dbs
    && forall tid | tid in s.threads && s.threads[tid].site == site ::
         !s.threads[tid].phase.Recording? && (s.threads[tid].phase.Sql? ==> s.threads[tid].phase.pc == CheckBase)
  }

  /** Once a failed switch has left the base missing, no later switch changes
      any of that site's databases or its record. */
  lemma MissingBaseStaysMissing(s: State, sps: map<Site, Spec>, plan: Plan, es: seq<Event>, site: Site, k: Key)
    requires Inv(s, sps, plan) && Possible(s, es) && AllFair(s, es, plan)
    requires site in sps && Stuck(s, site) && k in Family(s.records[site], plan[site])
    ensures Stuck(Run(s, es), site) && Run(s, es).records[site] == s.records[site]
    ensures k in Run(s, es).dbs <==> k in s.dbs
    ensures k in s.dbs ==> Run(s, es).dbs[k] == s.dbs[k]
    decreases |es|
  {
    if es != [] {
      var e := es[0];
      StepRefines(s, sps, plan, e);
      ApplyAllKeepsSites(sps, Effect(s, e));
      StuckStep(s, sps, plan, e, site, k);
      MissingBaseStaysMissing(Step(s, e), ApplyAll(sps, Effect(s, e)), plan, es[1..], site, k);
    }
  }

  lemma StuckStep(s: State, sps: map<Site, Spec>, plan: Plan, e: Event, site: Site, k: Key)
    requires Inv(s, sps, plan) && Enabled(s, e) && site in sps && Stuck(s, site)
    requires k in Family(s.records[site], plan[site])
    ensures Stuck(Step(s, e), site) && Step(s, e).records[site] == s.records[site]
    ensures k in Step(s, e).dbs <==> k in s.dbs
    ensures k in s.dbs ==> Step(s, e).dbs[k] == s.dbs[k]
  {
    hide Represents, ThreadOk, GoodNames;
    HomesStay(s, sps, plan, e, site);
    assert BaseKey(s.records[site]) in Family(s.records[site], plan[site]);
    if site !in Touched(s, e) {
      StepFrame(s, sps, plan, e, k);
      StepFrame(s, sps, plan, e, BaseKey(s.records[site]));
    } else if e.Psql? {
      assert ThreadOk(s, sps, plan, e.tid);
    }
    var s' := Step(s, e);
    forall tid | tid in s'.threads && s'.threads[tid].site == site
      ensures !s'.threads[tid].phase.Recording? && (s'.threads[tid].phase.Sql? ==> s'.threads[tid].phase.pc == CheckBase)
    {
      StuckThread(s, sps, plan, e, site, tid);
    }
  }

  lemma StuckThread(s: State, sps: map<Site, Spec>, plan: Plan, e: Event, site: Site, tid: Tid)
    requires Inv(s, sps, plan) && Enabled(s, e) && site in sps && Stuck(s, site)
    requires tid in Step(s, e).threads && Step(s, e).threads[tid].site == site
    ensures var p := Step(s, e).threads[tid].phase;
            !p.Recording? && (p.Sql? ==> p.pc == CheckBase)
  {
    hide Represents, Family, GoodNames;
    if tid in s.threads {
      assert ThreadOk(s, sps, plan, tid);
    }
  }

  // ---- where a run may start ----

  /** What an attached site's databases say before any switch. */
  ghost function Adopted(r: Record, branches: set<Bytes>, dbs: map<Key, Data>): Spec
    requires Attached(r) && BaseKey(r) in dbs
  {
    var live := r.branch.value;
    Spec(live, map b | b in branches && (b == live || ParkKey(r, b) in dbs) ::
                 if b == live then dbs[BaseKey(r)] else dbs[ParkKey(r, b)])
  }

  /** Attaching leaves a state runs may start from: every site that has its
      databases to itself, with no parked copy of its live branch lying around,
      is followed from there. */
  lemma AttachedSitesMayStart(records: map<Site, Record>, dbs: map<Key, Data>, plan: Plan, own: set<Site>)
    requires Apart(records, plan, own)
    requires forall x | x in own :: BaseKey(records[x]) in dbs && ParkKey(records[x], records[x].branch.value) !in dbs
    ensures Inv(State(None, records, map[], dbs), map x | x in own :: Adopted(records[x], plan[x], dbs), plan)
  {
    hide GoodNames, Family, ParkKey;
    forall x | x in own
      ensures Represents(records[x], plan[x], Adopted(records[x], plan[x], dbs), dbs)
    {
    }
  }

  /** Sites attached to plain names: no `@` in a base, and no branch so long that
      its parked name loses the base. */
  ghost predicate Plain(records: map<Site, Record>, plan: Plan) {
    forall x | x in records && Attached(records[x]) ::
      x in plan && records[x].branch.value in plan[x] && PlainBase(records[x].database.value, plan[x])
  }

  ghost predicate PlainBase(base: Bytes, branches: set<Bytes>) {
    AT !in base && forall b | b in branches :: BaseSurvives(base, b)
  }

  /** One name cannot belong to two plain bases. */
  lemma PlainNames(base: Bytes, branches: set<Bytes>, other: Bytes, others: set<Bytes>, name: Bytes)
    requires base != other && PlainBase(base, branches) && PlainBase(other, others)
    requires name == base || exists b | b in branches :: name == ParkedName(base, b)
    ensures name != other && forall b | b in others :: name != ParkedName(other, b)
  {
    hide BaseSurvives, ParkedName;
    forall b | b in others
      ensures name != ParkedName(other, b)
    {
      if name == base {
        ParkedIsNoBase(other, b, base);
      } else {
        var a :| a in branches && name == ParkedName(base, a);
        FamiliesAreDisjoint(base, a, other, b);
      }
    }
    if name != base {
      var a :| a in branches && name == ParkedName(base, a);
      ParkedIsNoBase(base, a, other);
    }
  }

  lemma PlainFamilies(r: Record, branches: set<Bytes>, r': Record, branches': set<Bytes>)
    requires Attached(r) && Attached(r') && BaseKey(r) != BaseKey(r')
    requires PlainBase(r.database.value, branches) && PlainBase(r'.database.value, branches')
    ensures Family(r, branches) !! Family(r', branches')
  {
    hide PlainBase, ParkedName;
    forall k | k in Family(r, branches)
      ensures k !in Family(r', branches')
    {
      if PortOf(r.port) == PortOf(r'.port) {
        PlainNames(r.database.value, branches, r'.database.value, branches', k.1);
      }
    }
  }

  ghost predicate AllFit(r: Record, branches: set<Bytes>)
    requires Attached(r)
  {
    forall b | b in branches :: Fits(r.database.value, b)
  }

  /** With plain names, sites whose branches fit have their databases to themselves
      exactly when nobody else is attached to the same database on the same
      server. */
  lemma ApartIff(records: map<Site, Record>, plan: Plan, own: set<Site>)
    requires Plain(records, plan)
    requires forall x | x in own :: x in records && Attached(records[x]) && AllFit(records[x], plan[x])
    ensures Apart(records, plan, own) <==>
      forall x, y | x in own && y in records && x != y && Attached(records[y]) :: BaseKey(records[x]) != BaseKey(records[y])
  {
    hide Fits, GoodNames, PlainBase;
    forall x | x in own
      ensures GoodNames(records[x].database.value, plan[x])
    {
      FittingNamesAreGood(records[x].database.value, plan[x]);
    }
    forall x, y | x in own && y in records && x != y && Attached(records[y])
      ensures Family(records[x], plan[x]) !! Family(records[y], plan[y]) <==> BaseKey(records[x]) != BaseKey(records[y])
    {
      if BaseKey(records[x]) == BaseKey(records[y]) {
        assert BaseKey(records[x]) in Family(records[x], plan[x]) && BaseKey(records[y]) in Family(records[y], plan[y]);
      } else {
        PlainFamilies(records[x], plan[x], records[y], plan[y]);
      }
    }
  }

  /** The sites that may be trusted to switches, by what can be looked up before
      them: attached to an existing database that nobody else is attached to, no
      parked copy of the live branch, and branches that fit. */
  ghost function Trusted(records: map<Site, Record>, dbs: map<Key, Data>, plan: Plan): set<Site> {
    set x | x in records && Attached(records[x]) && BaseKey(records[x]) in dbs
            && ParkKey(records[x], records[x].branch.value) !in dbs && x in plan && AllFit(records[x], plan[x])
            && forall y | y in records && y != x && Attached(records[y]) :: BaseKey(records[y]) != BaseKey(records[x])
  }

  /** From any registry with plain names, every run refines the branch map of
      every trusted site, whatever the others share. */
  lemma TrustedSitesRefine(records: map<Site, Record>, dbs: map<Key, Data>, plan: Plan, es: seq<Event>)
    requires Plain(records, plan)
    requires Possible(State(None, records, map[], dbs), es) && AllFair(State(None, records, map[], dbs), es, plan)
    ensures var sps := map x | x in Trusted(records, dbs, plan) :: Adopted(records[x], plan[x], dbs);
      Inv(Run(State(None, records, map[], dbs), es),
          ApplyAll(sps, Effects(State(None, records, map[], dbs), es)), plan)
  {
    hide Possible, AllFair, Inv, Run, Effects, Adopted, Apart, ApplyAll, AllFit;
    var own := Trusted(records, dbs, plan);
    ApartIff(records, plan, own);
    AttachedSitesMayStart(records, dbs, plan, own);
    RunRefines(State(None, records, map[], dbs), map x | x in own :: Adopted(records[x], plan[x], dbs), plan, es);
  }
}
