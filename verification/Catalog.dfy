/** The PostgreSQL catalog under a branch switch: one psql call at a time, any
    of which can fail. A failing call changes nothing. */
module Catalog {
  import opened Wrappers
  import opened Names

  /** A database's whole contents. */
  type Data(==, !new, 0)

  // ---- pg_branch_switch as a sequence of psql calls ----

  /** The psql call a switch makes next. */
  datatype Pc =
    | CheckBase   // does the base exist?
    | Evict       // terminate the base's sessions
    | CheckFrom   // is there already a parked copy of `from`?
    | DropFrom    // drop it
    | Park        // rename the base to park `from`
    | CheckTo     // has `to` been parked before?
    | EvictTo     // terminate its sessions
    | Restore     // rename it to the base
    | Clone       // copy `from` into a new base
    | Switched(created: bool)
    | Failed

  predicate Finished(pc: Pc) {
    pc.Switched? || pc.Failed?
  }

  /** ALTER DATABASE from RENAME TO into. */
  function Renamed<K>(cat: map<K, Data>, from: K, into: K): map<K, Data>
    requires from in cat
  {
    (cat - {from})[into := cat[from]]
  }

  /** One psql call: its effect on the catalog and the call that follows.
      `ok` is whether the call itself goes through; PostgreSQL also refuses a
      rename or copy onto an existing name. */
  function SqlStep<K(==)>(pc: Pc, cat: map<K, Data>, base: K, parkFrom: K, parkTo: K, ok: bool)
    : (Pc, map<K, Data>)
    requires !Finished(pc)
  {
    if !ok then (Failed, cat) else
    match pc
    case CheckBase => (if base in cat then Evict else Failed, cat)
    case Evict => (CheckFrom, cat)
    case CheckFrom => (if parkFrom in cat then DropFrom else Park, cat)
    case DropFrom => if parkFrom in cat then (Park, cat - {parkFrom}) else (Failed, cat)
    case Park =>
      if base in cat && parkFrom !in cat then (CheckTo, Renamed(cat, base, parkFrom)) else (Failed, cat)
    case CheckTo => (if parkTo in cat then EvictTo else Clone, cat)
    case EvictTo => (Restore, cat)
    case Restore =>
      if parkTo in cat && base !in cat then (Switched(false), Renamed(cat, parkTo, base)) else (Failed, cat)
    case Clone =>
      if parkFrom in cat && base !in cat then (Switched(true), cat[base := cat[parkFrom]]) else (Failed, cat)
  }

  /** Calls still to come, at most. */
  function Remaining(pc: Pc): nat {
    match pc
    case CheckBase => 9 case Evict => 8 case CheckFrom => 7 case DropFrom => 6 case Park => 5
    case CheckTo => 4 case EvictTo => 3 case Restore => 2 case Clone => 1
    case Switched(_) => 0 case Failed => 0
  }

  /** The whole switch with nothing else running, when `budget` more psql calls
      succeed before one fails. */
  function RunSql<K(==)>(pc: Pc, cat: map<K, Data>, base: K, parkFrom: K, parkTo: K, budget: nat)
    : (Pc, map<K, Data>)
    decreases Remaining(pc)
  {
    if Finished(pc) then (pc, cat) else
    var (next, cat') := SqlStep(pc, cat, base, parkFrom, parkTo, budget > 0);
    RunSql(next, cat', base, parkFrom, parkTo, if budget > 0 then budget - 1 else 0)
  }

  /** The catalog a completed switch leaves. */
  function Swapped<K(==)>(cat: map<K, Data>, base: K, parkFrom: K, parkTo: K): map<K, Data>
    requires base in cat
  {
    var arriving := if parkTo in cat then cat[parkTo] else cat[base];
    (cat - {parkTo})[parkFrom := cat[base]][base := arriving]
  }

  lemma RunOnce<K>(pc: Pc, cat: map<K, Data>, base: K, parkFrom: K, parkTo: K, budget: nat)
    requires !Finished(pc)
    ensures var (next, cat') := SqlStep(pc, cat, base, parkFrom, parkTo, budget > 0);
            RunSql(pc, cat, base, parkFrom, parkTo, budget)
            == if budget == 0 || Finished(next) then (next, cat') else RunSql(next, cat', base, parkFrom, parkTo, budget - 1)
  {
  }

  lemma RunFromCheckFrom<K>(cat: map<K, Data>, base: K, parkFrom: K, parkTo: K, budget: nat)
    requires base != parkFrom && base != parkTo && parkFrom != parkTo && base in cat
    ensures var (pc, after) := RunSql(CheckFrom, cat, base, parkFrom, parkTo, budget);
            && Finished(pc)
            && (pc.Switched? ==> after == Swapped(cat, base, parkFrom, parkTo) && (pc.created <==> parkTo !in cat))
            && (pc.Failed? ==> after == cat || after == cat - {parkFrom} || after == Renamed(cat, base, parkFrom))
            && (budget >= Remaining(CheckFrom) ==> pc.Switched?)
  {
    hide RunSql;
    RunOnce(CheckFrom, cat, base, parkFrom, parkTo, budget);
    if budget > 0 {
      if parkFrom in cat {
        RunOnce(DropFrom, cat, base, parkFrom, parkTo, budget - 1);
        if budget > 1 {
          var dropped := cat - {parkFrom};
          RunFromPark(dropped, base, parkFrom, parkTo, budget - 2);
          assert Swapped(dropped, base, parkFrom, parkTo) == Swapped(cat, base, parkFrom, parkTo);
          assert Renamed(dropped, base, parkFrom) == Renamed(cat, base, parkFrom);
        }
      } else {
        RunFromPark(cat, base, parkFrom, parkTo, budget - 1);
      }
    }
  }

  /** What a switch can leave behind, wherever it stops. */
  lemma SwitchOutcomes<K>(cat: map<K, Data>, base: K, parkFrom: K, parkTo: K, budget: nat)
    requires base != parkFrom && base != parkTo && parkFrom != parkTo
    ensures var (pc, after) := RunSql(CheckBase, cat, base, parkFrom, parkTo, budget);
            && Finished(pc)
            && (base !in cat ==> pc.Failed? && after == cat)
            && (pc.Switched? ==> base in cat && after == Swapped(cat, base, parkFrom, parkTo)
                                 && (pc.created <==> parkTo !in cat))
            && (pc.Failed? && base in cat ==>
                  after == cat || after == cat - {parkFrom} || after == Renamed(cat, base, parkFrom))
            && (budget >= Remaining(CheckBase) && base in cat ==> pc.Switched?)
  {
    hide RunSql, Swapped, Renamed;
    RunOnce(CheckBase, cat, base, parkFrom, parkTo, budget);
    if base in cat && budget > 0 {
      RunOnce(Evict, cat, base, parkFrom, parkTo, budget - 1);
      if budget > 1 { RunFromCheckFrom(cat, base, parkFrom, parkTo, budget - 2); }
    }
  }

  lemma RunFromPark<K>(cat: map<K, Data>, base: K, parkFrom: K, parkTo: K, budget: nat)
    requires base != parkFrom && base != parkTo && parkFrom != parkTo
    requires base in cat
    ensures parkFrom !in cat ==>
      var (pc, after) := RunSql(Park, cat, base, parkFrom, parkTo, budget);
      && Finished(pc)
      && (pc.Switched? ==> after == Swapped(cat, base, parkFrom, parkTo) && (pc.created <==> parkTo !in cat))
      && (pc.Failed? ==> after == cat || after == Renamed(cat, base, parkFrom))
      && (budget >= Remaining(Park) ==> pc.Switched?)
  {
    hide RunSql;
    RunOnce(Park, cat, base, parkFrom, parkTo, budget);
    if parkFrom !in cat && budget > 0 {
      var parked := Renamed(cat, base, parkFrom);
      RunFromCheckTo(parked, base, parkFrom, parkTo, budget - 1);
      if parkTo in cat {
        assert Renamed(parked, parkTo, base) == Swapped(cat, base, parkFrom, parkTo);
      } else {
        assert parked[base := cat[base]] == Swapped(cat, base, parkFrom, parkTo);
      }
    }
  }

  lemma RunFromCheckTo<K>(cat: map<K, Data>, base: K, parkFrom: K, parkTo: K, budget: nat)
    requires base != parkTo && base !in cat && parkFrom in cat
    ensures var (pc, after) := RunSql(CheckTo, cat, base, parkFrom, parkTo, budget);
            && Finished(pc)
            && (pc.Switched? ==> (pc.created <==> parkTo !in cat))
            && (pc.Switched? ==> after == if parkTo in cat then Renamed(cat, parkTo, base) else cat[base := cat[parkFrom]])
            && (pc.Failed? ==> after == cat)
            && (budget >= Remaining(CheckTo) ==> pc.Switched?)
  {
    hide RunSql;
    RunOnce(CheckTo, cat, base, parkFrom, parkTo, budget);
    if budget > 0 && parkTo in cat {
      RunOnce(EvictTo, cat, base, parkFrom, parkTo, budget - 1);
      if budget > 1 { RunOnce(Restore, cat, base, parkFrom, parkTo, budget - 2); }
    } else if budget > 0 {
      RunOnce(Clone, cat, base, parkFrom, parkTo, budget - 1);
    }
  }

  /** A switch cut short from a state without a parked copy of the live branch
      has either done nothing or only moved the live data to its parked name;
      no database's contents are gone. */
  lemma InterruptedSwitchLosesNothing<K>(cat: map<K, Data>, base: K, parkFrom: K, parkTo: K, budget: nat)
    requires base != parkFrom && base != parkTo && parkFrom != parkTo
    requires parkFrom !in cat
    ensures var (pc, after) := RunSql(CheckBase, cat, base, parkFrom, parkTo, budget);
            && (forall n | n in cat && n != base && (n != parkTo || pc.Failed?) :: n in after && after[n] == cat[n])
            && (base in cat ==> exists n | n in {base, parkFrom} :: n in after && after[n] == cat[base])
            && (parkTo in cat && pc.Switched? ==> base in after && after[base] == cat[parkTo])
  {
    SwitchOutcomes(cat, base, parkFrom, parkTo, budget);
    var (pc, after) := RunSql(CheckBase, cat, base, parkFrom, parkTo, budget);
    if base in cat {
      if pc.Failed? && after != Renamed(cat, base, parkFrom) {
        assert after == cat;
        assert base in {base, parkFrom} && base in after;
      } else {
        assert parkFrom in {base, parkFrom} && parkFrom in after;
      }
    }
  }

  /** Once the base is missing, every later switch on it, to or from any
      branch, refuses before it changes anything. */
  lemma MissingBaseRefuses<K>(cat: map<K, Data>, base: K, parkFrom: K, parkTo: K, budget: nat)
    requires base !in cat
    ensures RunSql(CheckBase, cat, base, parkFrom, parkTo, budget) == (Failed, cat)
  {
  }

  // ---- the server itself ----

  datatype Refusal = BadIdentifier | NoSuchDatabase | PsqlFailed

  /** A PostgreSQL server reached through psql. `budget` is how many more calls
      succeed; the one after that fails. */
  class Postgres {
    var dbs: map<Bytes, Data>
    var budget: nat

    method DbExists(name: Bytes) returns (r: Result<bool, Refusal>)
      modifies this`budget
      ensures r == if old(budget) > 0 then Ok(name in dbs) else Err(PsqlFailed)
      ensures budget == if old(budget) > 0 then old(budget) - 1 else 0
    {
      if budget == 0 {
        return Err(PsqlFailed);
      }
      budget := budget - 1;
      return Ok(name in dbs);
    }

    method Terminate(name: Bytes) returns (r: Result<(), Refusal>)
      modifies this`budget
      ensures r == if old(budget) > 0 then Ok(()) else Err(PsqlFailed)
      ensures budget == if old(budget) > 0 then old(budget) - 1 else 0
    {
      if budget == 0 {
        return Err(PsqlFailed);
      }
      budget := budget - 1;
      return Ok(());
    }

    method Drop(name: Bytes) returns (r: Result<(), Refusal>)
      modifies this
      ensures r == if old(budget) > 0 && name in old(dbs) then Ok(()) else Err(PsqlFailed)
      ensures budget == if old(budget) > 0 then old(budget) - 1 else 0
      ensures dbs == if r.Ok? then old(dbs) - {name} else old(dbs)
    {
      if budget == 0 {
        return Err(PsqlFailed);
      }
      budget := budget - 1;
      if name !in dbs {
        return Err(PsqlFailed);
      }
      dbs := dbs - {name};
      return Ok(());
    }

    method Rename(name: Bytes, into: Bytes) returns (r: Result<(), Refusal>)
      modifies this
      ensures r == if old(budget) > 0 && name in old(dbs) && into !in old(dbs) then Ok(()) else Err(PsqlFailed)
      ensures budget == if old(budget) > 0 then old(budget) - 1 else 0
      ensures dbs == if r.Ok? then Renamed(old(dbs), name, into) else old(dbs)
    {
      if budget == 0 {
        return Err(PsqlFailed);
      }
      budget := budget - 1;
      if name !in dbs || into in dbs {
        return Err(PsqlFailed);
      }
      dbs := (dbs - {name})[into := dbs[name]];
      return Ok(());
    }

    method CreateFrom(name: Bytes, template: Bytes) returns (r: Result<(), Refusal>)
      modifies this
      ensures r == if old(budget) > 0 && template in old(dbs) && name !in old(dbs) then Ok(()) else Err(PsqlFailed)
      ensures budget == if old(budget) > 0 then old(budget) - 1 else 0
      ensures dbs == if r.Ok? then old(dbs)[name := old(dbs)[template]] else old(dbs)
    {
      if budget == 0 {
        return Err(PsqlFailed);
      }
      budget := budget - 1;
      if template !in dbs || name in dbs {
        return Err(PsqlFailed);
      }
      dbs := dbs[name := dbs[template]];
      return Ok(());
    }

    /** `pg_branch_switch`: Ok(true) when `to` was cloned, Ok(false) when it was
        swapped in. Unusable names are refused before any psql call. */
    method BranchSwitch(base: Bytes, from: Bytes, to: Bytes) returns (r: Result<bool, Refusal>)
      modifies this
      ensures !(SafeIdentifier(base) && SafeIdentifier(ParkedName(base, from)) && SafeIdentifier(ParkedName(base, to)))
              ==> r == Err(BadIdentifier) && dbs == old(dbs) && budget == old(budget)
      ensures SafeIdentifier(base) && SafeIdentifier(ParkedName(base, from)) && SafeIdentifier(ParkedName(base, to))
              ==> var (pc, after) := RunSql(CheckBase, old(dbs), base, ParkedName(base, from), ParkedName(base, to), old(budget));
                  && dbs == after
                  && (r.Ok? <==> pc.Switched?) && (r.Ok? ==> r.value == pc.created)
    {
      var parkFrom := BranchDbName(base, from);
      var parkTo := BranchDbName(base, to);
      if !SafeIdentifier(base) || !SafeIdentifier(parkFrom) || !SafeIdentifier(parkTo) {
        return Err(BadIdentifier);
      }
      var parked := ParkLive(base, parkFrom, parkTo);
      if parked.Err? {
        return Err(parked.error);
      }
      r := BringLive(base, parkFrom, parkTo);
    }

    /** The first half of a switch: the live data moves to `parkFrom`. */
    method ParkLive(base: Bytes, parkFrom: Bytes, ghost parkTo: Bytes) returns (r: Result<(), Refusal>)
      modifies this
      ensures RunSql(CheckBase, old(dbs), base, parkFrom, parkTo, old(budget))
              == if r.Ok? then RunSql(CheckTo, dbs, base, parkFrom, parkTo, budget) else (Failed, dbs)
    {
      hide RunSql, Renamed;
      RunOnce(CheckBase, dbs, base, parkFrom, parkTo, budget);
      var there := DbExists(base);
      if there.Err? {
        return Err(there.error);
      }
      if !there.value {
        return Err(NoSuchDatabase);
      }
      RunOnce(Evict, dbs, base, parkFrom, parkTo, budget);
      r := Terminate(base);
      if r.Err? {
        return;
      }
      RunOnce(CheckFrom, dbs, base, parkFrom, parkTo, budget);
      var stale := DbExists(parkFrom);
      if stale.Err? {
        return Err(stale.error);
      }
      if stale.value {
        RunOnce(DropFrom, dbs, base, parkFrom, parkTo, budget);
        r := Drop(parkFrom);
        if r.Err? {
          return;
        }
      }
      RunOnce(Park, dbs, base, parkFrom, parkTo, budget);
      r := Rename(base, parkFrom);
    }

    /** The second half: `parkTo`'s data, or a copy of `parkFrom`'s, goes live. */
    method BringLive(base: Bytes, parkFrom: Bytes, parkTo: Bytes) returns (r: Result<bool, Refusal>)
      modifies this
      ensures var (pc, after) := RunSql(CheckTo, old(dbs), base, parkFrom, parkTo, old(budget));
              && dbs == after
              && (r.Ok? <==> pc.Switched?) && (r.Ok? ==> r.value == pc.created)
    {
      var visited := DbExists(parkTo);
      if visited.Err? {
        return Err(visited.error);
      }
      if visited.value {
        var done := Terminate(parkTo);
        if done.Err? {
          return Err(done.error);
        }
        done := Rename(parkTo, base);
        return if done.Ok? then Ok(false) else Err(done.error);
      }
      var done := CreateFrom(base, parkFrom);
      return if done.Ok? then Ok(true) else Err(done.error);
    }

    /** `pg_branch_drop`: Ok(true) when a parked database was dropped. */
    method BranchDrop(base: Bytes, branch: Bytes) returns (r: Result<bool, Refusal>)
      modifies this
      ensures r.Ok? ==> dbs == old(dbs) - {ParkedName(base, branch)} && (r.value <==> ParkedName(base, branch) in old(dbs))
      ensures r.Err? ==> dbs == old(dbs)
      ensures SafeIdentifier(base) && SafeIdentifier(ParkedName(base, branch)) && old(budget) >= 3 ==> r.Ok?
    {
      var park := BranchDbName(base, branch);
      if !SafeIdentifier(base) || !SafeIdentifier(park) {
        return Err(BadIdentifier);
      }
      var there := DbExists(park);
      if there.Err? {
        return Err(there.error);
      }
      if !there.value {
        assert dbs - {park} == dbs;
        return Ok(false);
      }
      var done := Terminate(park);
      if done.Err? {
        return Err(done.error);
      }
      done := Drop(park);
      if done.Err? {
        return Err(done.error);
      }
      return Ok(true);
    }
  }
}
