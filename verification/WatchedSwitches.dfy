/** The watcher at work on the protocol: it takes its looks from the registry's
    records, and each attempt is one call of `switch` among everything else that
    goes on. */
module WatchedSwitches {
  import opened Wrappers
  import opened Names
  import opened BranchProtocol
  import W = Watcher

  /** What happens: other events; the watcher reading every attached site's record
      at the start of a round; or its visit to one site of that round, where HEAD
      is `head` and `call` is everything up to the end of the switch it calls (if
      it calls one) on thread `tid`. */
  datatype Act =
    | Meanwhile(es: seq<Event>)
    | Polled
    | Visited(site: Site, head: Option<Bytes>, tid: Tid, call: seq<Event>)

  datatype World = World(now: State, read: State, failed: map<Site, Bytes>, looks: seq<W.Look>)

  /** The branch on record for an attached site. */
  function Recorded(s: State, site: Site): Option<Bytes> {
    if site in s.records && s.records[site].database.Some? then s.records[site].branch else None
  }

  /** The events run thread `tid` from its call to its end. */
  ghost predicate WholeCall(s: State, site: Site, head: Bytes, tid: Tid, es: seq<Event>) {
    && |es| > 0 && es[0] == Call(tid, site, Some(head), None) && Possible(s, es)
    && Ended(Run(s, es), tid)
    && Possible(s, es[..|es| - 1]) && !Ended(Run(s, es[..|es| - 1]), tid)
  }

  predicate Ended(s: State, tid: Tid) {
    tid in s.threads && s.threads[tid].phase.Done?
  }

  predicate Calls(w: World, site: Site, head: Option<Bytes>) {
    W.Tries(w.failed, W.Look(site, head, Recorded(w.read, site), false))
  }

  ghost predicate Allowed(w: World, a: Act) {
    match a
    case Meanwhile(es) => Possible(w.now, es)
    case Polled => true
    case Visited(site, head, tid, call) =>
      if Calls(w, site, head) then WholeCall(w.now, site, head.value, tid, call) else call == []
  }

  ghost function Acted(w: World, a: Act): World
    requires Allowed(w, a)
  {
    match a
    case Meanwhile(es) => w.(now := Run(w.now, es))
    case Polled => w.(read := w.now)
    case Visited(site, head, tid, call) =>
      var after := Run(w.now, call);
      var look := W.Look(site, head, Recorded(w.read, site),
                         tid in after.threads && after.threads[tid].phase == Done(true));
      World(after, w.read, W.Next(w.failed, look), w.looks + [look])
  }

  ghost predicate AllAllowed(w: World, acts: seq<Act>)
    decreases |acts|
  {
    acts == [] || (Allowed(w, acts[0]) && AllAllowed(Acted(w, acts[0]), acts[1..]))
  }

  ghost function Lived(w: World, acts: seq<Act>): World
    requires AllAllowed(w, acts)
    decreases |acts|
  {
    if acts == [] then w else Lived(Acted(w, acts[0]), acts[1..])
  }

  /** What the watcher remembers is what its looks so far leave, so its laws hold
      of every such history. */
  lemma {:induction false} MemoryIsOfTheLooks(w: World, acts: seq<Act>)
    requires AllAllowed(w, acts) && w.failed == W.Remembered(map[], w.looks)
    ensures Lived(w, acts).failed == W.Remembered(map[], Lived(w, acts).looks)
    decreases |acts|
  {
    hide Allowed, W.Next;
    if acts != [] {
      var after := Acted(w, acts[0]);
      if acts[0].Visited? { assert after.looks[..|after.looks| - 1] == w.looks; }
      MemoryIsOfTheLooks(after, acts[1..]);
    }
  }

  // ---- an attempt and its thread ----

  /** The thread is still after the branch it was called for. */
  predicate After(s: State, tid: Tid, site: Site, head: Bytes) {
    && tid in s.threads && s.threads[tid].site == site && s.threads[tid].wanted == Some(head)
    && (s.threads[tid].phase.Sql? || s.threads[tid].phase.Recording? ==> s.threads[tid].phase.job.to == head)
  }

  lemma StaysAfter(s: State, e: Event, tid: Tid, site: Site, head: Bytes)
    requires Enabled(s, e) && After(s, tid, site, head)
    ensures After(Step(s, e), tid, site, head)
  {
    hide NamesUsable, Catalog.SqlStep;
  }

  lemma {:induction false} RunStaysAfter(s: State, es: seq<Event>, tid: Tid, site: Site, head: Bytes)
    requires Possible(s, es) && After(s, tid, site, head)
    ensures After(Run(s, es), tid, site, head)
    decreases |es|
  {
    hide After, Step, Enabled;
    if es != [] {
      StaysAfter(s, es[0], tid, site, head);
      RunStaysAfter(Step(s, es[0]), es[1..], tid, site, head);
    }
  }

  /** The step that ends a thread leaves the branch it was after on record if it
      ends well, and another one, or none, if not. */
  lemma EndTellsTheRecord(s: State, sps: map<Site, Spec>, plan: Plan, e: Event, tid: Tid, site: Site, head: Bytes)
    requires Inv(s, sps, plan) && Enabled(s, e) && After(s, tid, site, head)
    requires !Ended(s, tid) && Ended(Step(s, e), tid)
    ensures Recorded(Step(s, e), site) == Some(head) <==> Step(s, e).threads[tid].phase == Done(true)
  {
    hide NamesUsable, Represents, Catalog.SqlStep, PcOk, Family, GoodNames, Apart;
    assert ThreadOk(s, sps, plan, tid);
  }

  lemma {:induction false} RunInTwo(s: State, es: seq<Event>, n: nat)
    requires Possible(s, es) && n <= |es|
    ensures Possible(s, es[..n]) && Possible(Run(s, es[..n]), es[n..]) && Run(s, es) == Run(Run(s, es[..n]), es[n..])
    decreases n
  {
    hide Step, Enabled;
    if n == 0 {
      assert es[..0] == [] && es[0..] == es;
    } else {
      RunInTwo(Step(s, es[0]), es[1..], n - 1);
      assert es[..n][1..] == es[1..][..n - 1] && es[1..][n - 1..] == es[n..];
    }
  }

  lemma {:induction false} FairInTwo(s: State, es: seq<Event>, plan: Plan, n: nat)
    requires Possible(s, es) && AllFair(s, es, plan) && n <= |es|
    ensures Possible(s, es[..n]) && AllFair(s, es[..n], plan)
    decreases n
  {
    hide Step, Enabled, Fair;
    if n > 0 {
      FairInTwo(Step(s, es[0]), es[1..], plan, n - 1);
      assert es[..n][1..] == es[1..][..n - 1];
    }
  }

  lemma CallIsAfter(s: State, tid: Tid, site: Site, head: Bytes)
    requires Enabled(s, Call(tid, site, Some(head), None))
    ensures var s' := Step(s, Call(tid, site, Some(head), None)); After(s', tid, site, head) && !Ended(s', tid)
  {
  }

  lemma FirstStep(s: State, es: seq<Event>)
    requires Possible(s, es) && es != []
    ensures Enabled(s, es[0]) && Possible(Step(s, es[0]), es[1..]) && Run(s, es) == Run(Step(s, es[0]), es[1..])
  {
  }

  lemma LastStep(s: State, es: seq<Event>)
    requires Possible(s, es) && |es| == 1
    ensures Enabled(s, es[0]) && Run(s, es) == Step(s, es[0])
  {
    assert es[1..] == [];
  }

  lemma CallIsNotAll(s: State, site: Site, head: Bytes, tid: Tid, es: seq<Event>)
    requires WholeCall(s, site, head, tid, es)
    ensures |es| > 1
  {
    hide Step;
    if |es| == 1 {
      LastStep(s, es);
      CallIsAfter(s, tid, site, head);
    }
  }

  /** An attempt succeeds if and only if, when it ends, the record names the HEAD
      it was made for. */
  lemma AttemptTellsTheRecord(s: State, sps: map<Site, Spec>, plan: Plan, site: Site, head: Bytes, tid: Tid, es: seq<Event>)
    requires Inv(s, sps, plan) && WholeCall(s, site, head, tid, es) && AllFair(s, es, plan)
    ensures Recorded(Run(s, es), site) == Some(head) <==> Run(s, es).threads[tid].phase == Done(true)
  {
    hide Inv, After, Ended, Possible, AllFair, Run;
    var n := |es| - 1;
    RunInTwo(s, es, n);
    FairInTwo(s, es, plan, n);
    var before := Run(s, es[..n]);
    RunRefines(s, sps, plan, es[..n]);
    LastStep(before, es[n..]);
    CallIsNotAll(s, site, head, tid, es);
    FirstStep(s, es[..n]);
    CallIsAfter(s, tid, site, head);
    RunStaysAfter(Step(s, es[0]), es[..n][1..], tid, site, head);
    EndTellsTheRecord(before, ApplyAll(sps, Effects(s, es[..n])), plan, es[n], tid, site, head);
  }

  // ---- after a success, and after a failure ----

  /** Nothing in these events puts a branch on the site's record. */
  ghost predicate NotRecorded(s: State, es: seq<Event>, site: Site)
    requires Possible(s, es)
    decreases |es|
  {
    es == [] || ((es[0].Save? ==> s.threads[es[0].tid].site != site) && NotRecorded(Step(s, es[0]), es[1..], site))
  }

  lemma OneLeavesRecord(s: State, e: Event, site: Site)
    requires Enabled(s, e) && (e.Save? ==> s.threads[e.tid].site != site)
    ensures Recorded(Step(s, e), site) == Recorded(s, site)
  {
    hide NamesUsable, Catalog.SqlStep;
  }

  lemma {:induction false} RecordStays(s: State, es: seq<Event>, site: Site)
    requires Possible(s, es) && NotRecorded(s, es, site)
    ensures Recorded(Run(s, es), site) == Recorded(s, site)
    decreases |es|
  {
    hide Recorded, Step, Enabled;
    if es != [] {
      OneLeavesRecord(s, es[0], site);
      RecordStays(Step(s, es[0]), es[1..], site);
    }
  }

  /** Meanwhile nobody else records the site, and no other branch is checked out
      there. */
  ghost predicate Undisturbed(w: World, a: Act, site: Site, head: Bytes)
    requires Allowed(w, a)
  {
    match a
    case Meanwhile(es) => NotRecorded(w.now, es, site)
    case Polled => true
    case Visited(other, found, _, call) =>
      (other == site ==> found.None? || found == Some(head)) && NotRecorded(w.now, call, site)
  }

  ghost predicate AllUndisturbed(w: World, acts: seq<Act>, site: Site, head: Bytes)
    requires AllAllowed(w, acts)
    decreases |acts|
  {
    acts == [] || (Undisturbed(w, acts[0], site, head) && AllUndisturbed(Acted(w, acts[0]), acts[1..], site, head))
  }

  ghost predicate NoCalls(acts: seq<Act>, site: Site) {
    forall a | a in acts && a.Visited? && a.site == site :: a.call == []
  }

  /** The branch is refused: remembered as failed and not on record. */
  predicate Refused(w: World, site: Site, head: Bytes) {
    && site in w.failed && w.failed[site] == head
    && Recorded(w.now, site) != Some(head) && Recorded(w.read, site) != Some(head)
  }

  lemma RefusedStays(w: World, a: Act, site: Site, head: Bytes)
    requires Allowed(w, a) && Undisturbed(w, a, site, head) && Refused(w, site, head)
    ensures Refused(Acted(w, a), site, head)
    ensures a.Visited? && a.site == site ==> a.call == []
  {
    hide Possible, Run, NotRecorded, Recorded;
    match a {
      case Meanwhile(es) => RecordStays(w.now, es, site);
      case Polled =>
      case Visited(_, _, _, call) =>
        if call == [] { NothingRun(w.now); } else { CallIsPossible(w, a); }
        RecordStays(w.now, call, site);
    }
  }

  lemma NothingRun(s: State)
    ensures Possible(s, []) && Run(s, []) == s
  {
  }

  lemma CallIsPossible(w: World, a: Act)
    requires a.Visited? && Allowed(w, a)
    ensures Possible(w.now, a.call)
  {
  }

  /** After an attempt on `head` failed, `switch` is not called for the site again
      until another branch is seen checked out there or somebody else records the
      site. */
  lemma {:induction false} NothingUntilCleared(w: World, acts: seq<Act>, site: Site, head: Bytes)
    requires AllAllowed(w, acts) && AllUndisturbed(w, acts, site, head) && Refused(w, site, head)
    ensures NoCalls(acts, site) && Refused(Lived(w, acts), site, head)
    decreases |acts|
  {
    hide Allowed, Undisturbed, Refused, Acted;
    if acts != [] {
      RefusedStays(w, acts[0], site, head);
      NothingUntilCleared(Acted(w, acts[0]), acts[1..], site, head);
      assert acts == [acts[0]] + acts[1..];
    }
  }

  /** The branch is on record, and was when the watcher last read the records. */
  predicate CaughtUp(w: World, site: Site, head: Bytes) {
    Recorded(w.now, site) == Some(head) == Recorded(w.read, site)
  }

  lemma CaughtUpStays(w: World, a: Act, site: Site, head: Bytes)
    requires Allowed(w, a) && Undisturbed(w, a, site, head) && CaughtUp(w, site, head)
    ensures CaughtUp(Acted(w, a), site, head)
    ensures a.Visited? && a.site == site ==> a.call == []
    ensures a.Visited? && a.site == site && a.head.Some? ==> site !in Acted(w, a).failed
  {
    hide Possible, Run, NotRecorded, Recorded;
    match a {
      case Meanwhile(es) => RecordStays(w.now, es, site);
      case Polled =>
      case Visited(_, _, _, call) =>
        if call == [] { NothingRun(w.now); } else { CallIsPossible(w, a); }
        RecordStays(w.now, call, site);
    }
  }

  lemma {:induction false} NothingWhileCaughtUp(w: World, acts: seq<Act>, site: Site, head: Bytes)
    requires AllAllowed(w, acts) && AllUndisturbed(w, acts, site, head) && CaughtUp(w, site, head)
    ensures NoCalls(acts, site) && CaughtUp(Lived(w, acts), site, head)
    decreases |acts|
  {
    hide Allowed, Undisturbed, CaughtUp, Acted;
    if acts != [] {
      CaughtUpStays(w, acts[0], site, head);
      NothingWhileCaughtUp(Acted(w, acts[0]), acts[1..], site, head);
      assert acts == [acts[0]] + acts[1..];
    }
  }

  lemma FirstAct(w: World, a: Act, more: seq<Act>, site: Site, head: Bytes)
    requires AllAllowed(w, [a] + more) && AllUndisturbed(w, [a] + more, site, head)
    ensures Allowed(w, a) && Undisturbed(w, a, site, head)
    ensures AllAllowed(Acted(w, a), more) && AllUndisturbed(Acted(w, a), more, site, head)
    ensures Lived(w, [a] + more) == Lived(Acted(w, a), more)
  {
    hide Allowed, Undisturbed, Acted;
    assert ([a] + more)[1..] == more;
  }

  /** One attempt to a checkout: once the watcher has called `switch` for a HEAD,
      whether it went through or not, and as long as no other branch is checked out
      there and nobody else records the site, no round after it calls `switch` for
      the site again, and the record names that HEAD throughout if and only if the
      attempt succeeded. */
  lemma OneAttemptACheckout(w: World, sps: map<Site, Spec>, plan: Plan, site: Site, head: Bytes, tid: Tid,
                            call: seq<Event>, more: seq<Act>)
    requires var a := Visited(site, Some(head), tid, call);
      && Allowed(w, a) && Calls(w, site, Some(head)) && Inv(w.now, sps, plan) && AllFair(w.now, call, plan)
      && AllAllowed(Acted(w, a), [Polled] + more) && AllUndisturbed(Acted(w, a), [Polled] + more, site, head)
    ensures var after := Acted(w, Visited(site, Some(head), tid, call));
      && NoCalls(more, site)
      && (Recorded(after.now, site) == Some(head) <==> after.looks[|w.looks|].switchOk)
      && (Recorded(Lived(after, [Polled] + more).now, site) == Some(head) <==> after.looks[|w.looks|].switchOk)
  {
    hide Inv, AllFair, WholeCall, Recorded, AllAllowed, AllUndisturbed, Possible, Lived, NoCalls;
    var after := Acted(w, Visited(site, Some(head), tid, call));
    CallIsPossible(w, Visited(site, Some(head), tid, call));
    AttemptTellsTheRecord(w.now, sps, plan, site, head, tid, call);
    CallerIsKnown(w.now, site, head, tid, call);
    FirstAct(after, Polled, more, site, head);
    var polled := Acted(after, Polled);
    if after.looks[|w.looks|].switchOk {
      NothingWhileCaughtUp(polled, more, site, head);
    } else {
      NothingUntilCleared(polled, more, site, head);
    }
  }

  lemma CallerIsKnown(s: State, site: Site, head: Bytes, tid: Tid, es: seq<Event>)
    requires WholeCall(s, site, head, tid, es)
    ensures Possible(s, es) && tid in Run(s, es).threads
  {
  }
}
