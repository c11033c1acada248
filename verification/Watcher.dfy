/** The checkout watcher: every poll looks at each attached site's HEAD and
    switches its database when the branch changed, remembering per site the
    last HEAD a switch failed for. */
module Watcher {
  import opened Wrappers
  import Names

  type Site = string
  type Branch = Names.Bytes

  /** One look at one site: its HEAD (none when detached), the branch on record,
      and how a switch to that HEAD would turn out. */
  datatype Look = Look(site: Site, head: Option<Branch>, recorded: Option<Branch>, switchOk: bool)

  predicate Tries(failed: map<Site, Branch>, look: Look) {
    && look.head.Some? && look.recorded != look.head
    && !(look.site in failed && failed[look.site] == look.head.value)
  }

  function Next(failed: map<Site, Branch>, look: Look): map<Site, Branch> {
    if look.head.None? then failed
    else if look.recorded == look.head then failed - {look.site}
    else if !Tries(failed, look) then failed
    else if look.switchOk then failed - {look.site}
    else failed[look.site := look.head.value]
  }

  /** What the watcher remembers after these looks. */
  function Remembered(failed: map<Site, Branch>, looks: seq<Look>): map<Site, Branch> {
    if looks == [] then failed else Next(Remembered(failed, looks[..|looks| - 1]), looks[|looks| - 1])
  }

  /** The looks it answers by calling `switch`. */
  function Tried(failed: map<Site, Branch>, looks: seq<Look>): seq<Look> {
    if looks == [] then [] else
    var earlier := looks[..|looks| - 1];
    var last := looks[|looks| - 1];
    Tried(failed, earlier) + if Tries(Remembered(failed, earlier), last) then [last] else []
  }

  class Watch {
    var failed: map<Site, Branch>

    constructor ()
      ensures failed == map[]
    {
      failed := map[];
    }

    /** One pass of the watch loop over the attached sites. */
    method Poll(attached: seq<Look>) returns (tried: seq<Look>)
      modifies this
      ensures failed == Remembered(old(failed), attached)
      ensures tried == Tried(old(failed), attached)
    {
      tried := [];
      for n := 0 to |attached|
        invariant failed == Remembered(old(failed), attached[..n])
        invariant tried == Tried(old(failed), attached[..n])
      {
        var look := attached[n];
        assert attached[..n + 1][..n] == attached[..n];
        if look.head.Some? {
          if look.recorded == look.head {
            failed := failed - {look.site};
          } else if !(look.site in failed && failed[look.site] == look.head.value) {
            tried := tried + [look];
            if look.switchOk {
              failed := failed - {look.site};
            } else {
              failed := failed[look.site := look.head.value];
            }
          }
        }
      }
      assert attached[..|attached|] == attached;
    }
  }

  /** Whether the watcher, started fresh, calls `switch` at its `i`-th look. */
  predicate Attempts(looks: seq<Look>, i: nat)
    requires i < |looks|
  {
    Tries(Remembered(map[], looks[..i]), looks[i])
  }

  // ---- when a failed switch is tried again ----

  ghost predicate FailedAt(looks: seq<Look>, i: nat, site: Site, head: Branch)
    requires i < |looks|
  {
    Attempts(looks, i) && looks[i].site == site && looks[i].head == Some(head) && !looks[i].switchOk
  }

  /** The look sees another named HEAD, or the record caught up. */
  predicate Clears(look: Look, site: Site, head: Branch) {
    look.site == site && look.head.Some? && (look.head != Some(head) || look.recorded == Some(head))
  }

  ghost predicate StandsRefused(looks: seq<Look>, n: nat, site: Site, head: Branch)
    requires n <= |looks|
  {
    exists i :: 0 <= i < n && FailedAt(looks, i, site, head) && forall k | i < k < n :: !Clears(looks[k], site, head)
  }

  /** A refusal stands after one look more exactly when that look made it, or it
      stood before and the look did not clear it. */
  lemma OneMoreLook(looks: seq<Look>, n: nat, site: Site, head: Branch)
    requires n < |looks|
    ensures StandsRefused(looks, n + 1, site, head) <==>
      FailedAt(looks, n, site, head) || (StandsRefused(looks, n, site, head) && !Clears(looks[n], site, head))
  {
    hide Attempts, Clears, FailedAt;
    if FailedAt(looks, n, site, head) { assert StandsRefused(looks, n + 1, site, head); }
    if StandsRefused(looks, n, site, head) && !Clears(looks[n], site, head) {
      var i :| 0 <= i < n && FailedAt(looks, i, site, head) && forall k | i < k < n :: !Clears(looks[k], site, head);
      assert forall k | i < k < n + 1 :: !Clears(looks[k], site, head);
    }
    if StandsRefused(looks, n + 1, site, head) {
      var i :| 0 <= i < n + 1 && FailedAt(looks, i, site, head) && forall k | i < k < n + 1 :: !Clears(looks[k], site, head);
      if i < n { assert StandsRefused(looks, n, site, head); }
    }
  }

  lemma RememberedNext(looks: seq<Look>, n: nat)
    requires n < |looks|
    ensures Remembered(map[], looks[..n + 1]) == Next(Remembered(map[], looks[..n]), looks[n])
  {
    hide Next;
    assert looks[..n + 1][..n] == looks[..n];
  }

  lemma {:induction false} RemembersExactlyRefusals(looks: seq<Look>, n: nat, site: Site, head: Branch)
    requires n <= |looks|
    ensures (site in Remembered(map[], looks[..n]) && Remembered(map[], looks[..n])[site] == head) <==> StandsRefused(looks, n, site, head)
  {
    hide Remembered, StandsRefused;
    if n == 0 {
      NothingRefused(looks, site, head);
    } else {
      RemembersExactlyRefusals(looks, n - 1, site, head);
      RememberedNext(looks, n - 1);
      OneMoreLook(looks, n - 1, site, head);
    }
  }

  lemma NothingRefused(looks: seq<Look>, site: Site, head: Branch)
    ensures Remembered(map[], looks[..0]) == map[] && !StandsRefused(looks, 0, site, head)
  {
    assert looks[..0] == [];
  }

  /** The watcher switches exactly when HEAD is a named branch other than the
      recorded one, unless its last switch to that HEAD failed and neither
      another named HEAD nor a caught-up record has been seen since. */
  lemma AttemptsUnlessRefused(looks: seq<Look>, j: nat)
    requires j < |looks|
    ensures Attempts(looks, j) <==>
      && looks[j].head.Some? && looks[j].recorded != looks[j].head
      && !StandsRefused(looks, j, looks[j].site, looks[j].head.value)
  {
    if looks[j].head.Some? {
      RemembersExactlyRefusals(looks, j, looks[j].site, looks[j].head.value);
    }
  }

  /** Between a failed attempt and the next attempt on the same HEAD, something
      else was seen. */
  lemma NoBlindRetry(looks: seq<Look>, i: nat, j: nat, site: Site, head: Branch)
    requires i < j < |looks|
    requires FailedAt(looks, i, site, head)
    requires Attempts(looks, j) && looks[j].site == site && looks[j].head == Some(head)
    ensures exists k :: i < k < j && Clears(looks[k], site, head)
  {
    AttemptsUnlessRefused(looks, j);
  }
}
