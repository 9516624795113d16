/** What a smooth cycle achieves. */
module Goals {
  import opened Text
  import opened Models
  import opened Ingress
  import opened MergeFacts
  import opened Planner
  import opened PlanFacts
  import opened PlanTheorems
  import opened Executor
  import opened Effects
  import opened Aftermath
  import opened Sync
  import opened Runs
  import opened Convergence
  import opened Scope
  import opened Fixpoint
  import opened Verdicts
  import Fetch

  /** An active host is routed as planned before any catch-all, and its record is ours wherever the plan claims it. */
  lemma ActiveHostIsServed(m: Memory, w: World, c: Cycle, norm: Fetch.Names, h: string)
    requires Smooth(m, w, c, norm) && IsActive(InputsOf(m, c), h)
    ensures var x, w' := InputsOf(m, c), WorldAfter(m, w, c);
            var root, record := FirstRoot(BeforeFallback(w'.ingress), h), LastRecord(Seen(x, w'.records, norm), h);
            && root.Some? && root.value.service == Some(GivenService(x, h))
                && RequestOf(root.value) == GivenRequest(x, h)
            && record.Some?
            && (if ActiveDns(x, h).action == DCreate || ActiveDns(x, h).action == DUpdate
                then record.value == OurRecord(x, record.value.id, h)
                else record == LastRecord(Seen(x, w.records, norm), h))
  {
    var x := InputsOf(m, c);
    SmoothIsUndisturbed(m, w, c, norm);
    SmoothCompletes(m, w, c, norm);
    IngressAsPlanned(PlanOf(x), w, c.outcome);
    ActiveRootAfter(x, h);
    RequestOfKey(FirstRoot(PlanOf(x).finalRules, h).value, GivenRequest(x, h));
    LastOfActive(x, c.outcome, h);
  }

  /** The record is ours already, or the policy lets us claim it. */
  ghost predicate Claimable(x: Inputs, r: Record) {
    Ours(x, r) || (Nobodys(x, r) && x.cfg.policy != StrictTaggedOnly)
  }

  lemma OurRecordIsOurs(x: Inputs, id: string, h: string)
    requires Trimmed(Tag(x))
    ensures Ours(x, OurRecord(x, id, h)) && OurRecord(x, id, h).proxied == Some(true)
    ensures OurRecord(x, id, h).name == h && OurRecord(x, id, h).id == id
  {
    StripFixesTrimmed(Tag(x));
  }

  lemma LastKeepsId(x: Inputs, outcome: nat -> Outcome, h: string)
    requires Undisturbed(x, outcome) && IsActive(x, h) && LastRecord(x.remote.records, h).Some?
    ensures var after := LastRecord(RecordsAfter(x, outcome), h);
            after.Some? && after.value.id == LastRecord(x.remote.records, h).value.id
  {
    LastAfter(x, outcome, h);
    ActiveKeepsItsLast(x, h);
  }

  lemma ActiveRecordAfter(x: Inputs, outcome: nat -> Outcome, h: string)
    requires Undisturbed(x, outcome) && IsActive(x, h)
    ensures var before, after := LastRecord(x.remote.records, h), LastRecord(RecordsAfter(x, outcome), h);
            && after.Some? && (before.Some? ==> after.value.id == before.value.id)
            && (if before.None? || Claimable(x, before.value)
                then Ours(x, after.value) && after.value.proxied == Some(true) && after.value.name == h
                else after == before)
  {
    LastOfActive(x, outcome, h);
    ActiveDnsExactly(x, h);
    LastRecordIsThere(x.remote.records, h);
    OurRecordIsOurs(x, LastRecord(RecordsAfter(x, outcome), h).value.id, h);
    if LastRecord(x.remote.records, h).Some? { LastKeepsId(x, outcome, h); }
  }

  /**
   * After a smooth cycle every active host has a record; it points here, proxied, under our tag, if there was none or
   * it was ours or nobody's to claim, and is what it was otherwise.
   */
  lemma ActiveRecordIsOurs(m: Memory, w: World, c: Cycle, norm: Fetch.Names, h: string)
    requires Smooth(m, w, c, norm) && IsActive(InputsOf(m, c), h)
    ensures var x, w' := InputsOf(m, c), WorldAfter(m, w, c);
            var before, after := LastRecord(Seen(x, w.records, norm), h), LastRecord(Seen(x, w'.records, norm), h);
            && after.Some? && (before.Some? ==> after.value.id == before.value.id)
            && (if before.None? || Claimable(x, before.value)
                then Ours(x, after.value) && after.value.proxied == Some(true) && after.value.name == h
                else after == before)
  {
    SmoothIsUndisturbed(m, w, c, norm);
    SmoothCompletes(m, w, c, norm);
    ActiveRecordAfter(InputsOf(m, c), c.outcome, h);
  }

  lemma OwnedIsSeen(x: Inputs, r: Record, norm: Fetch.Names)
    requires StatusOf(x, r, false) == Owned && r.id != ""
    ensures Sees(x, r, norm)
  {
  }

  /** No record of the zone under this name is owned. */
  ghost predicate NoneOwned(x: Inputs, zone: seq<Record>, h: string) {
    forall r :: r in zone && r.name == h && r.id != "" ==> StatusOf(x, r, false) != Owned
  }

  lemma NoneOwnedAfter(m: Memory, w: World, c: Cycle, norm: Fetch.Names, h: string)
    requires Smooth(m, w, c, norm) && !IsActive(InputsOf(m, c), h) && h != ""
             && FateOf(InputsOf(m, c), h) == Planner.Remove
    ensures NoneOwned(InputsOf(m, c), WorldAfter(m, w, c).records, h)
  {
    var x, w' := InputsOf(m, c), WorldAfter(m, w, c);
    SmoothIsUndisturbed(m, w, c, norm);
    SmoothCompletes(m, w, c, norm);
    forall r | r in w'.records && r.name == h && r.id != "" ensures StatusOf(x, r, false) != Owned {
      if StatusOf(x, r, false) == Owned {
        OwnedIsSeen(x, r, norm);
        SeenExactly(x, w'.records, norm, r);
        AbsentSurvivor(x, c.outcome, r);
        OwnedIsDropped(x, r);
      }
    }
  }

  /**
   * A host whose time is up keeps no record of ours, and no root but a repeated one; other absent hosts keep
   * theirs.
   */
  lemma AbsentHostIsCleared(m: Memory, w: World, c: Cycle, norm: Fetch.Names, h: string)
    requires Smooth(m, w, c, norm) && !IsActive(InputsOf(m, c), h) && h != ""
    ensures var x, w' := InputsOf(m, c), WorldAfter(m, w, c);
            && (FateOf(x, h) == Planner.Remove ==> NoneOwned(x, w'.records, h))
            && (FateOf(x, h) != Planner.Remove ==>
                  LastRecord(Seen(x, w'.records, norm), h) == LastRecord(Seen(x, w.records, norm), h))
            && FirstRoot(w'.ingress, h) ==
               if OwnsHost(x, h) && FateOf(x, h) == Planner.Remove then FirstRoot(Kept(w.ingress, {}), h)
               else FirstRoot(w.ingress, h)
  {
    var x := InputsOf(m, c);
    SmoothIsUndisturbed(m, w, c, norm);
    SmoothCompletes(m, w, c, norm);
    IngressAsPlanned(PlanOf(x), w, c.outcome);
    LastOfAbsent(x, c.outcome, h);
    AbsentRootAfter(x, h);
    if FateOf(x, h) == Planner.Remove { NoneOwnedAfter(m, w, c, norm, h); }
  }
}
