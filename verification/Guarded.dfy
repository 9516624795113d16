/**
 * After the sudden-drop guard: the cycle it intervened in spares what the settings would have deleted, and the next
 * cycle, no longer guarded, deletes exactly that.
 */
module Guarded {
  import opened Text
  import opened Models
  import opened Ingress
  import opened MergeFacts
  import opened Planner
  import opened PlanFacts
  import opened PlanTheorems
  import opened Executor
  import opened Effects
  import opened Aftermath
  import opened Runs
  import opened Convergence

  /** The same inputs under the settings of the next cycle. */
  function Unguarded(x: Inputs, y: Inputs): Inputs {
    x.(cfg := y.cfg)
  }

  /**
   * A first cycle x without services, under a positive wait and no immediate cleanup, and a next one y that
   * differs, beyond what x did, only in a shorter wait or in immediate cleanup.
   */
  ghost predicate Relaxes(x: Inputs, y: Inputs, outcome: nat -> Outcome) {
    && x.snapshot.origins == []
    && Follows(x, y.(cfg := x.cfg), outcome)
    && y.cfg == x.cfg.(grace := y.cfg.grace, immediate := y.cfg.immediate)
    && !x.cfg.immediate && x.cfg.grace > 0.0 && x.cfg.grace >= y.cfg.grace
  }

  /** Something of the host would have been deleted under the settings, and was not under the guard. */
  ghost predicate Postponed(x: Inputs, u: Inputs, h: string) {
    Lingers(u, h) && FateOf(u, h) == Planner.Remove && FateOf(x, h) != Planner.Remove
  }

  lemma NobodyIsActive(x: Inputs, h: string)
    requires x.snapshot.origins == []
    ensures !IsActive(x, h)
  {
  }

  lemma TombstoneRelaxed(x: Inputs, y: Inputs, outcome: nat -> Outcome, h: string)
    requires Relaxes(x, y, outcome)
    ensures TombstoneMoves(x, x.tombstones, y.tombstones, true, h) && !IsActive(x, h) && !IsActive(y, h)
  {
    NobodyIsActive(x, h);
    assert y.(cfg := x.cfg).tombstones == y.tombstones;
  }

  lemma SameOwner(x: Inputs, y: Inputs, outcome: nat -> Outcome, r: Record)
    requires Relaxes(x, y, outcome)
    ensures StatusOf(y, r, false) == StatusOf(x, r, false) == StatusOf(Unguarded(x, y), r, false)
    ensures Relevant(y, r) == Relevant(x, r) == Relevant(Unguarded(x, y), r)
  {
  }

  // ---------------------------------------------------------------- what was postponed is still there

  lemma PostponedFate(x: Inputs, y: Inputs, outcome: nat -> Outcome, h: string)
    requires Relaxes(x, y, outcome) && Postponed(x, Unguarded(x, y), h)
    ensures FateOf(y, h) == Planner.Remove
    ensures h in x.tombstones ==> h in y.tombstones
  {
    TombstoneRelaxed(x, y, outcome, h);
  }

  lemma RootStays(x: Inputs, y: Inputs, outcome: nat -> Outcome, h: string)
    requires Undisturbed(x, outcome) && Relaxes(x, y, outcome) && FateOf(x, h) != Planner.Remove
    ensures FirstRoot(y.remote.rules, h) == FirstRoot(x.remote.rules, h)
    ensures OwnsHost(y, h) <==> OwnsHost(x, h)
  {
    NobodyIsActive(x, h);
    AbsentRootAfter(x, h);
    OwnsAbsent(x, y.(cfg := x.cfg), outcome, h);
    assert OwnsHost(y, h) <==> OwnsHost(y.(cfg := x.cfg), h);
  }

  lemma RecordStays(x: Inputs, y: Inputs, outcome: nat -> Outcome, r: Record)
    requires Relaxes(x, y, outcome) && FateOf(x, r.name) != Planner.Remove && r in x.remote.records
    ensures r in y.remote.records
  {
    NobodyIsActive(x, r.name);
    assert NewRecord(x, r) == Some(r);
    ImageHas(x, x.remote.records, r);
  }

  lemma StillManaged(x: Inputs, y: Inputs, outcome: nat -> Outcome, r: Record)
    requires Undisturbed(x, outcome) && Relaxes(x, y, outcome) && FateOf(x, r.name) != Planner.Remove
    requires Managed(Unguarded(x, y), r) && (r.name in x.tombstones ==> r.name in y.tombstones)
    ensures Managed(y, r)
  {
    SameOwner(x, y, outcome, r);
    RootStays(x, y, outcome, r.name);
  }

  lemma PostponedLingers(x: Inputs, y: Inputs, outcome: nat -> Outcome, h: string)
    requires Undisturbed(x, outcome) && Relaxes(x, y, outcome) && Postponed(x, Unguarded(x, y), h)
    ensures Lingers(y, h) && FateOf(y, h) == Planner.Remove
  {
    var u := Unguarded(x, y);
    TombstoneRelaxed(x, y, outcome, h);
    PostponedFate(x, y, outcome, h);
    RootStays(x, y, outcome, h);
    assert OwnsHost(u, h) <==> OwnsHost(x, h);
    if r :| LingeringRecord(u, h, r) {
      SameOwner(x, y, outcome, r);
      RecordStays(x, y, outcome, r);
      StillManaged(x, y, outcome, r);
      assert LingeringRecord(y, h, r);
    }
  }

  // ---------------------------------------------------------------- nothing else is deleted

  lemma ManagedMeans(x: Inputs, y: Inputs, outcome: nat -> Outcome, r: Record)
    requires Relaxes(x, y, outcome) && Managed(x, r)
    ensures Managed(Unguarded(x, y), r)
  {
  }

  lemma LingersMeans(x: Inputs, y: Inputs, outcome: nat -> Outcome, h: string)
    requires Relaxes(x, y, outcome) && Lingers(x, h)
    ensures Lingers(Unguarded(x, y), h)
  {
    var u := Unguarded(x, y);
    assert OwnsHost(u, h) <==> OwnsHost(x, h);
    if r :| LingeringRecord(x, h, r) {
      ManagedMeans(x, y, outcome, r);
      assert LingeringRecord(u, h, r);
    }
  }

  /** A record of the next reading was there before, and was not dropped. */
  lemma WasThere(x: Inputs, y: Inputs, outcome: nat -> Outcome, r: Record)
    requires Undisturbed(x, outcome) && Relaxes(x, y, outcome) && r in y.remote.records
    ensures r in x.remote.records && !Dropped(x, r)
  {
    NobodyIsActive(x, r.name);
    AbsentSurvivor(x, outcome, r);
  }

  lemma ManagedBeforehand(x: Inputs, y: Inputs, outcome: nat -> Outcome, r: Record)
    requires Undisturbed(x, outcome) && Relaxes(x, y, outcome) && Managed(y, r)
    ensures Managed(Unguarded(x, y), r) || Lingers(x, r.name)
  {
    SameOwner(x, y, outcome, r);
    TombstoneRelaxed(x, y, outcome, r.name);
    NoNewAbsentRoots(x, r.name);
  }

  lemma LingersBefore(x: Inputs, y: Inputs, outcome: nat -> Outcome, h: string)
    requires Undisturbed(x, outcome) && Relaxes(x, y, outcome) && Lingers(y, h)
    ensures Lingers(Unguarded(x, y), h)
  {
    var u := Unguarded(x, y);
    TombstoneRelaxed(x, y, outcome, h);
    if FirstRoot(y.remote.rules, h).Some? && OwnsHost(y, h) {
      NoNewAbsentRoots(x, h);
      OwnsAbsent(x, y.(cfg := x.cfg), outcome, h);
      assert OwnsHost(y, h) <==> OwnsHost(y.(cfg := x.cfg), h);
      assert OwnsHost(u, h) <==> OwnsHost(x, h);
    } else {
      var r :| LingeringRecord(y, h, r);
      WasThere(x, y, outcome, r);
      SameOwner(x, y, outcome, r);
      ManagedBeforehand(x, y, outcome, r);
      if Managed(u, r) { assert LingeringRecord(u, h, r); } else { LingersMeans(x, y, outcome, h); }
    }
  }

  /** What was removed under the guard does not linger: everything managed under its tombstone went. */
  lemma RemovedIsGone(x: Inputs, y: Inputs, outcome: nat -> Outcome, h: string)
    requires Undisturbed(x, outcome) && Relaxes(x, y, outcome) && Lingers(y, h)
    ensures FateOf(x, h) != Planner.Remove
  {
    if FateOf(x, h) == Planner.Remove {
      TombstoneRelaxed(x, y, outcome, h);
      OwnsAbsent(x, y.(cfg := x.cfg), outcome, h);
      assert OwnsHost(y, h) <==> OwnsHost(y.(cfg := x.cfg), h);
      var r :| LingeringRecord(y, h, r);
      WasThere(x, y, outcome, r);
      SameOwner(x, y, outcome, r);
      assert Managed(x, r);
    }
  }

  lemma FateBefore(x: Inputs, y: Inputs, outcome: nat -> Outcome, h: string)
    requires Relaxes(x, y, outcome) && FateOf(y, h) == Planner.Remove && y.now == x.now
    ensures FateOf(Unguarded(x, y), h) == Planner.Remove
  {
    TombstoneRelaxed(x, y, outcome, h);
  }

  /** What the next cycle deletes is exactly what the guard postponed. */
  lemma PostponedExactly(x: Inputs, y: Inputs, outcome: nat -> Outcome, h: string)
    requires Undisturbed(x, outcome) && Relaxes(x, y, outcome)
    ensures Lingers(y, h) && FateOf(y, h) == Planner.Remove <==> Postponed(x, Unguarded(x, y), h)
  {
    if Postponed(x, Unguarded(x, y), h) { PostponedLingers(x, y, outcome, h); }
    if Lingers(y, h) && FateOf(y, h) == Planner.Remove {
      LingersBefore(x, y, outcome, h);
      RemovedIsGone(x, y, outcome, h);
      FateBefore(x, y, outcome, h);
    }
  }

  // ---------------------------------------------------------------- requests

  lemma CallsAreMutations(plan: Plan, rules: seq<Rule>)
    ensures CallsIn(Steps(plan, Some(rules))) == [] <==> LeavesDnsAlone(plan) && plan.finalRules == rules
  {
    var calls := CallsIn(Steps(plan, Some(rules)));
    if LeavesDnsAlone(plan) {
      OnlyThePut(plan, rules);
    } else {
      var d :| d in plan.dns && !(d.action == DNoop || d.action == DProtect);
      CallsExactly(plan, Some(rules), CallOf(d).value);
    }
  }

  lemma OnlyDeletions(y: Inputs, d: DnsChange)
    requires y.snapshot.dockerOk && y.snapshot.origins == [] && d in PlanOf(y).dns
    ensures d.action == DNoop || d.action == DProtect || d.action == DDelete
  {
    DnsChangeHasPick(DnsPicks(y), d);
    var p :| p in DnsPicks(y) && p.change == d;
    if d.action == DUpdate || d.action == DCreate { WritingVerdictIsActive(y, p); }
    NobodyIsActive(y, d.hostname);
  }

  lemma NoDeletionNoDns(y: Inputs, plan: Plan)
    requires y.snapshot.dockerOk && y.snapshot.origins == [] && plan == PlanOf(y)
    requires forall h :: !PlansDelete(y, h)
    ensures LeavesDnsAlone(plan)
  {
    forall d | d in plan.dns ensures d.action == DNoop || d.action == DProtect {
      OnlyDeletions(y, d);
      assert !PlansDelete(y, d.hostname);
    }
  }

  lemma RootDeletionIsPlanned(y: Inputs, h: string)
    requires y.snapshot.dockerOk
    ensures Action(y, h) == IDelete <==> exists c :: c in PlanOf(y).ingress && c.action == IDelete && c.hostname == h
  {
    IngressDeleteExactly(y, h);
    PickHost(y, h);
  }

  lemma NoDeletionNoChange(y: Inputs, plan: Plan)
    requires y.snapshot.dockerOk && y.snapshot.origins == [] && plan == PlanOf(y)
    requires forall h :: Action(y, h) != IDelete
    ensures NoIngressChange(plan.summary)
  {
    forall h ensures Action(y, h) == INoop {
      NobodyIsActive(y, h);
      ActionOfAbsent(y, h);
    }
    NothingCounted(y, plan, h => false);
  }

  /** Without services a plan sends nothing exactly when nothing is planned for deletion and the rules are tidy. */
  lemma SilentExactly(y: Inputs, plan: Plan)
    requires y.snapshot.dockerOk && y.snapshot.origins == [] && plan == PlanOf(y)
    ensures CallsIn(Steps(plan, Some(y.remote.rules))) == [] <==> (forall h :: !PlansDelete(y, h)) && Tidy(y)
  {
    CallsAreMutations(plan, y.remote.rules);
    DiffIsTruthful(y);
    forall h ensures Action(y, h) == IDelete ==> PlansDelete(y, h) { RootDeletionIsPlanned(y, h); }
    if forall h :: !PlansDelete(y, h) {
      NoDeletionNoDns(y, plan);
      NoDeletionNoChange(y, plan);
    }
    if LeavesDnsAlone(plan) && NoIngressChange(plan.summary) {
      forall h ensures !PlansDelete(y, h) { QuietPlanDeletesNothing(y, plan, h); }
    }
  }

  lemma NoRootDeleted(y: Inputs, plan: Plan, h: string)
    requires y.snapshot.dockerOk && plan == PlanOf(y) && NoIngressChange(plan.summary)
    ensures !exists c :: c in plan.ingress && c.action == IDelete && c.hostname == h
  {
    RootDeletionIsPlanned(y, h);
    if Action(y, h) == IDelete { DeletionIsAnnounced(y, h); }
  }

  lemma QuietPlanDeletesNothing(y: Inputs, plan: Plan, h: string)
    requires y.snapshot.dockerOk && plan == PlanOf(y) && LeavesDnsAlone(plan) && NoIngressChange(plan.summary)
    ensures !PlansDelete(y, h)
  {
    NoRootDeleted(y, plan, h);
  }

  lemma TidyIgnoresSettings(y: Inputs, cfg: Config)
    ensures Tidy(y) <==> Tidy(y.(cfg := cfg))
  {
    forall h ensures IsActive(y, h) <==> IsActive(y.(cfg := cfg), h) {}
  }

  lemma TidyRelaxed(x: Inputs, y: Inputs, outcome: nat -> Outcome)
    requires x.snapshot.dockerOk && Relaxes(x, y, outcome)
    ensures Tidy(y) <==> forall h :: !HiddenTwin(x, h)
  {
    TidyAfter(x, y.(cfg := x.cfg), outcome);
    TidyIgnoresSettings(y, x.cfg);
  }

  lemma DeletesPostponed(x: Inputs, y: Inputs, outcome: nat -> Outcome, h: string)
    requires Undisturbed(x, outcome) && Relaxes(x, y, outcome)
    ensures PlansDelete(y, h) <==> Postponed(x, Unguarded(x, y), h)
  {
    PlansDeleteExactly(y, h);
    PostponedExactly(x, y, outcome, h);
  }

  lemma DeletesNothing(x: Inputs, y: Inputs, outcome: nat -> Outcome)
    requires Undisturbed(x, outcome) && Relaxes(x, y, outcome)
    ensures (forall h :: !PlansDelete(y, h)) <==> forall h :: !Postponed(x, Unguarded(x, y), h)
  {
    forall h ensures PlansDelete(y, h) <==> Postponed(x, Unguarded(x, y), h) { DeletesPostponed(x, y, outcome, h); }
  }

  /** The cycle after a guarded one sends nothing exactly when no twin surfaced and nothing was postponed. */
  lemma RelaxedCycleIsSilent(x: Inputs, y: Inputs, outcome: nat -> Outcome, plan: Plan)
    requires Undisturbed(x, outcome) && Relaxes(x, y, outcome) && plan == PlanOf(y)
    ensures CallsIn(Steps(plan, Some(y.remote.rules))) == [] <==>
            (forall h :: !HiddenTwin(x, h)) && (forall h :: !Postponed(x, Unguarded(x, y), h))
  {
    SilentExactly(y, plan);
    TidyRelaxed(x, y, outcome);
    DeletesNothing(x, y, outcome);
  }

  // ---------------------------------------------------------------- tombstones

  lemma BeginsNothing(x: Inputs, y: Inputs, outcome: nat -> Outcome, h: string)
    requires Undisturbed(x, outcome) && Relaxes(x, y, outcome) && Lingers(y, h)
    ensures FateOf(y, h) != Begin
  {
    if FateOf(y, h) == Begin {
      TombstoneRelaxed(x, y, outcome, h);
      LingersBefore(x, y, outcome, h);
      RemovedIsGone(x, y, outcome, h);
      assert Unguarded(x, y) == x.(cfg := y.cfg);
      LingersAlike(x, y, outcome, h);
    }
  }

  /** Without immediate cleanup the two settings see the same things lingering. */
  lemma LingersAlike(x: Inputs, y: Inputs, outcome: nat -> Outcome, h: string)
    requires Relaxes(x, y, outcome) && !y.cfg.immediate && Lingers(Unguarded(x, y), h)
    ensures Lingers(x, h)
  {
    var u := Unguarded(x, y);
    assert OwnsHost(u, h) <==> OwnsHost(x, h);
    if r :| LingeringRecord(u, h, r) { assert LingeringRecord(x, h, r); }
  }

  /** A host of which nothing was postponed has its tombstone left alone by the next cycle. */
  lemma TombstonesUnlessPostponed(x: Inputs, y: Inputs, outcome: nat -> Outcome, h: string)
    requires Undisturbed(x, outcome) && Relaxes(x, y, outcome) && !Postponed(x, Unguarded(x, y), h)
    ensures h !in ToSet(y) && h !in ToClear(y)
  {
    SetExactly(y, h);
    ClearExactly(y, h);
    NobodyIsActive(y, h);
    PostponedExactly(x, y, outcome, h);
    if Lingers(y, h) { BeginsNothing(x, y, outcome, h); }
  }
}
