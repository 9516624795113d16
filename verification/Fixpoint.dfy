/** The whole cycle repeated: when the server and the memory stop moving. */
module Fixpoint {
  import opened Text
  import opened Models
  import opened Ingress
  import opened Planner
  import opened PlanFacts
  import opened PlanTheorems
  import opened Executor
  import opened Effects
  import opened Aftermath
  import opened Sync
  import opened Runs
  import opened Convergence
  import opened Scope
  import opened Guarded
  import Fetch

  lemma NewIdsAreFresh(x: Inputs, outcome: nat -> Outcome)
    requires Undisturbed(x, outcome)
    ensures FreshIds(Steps(PlanOf(x), Some(x.remote.rules)), outcome)
  {
    var steps := Steps(PlanOf(x), Some(x.remote.rules));
    forall k: nat, c | k < |steps| && c in CallsIn(steps) ensures !Mentions(c, outcome(k).newId) {
      if Mentions(c, outcome(k).newId) { MentionedIsFetched(x, c); }
    }
  }

  lemma DnsStepLeavesIngress(p: Progress, d: DnsChange, outcome: Outcome)
    ensures DnsStepFrom(p, d, outcome, false).world.ingress == p.world.ingress
  {
  }

  /** Only the PUT moves the rule list. */
  lemma {:induction false} DnsLeavesIngress(w: World, first: seq<Step>, changes: seq<DnsChange>,
      outcome: nat -> Outcome)
    ensures Run(w, first + DnsSteps(changes), outcome, false).world.ingress ==
            Run(w, first, outcome, false).world.ingress
  {
    if changes == [] {
      assert first + DnsSteps(changes) == first;
    } else {
      var d, init := changes[|changes| - 1], changes[..|changes| - 1];
      DnsLeavesIngress(w, first, init, outcome);
      Regroup(first, DnsSteps(init), DnsStep(d));
      RunDnsStep(w, first + DnsSteps(init), d, outcome, false);
      DnsStepLeavesIngress(Run(w, first + DnsSteps(init), outcome, false), d, outcome(|first + DnsSteps(init)|));
    }
  }

  lemma IngressAsPlanned(plan: Plan, w: World, outcome: nat -> Outcome)
    requires AllDone(outcome)
    ensures Run(w, Steps(plan, Some(w.ingress)), outcome, false).world.ingress == plan.finalRules
  {
    var first := IngressSteps(plan, Some(w.ingress));
    DnsLeavesIngress(w, first, plan.dns, outcome);
    if first != [] {
      RunSnoc(w, [], first[0], outcome, false);
      assert [] + [first[0]] == first;
    }
  }

  /**
   * A cycle that reads the rules and, whatever else the zone holds, the records a fetch is after (for any name
   * normalization), and meets no failure. The tunnel name comes stripped from the settings; the server keeps its
   * records apart, old and new.
   */
  ghost predicate MeetsNoFailure(m: Memory, w: World, c: Cycle, norm: Fetch.Names) {
    && c.remote.rules == w.ingress && c.remote.records == Seen(InputsOf(m, c), w.records, norm)
    && Trimmed(c.remote.tunnelName) && DistinctIds(w.records)
    && AllDone(c.outcome) && NamesApart(w.records, c.outcome)
    && !c.settings.dryRun
  }

  predicate StoppedByGuard(m: Memory, c: Cycle) {
    c.settings.deletion.Blocks(PlanOf(InputsOf(m, c)).summary)
  }

  /** Such a cycle that the deletion guard does not stop; the sudden-drop guard may have intervened in it. */
  ghost predicate Smooth(m: Memory, w: World, c: Cycle, norm: Fetch.Names) {
    MeetsNoFailure(m, w, c, norm) && !StoppedByGuard(m, c)
  }

  lemma TrimmedAfterPrefix(name: string)
    requires Trimmed(name)
    ensures TAG_PREFIX + name != "" && Trimmed(TAG_PREFIX + name)
  {
    var tag := TAG_PREFIX + name;
    assert tag[0] == 'c';
    assert tag[|tag| - 1] == if name == "" then ':' else name[|name| - 1];
  }

  lemma SmoothIsUndisturbed(m: Memory, w: World, c: Cycle, norm: Fetch.Names)
    requires Smooth(m, w, c, norm)
    ensures Reading(InputsOf(m, c), w.records, norm) && Undisturbed(InputsOf(m, c), c.outcome)
  {
    TrimmedAfterPrefix(c.remote.tunnelName);
    TagOf(InputsOf(m, c));
    ReadingIsUndisturbed(InputsOf(m, c), w.records, norm, c.outcome);
  }

  lemma TagOf(x: Inputs)
    ensures Tag(x) == x.cfg.tagPrefix + x.remote.tunnelName
  {
  }

  /** An identifier longer than any in use. */
  function NewId(records: seq<Record>): string {
    if records == [] then "0" else NewId(records[..|records| - 1]) + records[|records| - 1].id
  }

  lemma {:induction false} NewIdIsLonger(records: seq<Record>)
    ensures |NewId(records)| >= 1
    ensures forall r :: r in records ==> |r.id| < |NewId(records)|
  {
    if records != [] {
      NewIdIsLonger(records[..|records| - 1]);
      assert records == records[..|records| - 1] + [records[|records| - 1]];
    }
  }

  /**
   * From every server state, every memory, with any services and any settings but a dry run, a cycle can meet no
   * failure; it is smooth unless the deletion guard stops its plan.
   */
  lemma SmoothCyclesExist(m: Memory, w: World, name: string, target: string, settings: Settings,
                          services: seq<Origin>, now: real, norm: Fetch.Names)
    returns (c: Cycle)
    requires DistinctIds(w.records) && Trimmed(name) && !settings.dryRun
    ensures MeetsNoFailure(m, w, c, norm)
    ensures Smooth(m, w, c, norm) <==> !StoppedByGuard(m, c)
    ensures c.settings == settings && c.services == services && c.now == now
    ensures c.remote == Remote(name, target, w.ingress, Seen(InputsOf(m, c), w.records, norm))
  {
    NewIdIsLonger(w.records);
    var id, hosts := NewId(w.records), HostNames(services);
    c := Cycle(settings, services, Remote(name, target, w.ingress, Fetch.Scoped(w.records, target, hosts, norm)), now,
               (k: nat) => Done(id + seq(k, _ => '0')));
  }

  lemma OverrideLetsPass(m: Memory, c: Cycle)
    requires c.settings.deletion.allowMass
    ensures !StoppedByGuard(m, c)
  {
  }

  /** The same cycle again, reading the server as the first one left it. */
  function Again(m: Memory, w: World, c: Cycle, outcome: nat -> Outcome, norm: Fetch.Names): Cycle {
    var w' := WorldAfter(m, w, c);
    c.(remote := c.remote.(rules := w'.ingress, records := Seen(InputsOf(m, c), w'.records, norm)), outcome := outcome)
  }

  lemma SmoothCompletes(m: Memory, w: World, c: Cycle, norm: Fetch.Names)
    requires Smooth(m, w, c, norm)
    ensures Completes(m, w, c)
    ensures Seen(InputsOf(m, c), WorldAfter(m, w, c).records, norm) == RecordsAfter(InputsOf(m, c), c.outcome)
  {
    var x := InputsOf(m, c);
    var steps := Steps(PlanOf(x), Some(x.remote.rules));
    SmoothIsUndisturbed(m, w, c, norm);
    NewIdsAreFresh(x, c.outcome);
    CleanRun(w, steps, c.outcome);
    SeenAfter(x, w, norm, c.outcome, steps);
  }

  /** The inputs of the cycle after a smooth one. */
  ghost function NextInputs(m: Memory, w: World, c: Cycle, outcome: nat -> Outcome, norm: Fetch.Names): Inputs {
    InputsOf(MemoryAfter(m, w, c), Again(m, w, c, outcome, norm))
  }

  /** But for the sudden-drop guard the next cycle follows the first one. */
  lemma SmoothFollows(m: Memory, w: World, c: Cycle, outcome: nat -> Outcome, norm: Fetch.Names)
    requires Smooth(m, w, c, norm)
    ensures var x, y := InputsOf(m, c), NextInputs(m, w, c, outcome, norm);
            Follows(x, y.(cfg := x.cfg), c.outcome) && (!SuddenDrop(m, c) ==> y.cfg == x.cfg)
  {
    var x := InputsOf(m, c);
    SmoothCompletes(m, w, c, norm);
    IngressAsPlanned(PlanOf(x), w, c.outcome);
    forall h ensures TombstoneMoves(x, x.tombstones, MemoryAfter(m, w, c).tombstones, true, h) {
      TombstoneStep(m, w, c, h);
    }
  }

  /** The guard intervenes once. */
  lemma GuardRelaxes(m: Memory, w: World, c: Cycle, outcome: nat -> Outcome, norm: Fetch.Names)
    requires Smooth(m, w, c, norm) && SuddenDrop(m, c)
    ensures var x, y := InputsOf(m, c), NextInputs(m, w, c, outcome, norm);
            Relaxes(x, y, c.outcome) && Unguarded(x, y) == InputsOf(m.(discovered := 0), c)
  {
    SmoothFollows(m, w, c, outcome, norm);
  }

  lemma TombstoneStays(x: Inputs, after: map<string, real>, through: bool, h: string)
    requires h !in ToSet(x) && h !in ToClear(x)
    requires TombstoneMoves(x, x.tombstones, after, through, h)
    ensures h in after <==> h in x.tombstones
    ensures h in after ==> after[h] == x.tombstones[h]
  {
    SetExactly(x, h);
    ClearExactly(x, h);
  }

  lemma NothingBuried(m: Memory, w: World, c: Cycle)
    requires forall h :: h !in ToSet(InputsOf(m, c)) && h !in ToClear(InputsOf(m, c))
    ensures MemoryAfter(m, w, c).tombstones == m.tombstones
  {
    var x, after := InputsOf(m, c), MemoryAfter(m, w, c).tombstones;
    forall h ensures (h in after <==> h in m.tombstones) && (h in after ==> after[h] == m.tombstones[h]) {
      TombstoneStep(m, w, c, h);
      TombstoneStays(x, after, Completes(m, w, c), h);
    }
  }

  lemma {:induction false} NoCallsNoChange(w: World, steps: seq<Step>, outcome: nat -> Outcome)
    requires Run(w, steps, outcome, false).calls == []
    ensures Run(w, steps, outcome, false).world == w
  {
    if steps != [] { NoCallsNoChange(w, steps[..|steps| - 1], outcome); }
  }

  /** The requests of the cycle after a smooth one. */
  ghost function NextCalls(m: Memory, w: World, c: Cycle, outcome: nat -> Outcome, norm: Fetch.Names): seq<Call> {
    ProgressOf(NextInputs(m, w, c, outcome, norm), WorldAfter(m, w, c), outcome).calls
  }

  /** The sudden-drop guard kept this cycle from deleting something the settings would have it delete. */
  ghost predicate SparedByGuard(m: Memory, c: Cycle, h: string) {
    SuddenDrop(m, c) && Postponed(InputsOf(m, c), InputsOf(m.(discovered := 0), c), h)
  }

  lemma UnguardedIsSilent(m: Memory, w: World, c: Cycle, outcome: nat -> Outcome, norm: Fetch.Names)
    requires Smooth(m, w, c, norm) && !SuddenDrop(m, c)
    ensures var x := InputsOf(m, c);
            NextCalls(m, w, c, outcome, norm) == [] <==> forall h :: !AdoptedManualRoot(x, h) && !HiddenTwin(x, h)
  {
    var x, y := InputsOf(m, c), NextInputs(m, w, c, outcome, norm);
    SmoothIsUndisturbed(m, w, c, norm);
    SmoothFollows(m, w, c, outcome, norm);
    SecondCycleIsSilent(x, y, c.outcome, PlanOf(y), WorldAfter(m, w, c), outcome);
  }

  lemma NextCallsAre(m: Memory, w: World, c: Cycle, outcome: nat -> Outcome, norm: Fetch.Names, y: Inputs)
    requires y == NextInputs(m, w, c, outcome, norm)
    ensures NextCalls(m, w, c, outcome, norm) == CallsIn(Steps(PlanOf(y), Some(y.remote.rules)))
  {
    RunMakesEveryCall(WorldAfter(m, w, c), Steps(PlanOf(y), Some(y.remote.rules)), outcome);
  }

  lemma NobodyAdopts(x: Inputs)
    requires x.snapshot.origins == []
    ensures forall h :: !AdoptedManualRoot(x, h)
  {
    forall h ensures !AdoptedManualRoot(x, h) { NobodyIsActive(x, h); }
  }

  lemma GuardedIsSilent(m: Memory, w: World, c: Cycle, outcome: nat -> Outcome, norm: Fetch.Names, x: Inputs, y: Inputs)
    requires Smooth(m, w, c, norm) && SuddenDrop(m, c) && x == InputsOf(m, c) && y == NextInputs(m, w, c, outcome, norm)
    ensures NextCalls(m, w, c, outcome, norm) == [] <==>
            (forall h :: !HiddenTwin(x, h)) && (forall h :: !Postponed(x, Unguarded(x, y), h))
    ensures Unguarded(x, y) == InputsOf(m.(discovered := 0), c) && x.snapshot.origins == []
  {
    SmoothIsUndisturbed(m, w, c, norm);
    GuardRelaxes(m, w, c, outcome, norm);
    RelaxedCycleIsSilent(x, y, c.outcome, PlanOf(y));
    NextCallsAre(m, w, c, outcome, norm, y);
  }

  /**
   * The cycle after a smooth one, from any server state and any memory, sends nothing exactly when the first
   * preserved no manual root whose record it adopted, deleted no root that had a twin behind the first catch-all,
   * and had nothing spared by the sudden-drop guard.
   */
  lemma NextCycleIsSilent(m: Memory, w: World, c: Cycle, outcome: nat -> Outcome, norm: Fetch.Names)
    requires Smooth(m, w, c, norm)
    ensures NextCalls(m, w, c, outcome, norm) == [] <==>
            forall h :: !AdoptedManualRoot(InputsOf(m, c), h) && !HiddenTwin(InputsOf(m, c), h)
                && !SparedByGuard(m, c, h)
  {
    var x := InputsOf(m, c);
    if SuddenDrop(m, c) {
      GuardedIsSilent(m, w, c, outcome, norm, x, NextInputs(m, w, c, outcome, norm));
      NobodyAdopts(x);
      assert forall h :: SparedByGuard(m, c, h) <==> Postponed(x, InputsOf(m.(discovered := 0), c), h);
    } else {
      UnguardedIsSilent(m, w, c, outcome, norm);
    }
  }

  lemma NextTombstonesStay(m: Memory, w: World, c: Cycle, outcome: nat -> Outcome, norm: Fetch.Names, h: string)
    requires Smooth(m, w, c, norm) && !SparedByGuard(m, c, h)
    ensures h !in ToSet(NextInputs(m, w, c, outcome, norm)) && h !in ToClear(NextInputs(m, w, c, outcome, norm))
  {
    var x, y := InputsOf(m, c), NextInputs(m, w, c, outcome, norm);
    SmoothIsUndisturbed(m, w, c, norm);
    if SuddenDrop(m, c) {
      GuardRelaxes(m, w, c, outcome, norm);
      TombstonesUnlessPostponed(x, y, c.outcome, h);
    } else {
      SmoothFollows(m, w, c, outcome, norm);
      TombstonesAreSettled(x, y, c.outcome, h);
    }
  }

  /**
   * Fixpoint: after one smooth cycle from any server state and any memory, the same cycle leaves the memory alone if
   * the sudden-drop guard spared nothing, and leaves the server alone too outside the three exceptions.
   */
  lemma SmoothCycleIsFixpoint(m: Memory, w: World, c: Cycle, outcome: nat -> Outcome, norm: Fetch.Names)
    requires Smooth(m, w, c, norm)
    ensures var x := InputsOf(m, c);
            var m', w', c' := MemoryAfter(m, w, c), WorldAfter(m, w, c), Again(m, w, c, outcome, norm);
            && ((forall h :: !SparedByGuard(m, c, h)) ==> MemoryAfter(m', w', c') == m')
            && (NextCalls(m, w, c, outcome, norm) == [] <==>
                  forall h :: !AdoptedManualRoot(x, h) && !HiddenTwin(x, h) && !SparedByGuard(m, c, h))
            && (NextCalls(m, w, c, outcome, norm) == [] ==>
                MemoryAfter(m', w', c') == m' && WorldAfter(m', w', c') == w')
  {
    var m', w', c' := MemoryAfter(m, w, c), WorldAfter(m, w, c), Again(m, w, c, outcome, norm);
    NextCycleIsSilent(m, w, c, outcome, norm);
    if forall h :: !SparedByGuard(m, c, h) {
      forall h ensures h !in ToSet(InputsOf(m', c')) && h !in ToClear(InputsOf(m', c')) {
        NextTombstonesStay(m, w, c, outcome, norm, h);
      }
      NothingBuried(m', w', c');
    }
    if NextCalls(m, w, c, outcome, norm) == [] {
      NoCallsNoChange(w', Steps(PlanOf(InputsOf(m', c')), Some(c'.remote.rules)), outcome);
    }
  }

  // ---------------------------------------------------------------- the exceptions are real

  const BLANK := Memory(map[], 0)

  const MANUAL := Rule(Some(HOST), None, Some("http://elsewhere"), None, map[])

  const UNTAGGED := Record("1", HOST, None, Some(TARGET), NoComment, Some(true), Some(1))

  const PRESERVING := Settings(AdoptAndManage, 300.0, false, false, true, DeletionPolicy(3, None, true))

  /** An active host with a hand-made route and an untagged record, under the adopting policy. */
  const BY_HAND := World([MANUAL, NOT_FOUND], [UNTAGGED])

  lemma AdoptingByHand(x: Inputs)
    requires x.snapshot.origins == [Origin(HOST, "http://app", None)]
             && x.remote == Remote("t", TARGET, BY_HAND.ingress, [UNTAGGED])
    requires x.cfg == Config(AdoptAndManage, 300.0, false, false, TAG_PREFIX, true)
    ensures KeepsManualRoot(x, HOST) && AdoptedManualRoot(x, HOST)
  {
    ActiveNamed(x.snapshot.origins);
    assert x.snapshot.origins[0] in x.snapshot.origins;
    assert CommentText(UNTAGGED) == "";
  }

  lemma OneRecordSeen(x: Inputs, r: Record, norm: Fetch.Names)
    requires TypeOf(r) == "CNAME" && r.content == Some(x.remote.target) && r.id != ""
    ensures Seen(x, [r], norm) == [r]
  {
    AllSeen(x, [r], norm);
  }

  /** A preserved manual route is lost: the second cycle, though nothing changed, rewrites it. */
  lemma ManualRootsAreLost(outcome: nat -> Outcome, norm: Fetch.Names) returns (c: Cycle)
    ensures Smooth(BLANK, BY_HAND, c, norm) && c.settings == PRESERVING
            && c.services == [Origin(HOST, "http://app", None)]
    ensures KeepsManualRoot(InputsOf(BLANK, c), HOST)
    ensures NextCalls(BLANK, BY_HAND, c, outcome, norm) != []
  {
    c := SmoothCyclesExist(BLANK, BY_HAND, "t", TARGET, PRESERVING, [Origin(HOST, "http://app", None)], 0.0, norm);
    OverrideLetsPass(BLANK, c);
    OneRecordSeen(InputsOf(BLANK, c), UNTAGGED, norm);
    AdoptingByHand(InputsOf(BLANK, c));
    SmoothCycleIsFixpoint(BLANK, BY_HAND, c, outcome, norm);
  }

  const OURS := Rule(Some(HOST), None, Some("http://app"), None, map[])

  const CLEANING := Settings(AdoptAndManage, 0.0, false, false, false, DeletionPolicy(3, None, true))

  /** A departed host with a second root behind the catch-all, due for removal. */
  const TWINS := World([OURS, NOT_FOUND, OURS], [ITS_RECORD])

  lemma TwinIsKept()
    ensures Kept(TWINS.ingress, {}) == [NOT_FOUND, OURS]
    ensures FirstRoot(Kept(TWINS.ingress, {}), HOST).Some?
            && FirstRoot(BeforeFallback(Kept(TWINS.ingress, {})), HOST).None?
  {
    var rules := TWINS.ingress;
    assert rules[1..] == [NOT_FOUND, OURS] && [NOT_FOUND, OURS][1..] == [OURS];
    assert IsRoot(OURS) && {} + {HOST} == {HOST};
    assert Kept([OURS], {HOST}) == [OURS] + Kept([OURS][1..], {HOST}) == [OURS];
    assert Kept(rules, {}) == Kept(rules[1..], {HOST}) == [NOT_FOUND, OURS];
  }

  lemma TwinBehind(x: Inputs)
    requires x.snapshot.origins == [] && x.remote == Remote("t", TARGET, TWINS.ingress, [ITS_RECORD])
    requires x.cfg == Config(AdoptAndManage, 0.0, false, false, TAG_PREFIX, false)
    ensures HiddenTwin(x, HOST)
  {
    ItsRecordIsOwned(x);
    TwinIsKept();
    assert LastRecord([ITS_RECORD], HOST) == Some(ITS_RECORD);
  }

  /** A repeated root behind the catch-all surfaces when the first is deleted, and the second cycle moves it. */
  lemma TwinsSurface(outcome: nat -> Outcome, norm: Fetch.Names) returns (c: Cycle)
    ensures Smooth(BLANK, TWINS, c, norm) && c.settings == CLEANING && c.services == []
    ensures NextCalls(BLANK, TWINS, c, outcome, norm) != []
  {
    c := SmoothCyclesExist(BLANK, TWINS, "t", TARGET, CLEANING, [], 0.0, norm);
    OverrideLetsPass(BLANK, c);
    OneRecordSeen(InputsOf(BLANK, c), ITS_RECORD, norm);
    TwinBehind(InputsOf(BLANK, c));
    SmoothCycleIsFixpoint(BLANK, TWINS, c, outcome, norm);
  }

  /** Two services became none. */
  const DROPPED := Memory(map[], 2)

  const EAGERLY := Settings(AdoptAndManage, 300.0, true, false, false, DeletionPolicy(3, None, true))

  /** A departed host with one route and its record. */
  const DUE := World([OURS, NOT_FOUND], [ITS_RECORD])

  lemma ItLingers(x: Inputs)
    requires x.snapshot.origins == [] && x.remote == Remote("t", TARGET, DUE.ingress, [ITS_RECORD])
             && x.cfg.tagPrefix == TAG_PREFIX
    ensures Lingers(x, HOST) && OwnsHost(x, HOST)
  {
    ItsRecordIsOwned(x);
    assert LingeringRecord(x, HOST, ITS_RECORD);
    assert LastRecord([ITS_RECORD], HOST) == Some(ITS_RECORD);
  }

  lemma DueHasNoTwins(h: string)
    ensures FirstRoot(Kept(DUE.ingress, {}), h) == None
  {
    var rules := DUE.ingress;
    assert rules[1..] == [NOT_FOUND] && [NOT_FOUND][1..] == [];
    assert IsRoot(OURS) && Host(OURS) == HOST;
    assert Kept([NOT_FOUND], {} + {HOST}) == [NOT_FOUND] + Kept([], {} + {HOST}) == [NOT_FOUND];
    assert FirstRoot([NOT_FOUND], h) == FirstRoot([NOT_FOUND][1..], h) == None;
  }

  lemma NoOtherException(x: Inputs)
    requires x.snapshot.origins == [] && x.remote.rules == DUE.ingress
    ensures forall h :: !AdoptedManualRoot(x, h) && !HiddenTwin(x, h)
  {
    NobodyAdopts(x);
    forall h ensures !HiddenTwin(x, h) { DueHasNoTwins(h); }
  }

  lemma DueIsSpared(m: Memory, c: Cycle)
    requires m == DROPPED && c.settings == EAGERLY && c.services == []
             && c.remote == Remote("t", TARGET, DUE.ingress, [ITS_RECORD])
    ensures SparedByGuard(m, c, HOST)
  {
    ItLingers(InputsOf(m.(discovered := 0), c));
  }

  /**
   * The guard spares a host under immediate cleanup; the repeated cycle, with no other exception in sight,
   * deletes it.
   */
  lemma GuardPostpones(outcome: nat -> Outcome, norm: Fetch.Names) returns (c: Cycle)
    ensures Smooth(DROPPED, DUE, c, norm) && c.settings == EAGERLY && c.services == []
    ensures forall h :: !AdoptedManualRoot(InputsOf(DROPPED, c), h) && !HiddenTwin(InputsOf(DROPPED, c), h)
    ensures SparedByGuard(DROPPED, c, HOST) && NextCalls(DROPPED, DUE, c, outcome, norm) != []
  {
    c := SmoothCyclesExist(DROPPED, DUE, "t", TARGET, EAGERLY, [], 0.0, norm);
    OverrideLetsPass(DROPPED, c);
    OneRecordSeen(InputsOf(DROPPED, c), ITS_RECORD, norm);
    DueIsSpared(DROPPED, c);
    NoOtherException(InputsOf(DROPPED, c));
    NextCycleIsSilent(DROPPED, DUE, c, outcome, norm);
  }
}
