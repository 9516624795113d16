/**
 * Fetch, plan, execute, and again: a fetch delivers the records it is after in no particular order, and two cycles that
 * read them in two different orders still settle.
 */
module EndToEnd {
  import opened Text
  import opened Models
  import opened Ingress
  import opened Planner
  import opened PlanFacts
  import opened PlanTheorems
  import opened Executor
  import opened Effects
  import opened Aftermath
  import opened Sync
  import opened Runs
  import opened Convergence
  import opened Guarded
  import opened Scope
  import opened Fixpoint
  import opened ReadOrder
  import opened Verdicts
  import Fetch

  // ---------------------------------------------------------------- the server's order

  /** The same rules, and the same records in some order. */
  ghost predicate Alike(w: World, v: World) {
    w.ingress == v.ingress && multiset(w.records) == multiset(v.records)
  }

  lemma ReplaceMiddle(p: seq<Record>, r: Record, q: seq<Record>, id: string, body: Body)
    ensures multiset(Replace(p + [r] + q, id, body)) == multiset(Replace(p + q, id, body))
            + multiset(Replace([r], id, body))
  {
    ReplaceConcat(p, q, id, body);
    ReplaceConcat(p + [r], q, id, body);
    ReplaceConcat(p, [r], id, body);
  }

  lemma RemoveMiddle(p: seq<Record>, r: Record, q: seq<Record>, id: string)
    ensures multiset(Executor.Remove(p + [r] + q, id)) ==
            multiset(Executor.Remove(p + q, id)) + multiset(Executor.Remove([r], id))
  {
    var body := Body("", None, false, 0, None);
    ReplaceConcat(p, q, id, body);
    ReplaceConcat(p + [r], q, id, body);
    ReplaceConcat(p, [r], id, body);
  }

  lemma NothingElse(b: seq<Record>)
    requires multiset(b) == multiset([])
    ensures b == []
  {
    assert |b| == |multiset(b)| == 0;
  }

  lemma LastOut(a: seq<Record>)
    requires a != []
    ensures a == a[..|a| - 1] + [a[|a| - 1]] + [] && a[..|a| - 1] + [] == a[..|a| - 1]
  {
  }

  lemma {:induction false} ReplacePermuted(a: seq<Record>, b: seq<Record>, id: string, body: Body)
    requires multiset(a) == multiset(b)
    ensures multiset(Replace(a, id, body)) == multiset(Replace(b, id, body))
  {
    if a == [] {
      NothingElse(b);
    } else {
      var r, init := a[|a| - 1], a[..|a| - 1];
      var i := TakeOut(a, b);
      var p, q := b[..i], b[i + 1..];
      ReplacePermuted(init, p + q, id, body);
      ReplaceMiddle(init, r, [], id, body);
      ReplaceMiddle(p, r, q, id, body);
      LastOut(a);
    }
  }

  lemma {:induction false} RemovePermuted(a: seq<Record>, b: seq<Record>, id: string)
    requires multiset(a) == multiset(b)
    ensures multiset(Executor.Remove(a, id)) == multiset(Executor.Remove(b, id))
  {
    if a == [] {
      NothingElse(b);
    } else {
      var r, init := a[|a| - 1], a[..|a| - 1];
      var i := TakeOut(a, b);
      var p, q := b[..i], b[i + 1..];
      RemovePermuted(init, p + q, id);
      RemoveMiddle(init, r, [], id);
      RemoveMiddle(p, r, q, id);
      LastOut(a);
    }
  }

  lemma CallPermuted(w: World, v: World, c: Call, outcome: Outcome)
    requires Alike(w, v)
    ensures Alike(Apply(w, c, outcome), Apply(v, c, outcome))
  {
    match c
    case PutIngress(_) =>
    case PostDns(_) =>
    case PutDns(id, b) => ReplacePermuted(w.records, v.records, id, b);
    case DeleteDns(id) => RemovePermuted(w.records, v.records, id);
  }

  /** A run does not depend on the order of the server's records. */
  lemma {:induction false} RunPermuted(w: World, v: World, steps: seq<Step>, outcome: nat -> Outcome)
    requires Alike(w, v)
    ensures var p, q := Run(w, steps, outcome, false), Run(v, steps, outcome, false);
            Alike(p.world, q.world) && p.calls == q.calls && p.ops == q.ops && p.stopped == q.stopped
  {
    if steps != [] {
      var s, init := steps[|steps| - 1], steps[..|steps| - 1];
      RunPermuted(w, v, init, outcome);
      if s.Attempt? {
        CallPermuted(Run(w, init, outcome, false).world, Run(v, init, outcome, false).world, s.call, outcome(|init|));
      }
    }
  }

  lemma ProgressPermuted(x: Inputs, w: World, v: World, outcome: nat -> Outcome, policy: DeletionPolicy)
    requires Alike(w, v)
    ensures Alike(ProgressOf(x, w, outcome).world, ProgressOf(x, v, outcome).world)
    ensures ResultOf(PlanOf(x), policy, ProgressOf(x, w, outcome)) ==
            ResultOf(PlanOf(x), policy, ProgressOf(x, v, outcome))
  {
    RunPermuted(w, v, Steps(PlanOf(x), Some(x.remote.rules)), outcome);
  }

  lemma CyclePermuted(m: Memory, w: World, v: World, c: Cycle)
    requires Alike(w, v)
    ensures MemoryAfter(m, w, c) == MemoryAfter(m, v, c) && Alike(WorldAfter(m, w, c), WorldAfter(m, v, c))
  {
    if c.settings.dryRun {
      DryCycle(m, w, c);
      DryCycle(m, v, c);
    } else {
      var x, policy := InputsOf(m, c), c.settings.deletion;
      ProgressPermuted(x, w, v, c.outcome, policy);
      LiveCycle(m, w, c, x, ResultOf(PlanOf(x), policy, ProgressOf(x, w, c.outcome)));
      LiveCycle(m, v, c, x, ResultOf(PlanOf(x), policy, ProgressOf(x, v, c.outcome)));
    }
  }

  lemma {:induction false} SeenPermuted(x: Inputs, a: seq<Record>, b: seq<Record>, norm: Fetch.Names)
    requires multiset(a) == multiset(b)
    ensures multiset(Seen(x, a, norm)) == multiset(Seen(x, b, norm))
  {
    if a == [] {
      assert |multiset(b)| == 0;
      assert b == [];
    } else {
      var r, init := a[|a| - 1], a[..|a| - 1];
      var i := TakeOut(a, b);
      var p, q := b[..i], b[i + 1..];
      SeenPermuted(x, init, p + q, norm);
      assert a == init + [r];
      SeenConcat(x, init, [r], norm);
      SeenConcat(x, p, q, norm);
      SeenConcat(x, p + [r], q, norm);
      SeenConcat(x, p, [r], norm);
    }
  }

  // ---------------------------------------------------------------- a zone in the order it was read

  function Unseen(x: Inputs, zone: seq<Record>, norm: Fetch.Names): seq<Record> {
    if zone == [] then []
    else
      var r, before := zone[|zone| - 1], Unseen(x, zone[..|zone| - 1], norm);
      if Sees(x, r, norm) then before else before + [r]
  }

  lemma UnseenSnoc(x: Inputs, zone: seq<Record>, r: Record, norm: Fetch.Names)
    ensures Unseen(x, zone + [r], norm) ==
            if Sees(x, r, norm) then Unseen(x, zone, norm) else Unseen(x, zone, norm) + [r]
  {
    assert (zone + [r])[..|zone|] == zone;
  }

  lemma OneMore(zone: seq<Record>, seen: seq<Record>, unseen: seq<Record>, r: Record)
    requires multiset(zone) == multiset(seen) + multiset(unseen)
    ensures multiset(zone + [r]) == multiset(seen + [r]) + multiset(unseen)
    ensures multiset(zone + [r]) == multiset(seen) + multiset(unseen + [r])
  {
  }

  lemma {:induction false} SeenAndUnseen(x: Inputs, zone: seq<Record>, norm: Fetch.Names)
    ensures multiset(zone) == multiset(Seen(x, zone, norm)) + multiset(Unseen(x, zone, norm))
  {
    if zone != [] {
      var r, init := zone[|zone| - 1], zone[..|zone| - 1];
      SeenAndUnseen(x, init, norm);
      assert zone == init + [r];
      SeenSnoc(x, init, r, norm);
      UnseenSnoc(x, init, r, norm);
      OneMore(init, Seen(x, init, norm), Unseen(x, init, norm), r);
    }
  }

  lemma {:induction false} UnseenIsNotSeen(x: Inputs, zone: seq<Record>, norm: Fetch.Names)
    ensures Seen(x, Unseen(x, zone, norm), norm) == []
  {
    if zone != [] {
      var r, init := zone[|zone| - 1], zone[..|zone| - 1];
      UnseenIsNotSeen(x, init, norm);
      SeenSnoc(x, Unseen(x, init, norm), r, norm);
    }
  }

  /** The zone rearranged so that what is seen of it comes first, in the given order. */
  function Arranged(x: Inputs, w: World, records: seq<Record>, norm: Fetch.Names): World {
    World(w.ingress, records + Unseen(x, w.records, norm))
  }

  lemma ArrangedIsAlike(x: Inputs, w: World, records: seq<Record>, norm: Fetch.Names)
    requires multiset(records) == multiset(Seen(x, w.records, norm))
    ensures Alike(w, Arranged(x, w, records, norm))
    ensures Seen(x, Arranged(x, w, records, norm).records, norm) == records
  {
    var rest := Unseen(x, w.records, norm);
    SeenAndUnseen(x, w.records, norm);
    UnseenIsNotSeen(x, w.records, norm);
    assert multiset(records + rest) == multiset(records) + multiset(rest);
    forall r | r in records ensures Sees(x, r, norm) {
      assert r in multiset(records);
      SeenExactly(x, w.records, norm, r);
    }
    AllSeen(x, records, norm);
    SeenConcat(x, records, rest, norm);
    assert records + [] == records;
  }

  // ---------------------------------------------------------------- one record a name stays one record a name

  /** No host is created for twice. */
  ghost predicate CreatesOnce(changes: seq<DnsChange>) {
    forall i, j :: 0 <= i < j < |changes| && changes[i].action == DCreate && changes[j].action == DCreate ==>
      changes[i].hostname != changes[j].hostname
  }

  lemma {:induction false} MissingCreatesNone(x: Inputs, active: map<string, Origin>, records: seq<Record>)
    ensures forall p :: p in MissingDnsPicks(x, active, records) ==> p.change.action != DCreate
  {
    if records != [] {
      MissingCreatesNone(x, active, records[..|records| - 1]);
      MissingDnsIs(x, records[|records| - 1]);
    }
  }

  lemma PlanCreatesOnce(x: Inputs)
    ensures CreatesOnce(DnsChanges(DnsPicks(x)))
  {
    var active := Active(x.snapshot.origins);
    var hosts, missing := Sorted(active.Keys), MissingDnsPicks(x, active, x.remote.records);
    SortedOrder(active.Keys);
    ActivePicksAt(x, hosts);
    ChangesAt(DnsPicks(x));
    MissingCreatesNone(x, active, x.remote.records);
    forall i | 0 <= i < |DnsPicks(x)|
      ensures if i < |hosts| then DnsPicks(x)[i].change == ActiveDns(x, hosts[i])
              && DnsPicks(x)[i].change.hostname == hosts[i]
              else DnsPicks(x)[i].change.action != DCreate
    {
      if i < |hosts| { ActiveDnsIs(x, hosts[i]); } else { assert DnsPicks(x)[i] in missing; }
    }
  }

  lemma {:induction false} CreatedOnce(first: seq<Step>, changes: seq<DnsChange>, outcome: nat -> Outcome)
    requires AllDone(outcome) && Created(first, outcome) == [] && CreatesOnce(changes)
    ensures NamesUnique(Created(first + DnsSteps(changes), outcome))
  {
    if changes == [] {
      assert first + DnsSteps(changes) == first;
    } else {
      var d, init := changes[|changes| - 1], changes[..|changes| - 1];
      CreatedOnce(first, init, outcome);
      StepsSnoc(first, changes);
      if d.action != DNoop { CreatedByStep(first + DnsSteps(init), d, outcome); }
      if d.action == DCreate {
        forall q | q in Created(first + DnsSteps(init), outcome) ensures q.name != d.hostname {
          CreatedFromChange(first, init, outcome, q);
          var e :| e in init && CreatedBy(e, q);
        }
      }
    }
  }

  lemma MadeOnce(x: Inputs, outcome: nat -> Outcome)
    requires Undisturbed(x, outcome)
    ensures NamesUnique(Made(x, outcome))
  {
    PlanCreatesOnce(x);
    NothingCreatedFirst(PlanOf(x), Some(x.remote.rules), outcome);
    CreatedOnce(IngressSteps(PlanOf(x), Some(x.remote.rules)), PlanOf(x).dns, outcome);
  }

  lemma ImageUnique(x: Inputs)
    requires NamesUnique(x.remote.records)
    ensures NamesUnique(Image(x, x.remote.records))
    ensures forall r :: r in Image(x, x.remote.records) ==> exists q :: q in x.remote.records && q.name == r.name
  {
    var image := Image(x, x.remote.records);
    forall r | r in image ensures exists q :: q in x.remote.records && q.name == r.name {
      var q := ImageMembers(x, x.remote.records, r);
      NewRecordKeepsName(x, q);
    }
    forall a, b | a in image && b in image && a.name == b.name && a.name != "" ensures a == b {
      var p := ImageMembers(x, x.remote.records, a);
      var q := ImageMembers(x, x.remote.records, b);
      NewRecordKeepsName(x, p);
      NewRecordKeepsName(x, q);
    }
  }

  lemma AfterUnique(x: Inputs, outcome: nat -> Outcome)
    requires Undisturbed(x, outcome) && NamesUnique(x.remote.records)
    ensures NamesUnique(RecordsAfter(x, outcome))
  {
    var image, made := Image(x, x.remote.records), Made(x, outcome);
    ImageUnique(x);
    MadeOnce(x, outcome);
    forall a, b | a in image && b in made && a.name == b.name ensures a.name == "" {
      MadeIsCreation(x, outcome, b);
      LastRecordIsThere(x.remote.records, b.name);
    }
  }

  // ---------------------------------------------------------------- two cycles

  /** A cycle that reads what it is after, in any order; it meets no failure and is not stopped. */
  ghost predicate SmoothInAnyOrder(m: Memory, w: World, c: Cycle, norm: Fetch.Names) {
    && c.remote.rules == w.ingress && multiset(c.remote.records) == multiset(Seen(InputsOf(m, c), w.records, norm))
    && Trimmed(c.remote.tunnelName) && DistinctIds(w.records)
    && AllDone(c.outcome) && NamesApart(w.records, c.outcome)
    && !c.settings.dryRun && !StoppedByGuard(m, c)
  }

  /** Every name ends on the same record in both lists. */
  ghost predicate LastsAgree(a: seq<Record>, b: seq<Record>) {
    forall h :: LastRecord(a, h) == LastRecord(b, h)
  }

  /**
   * The same cycle again, reading what the first one left, in any order in which every name ends on the record it
   * would end on in the order of the first reading.
   */
  ghost predicate Repeats(m: Memory, w: World, c: Cycle, again: Cycle, norm: Fetch.Names) {
    var w' := WorldAfter(m, w, c);
    && again == c.(remote := again.remote, outcome := again.outcome)
    && again.remote == c.remote.(rules := w'.ingress, records := again.remote.records)
    && multiset(again.remote.records) == multiset(Seen(InputsOf(m, c), w'.records, norm))
    && LastsAgree(again.remote.records, RecordsAfter(InputsOf(m, c), c.outcome))
  }

  lemma MembersAlike(a: seq<Record>, b: seq<Record>)
    requires multiset(a) == multiset(b)
    ensures forall r :: r in a <==> r in b
  {
    assert forall r :: r in a <==> r in multiset(a);
    assert forall r :: r in b <==> r in multiset(b);
  }

  lemma SmoothWhenArranged(m: Memory, w: World, c: Cycle, norm: Fetch.Names, v: World)
    requires SmoothInAnyOrder(m, w, c, norm) && v == Arranged(InputsOf(m, c), w, c.remote.records, norm)
    ensures Smooth(m, v, c, norm) && Alike(w, v)
  {
    ArrangedIsAlike(InputsOf(m, c), w, c.remote.records, norm);
    MembersAlike(w.records, v.records);
  }

  /** The two readings of the second cycle, as it was and as it would have been, differ only in order. */
  lemma ReadAlike(m: Memory, w: World, c: Cycle, again: Cycle, norm: Fetch.Names, v: World)
    requires SmoothInAnyOrder(m, w, c, norm) && Repeats(m, w, c, again, norm)
    requires v == Arranged(InputsOf(m, c), w, c.remote.records, norm)
    ensures MemoryAfter(m, v, c) == MemoryAfter(m, w, c) && Smooth(m, v, c, norm)
    ensures SameReading(NextInputs(m, v, c, again.outcome, norm), InputsOf(MemoryAfter(m, w, c), again))
  {
    var x := InputsOf(m, c);
    var y, z := NextInputs(m, v, c, again.outcome, norm), InputsOf(MemoryAfter(m, w, c), again);
    SmoothWhenArranged(m, w, c, norm, v);
    CyclePermuted(m, w, v, c);
    SeenPermuted(x, WorldAfter(m, w, c).records, WorldAfter(m, v, c).records, norm);
    SmoothIsUndisturbed(m, v, c, norm);
    SmoothCompletes(m, v, c, norm);
    assert z == y.(remote := y.remote.(records := z.remote.records));
  }

  /** With one record a name the order of the second reading does not matter at all. */
  lemma UniqueNamesAgree(m: Memory, w: World, c: Cycle, records: seq<Record>, norm: Fetch.Names)
    requires SmoothInAnyOrder(m, w, c, norm) && NamesUnique(c.remote.records)
    requires multiset(records) == multiset(Seen(InputsOf(m, c), WorldAfter(m, w, c).records, norm))
    ensures LastsAgree(records, RecordsAfter(InputsOf(m, c), c.outcome))
  {
    var x := InputsOf(m, c);
    var v := Arranged(x, w, c.remote.records, norm);
    SmoothWhenArranged(m, w, c, norm, v);
    CyclePermuted(m, w, v, c);
    SeenPermuted(x, WorldAfter(m, w, c).records, WorldAfter(m, v, c).records, norm);
    SmoothIsUndisturbed(m, v, c, norm);
    SmoothCompletes(m, v, c, norm);
    AfterUnique(x, c.outcome);
    SameLasts(RecordsAfter(x, c.outcome), records);
  }

  lemma SameLasts(a: seq<Record>, b: seq<Record>)
    requires multiset(a) == multiset(b) && NamesUnique(a)
    ensures LastsAgree(b, a)
  {
    MembersAlike(a, b);
    forall h ensures LastRecord(b, h) == LastRecord(a, h) {
      LastRecordIsThere(a, h);
      LastRecordIsThere(b, h);
    }
  }

  lemma SilentAlike(y: Inputs, z: Inputs)
    requires SameReading(y, z) && y.snapshot.dockerOk
    ensures CallsIn(Steps(PlanOf(y), Some(y.remote.rules))) == [] <==>
            CallsIn(Steps(PlanOf(z), Some(z.remote.rules))) == []
  {
    var p, q := PlanOf(y), PlanOf(z);
    PlanIgnoresRecordOrder(y, z);
    CallsAreMutations(p, y.remote.rules);
    CallsAreMutations(q, z.remote.rules);
    assert forall d :: d in p.dns <==> d in multiset(p.dns);
    assert forall d :: d in q.dns <==> d in multiset(q.dns);
  }

  ghost predicate NoException(m: Memory, c: Cycle) {
    forall h :: !AdoptedManualRoot(InputsOf(m, c), h) && !HiddenTwin(InputsOf(m, c), h) && !SparedByGuard(m, c, h)
  }

  lemma SilentUnlessException(m: Memory, v: World, c: Cycle, outcome: nat -> Outcome, norm: Fetch.Names)
    requires Smooth(m, v, c, norm)
    ensures NextCalls(m, v, c, outcome, norm) == [] <==> NoException(m, c)
  {
    NextCycleIsSilent(m, v, c, outcome, norm);
  }

  /** The second cycle sends nothing exactly if it would have sent nothing after reading in the zone's order. */
  lemma AgainAsArranged(m: Memory, w: World, c: Cycle, again: Cycle, norm: Fetch.Names, v: World, z: Inputs)
    requires SmoothInAnyOrder(m, w, c, norm) && Repeats(m, w, c, again, norm)
    requires v == Arranged(InputsOf(m, c), w, c.remote.records, norm)
    requires z == InputsOf(MemoryAfter(m, w, c), again)
    ensures Smooth(m, v, c, norm)
    ensures CallsIn(Steps(PlanOf(z), Some(z.remote.rules))) == [] <==> NextCalls(m, v, c, again.outcome, norm) == []
  {
    var y := NextInputs(m, v, c, again.outcome, norm);
    ReadAlike(m, w, c, again, norm, v);
    SilentAlike(y, z);
    NextCallsAre(m, v, c, again.outcome, norm, y);
  }

  lemma AgainIsSilent(m: Memory, w: World, c: Cycle, again: Cycle, norm: Fetch.Names, z: Inputs)
    requires SmoothInAnyOrder(m, w, c, norm) && Repeats(m, w, c, again, norm)
    requires z == InputsOf(MemoryAfter(m, w, c), again)
    ensures CallsIn(Steps(PlanOf(z), Some(z.remote.rules))) == [] <==> NoException(m, c)
  {
    var v := Arranged(InputsOf(m, c), w, c.remote.records, norm);
    AgainAsArranged(m, w, c, again, norm, v, z);
    SilentUnlessException(m, v, c, again.outcome, norm);
  }

  lemma AgainBuriesNothing(m: Memory, w: World, c: Cycle, again: Cycle, norm: Fetch.Names)
    requires SmoothInAnyOrder(m, w, c, norm) && Repeats(m, w, c, again, norm) && NoException(m, c)
    ensures var m', w' := MemoryAfter(m, w, c), WorldAfter(m, w, c); MemoryAfter(m', w', again) == m'
  {
    var m', w' := MemoryAfter(m, w, c), WorldAfter(m, w, c);
    var v := Arranged(InputsOf(m, c), w, c.remote.records, norm);
    var y, z := NextInputs(m, v, c, again.outcome, norm), InputsOf(m', again);
    ReadAlike(m, w, c, again, norm, v);
    MarksAgree(y, z);
    forall h ensures h !in ToSet(z) && h !in ToClear(z) { NextTombstonesStay(m, v, c, again.outcome, norm, h); }
    NothingBuried(m', w', again);
  }

  /**
   * Two cycles that read the same part of the zone in orders of their own in which every name ends on the same
   * record: the second sends nothing exactly outside the three exceptions, and then leaves server and memory as
   * they are.
   */
  lemma SettlesInAnyOrder(m: Memory, w: World, c: Cycle, again: Cycle, norm: Fetch.Names)
    requires SmoothInAnyOrder(m, w, c, norm) && Repeats(m, w, c, again, norm)
    ensures var m', w' := MemoryAfter(m, w, c), WorldAfter(m, w, c);
            && (ProgressOf(InputsOf(m', again), w', again.outcome).calls == [] <==> NoException(m, c))
            && (NoException(m, c) ==> MemoryAfter(m', w', again) == m' && WorldAfter(m', w', again) == w')
  {
    var m', w' := MemoryAfter(m, w, c), WorldAfter(m, w, c);
    var z := InputsOf(m', again);
    var steps := Steps(PlanOf(z), Some(z.remote.rules));
    AgainIsSilent(m, w, c, again, norm, z);
    RunMakesEveryCall(w', steps, again.outcome);
    if NoException(m, c) {
      AgainBuriesNothing(m, w, c, again, norm);
      NoCallsNoChange(w', steps, again.outcome);
    }
  }

  // ---------------------------------------------------------------- with the fetch in front

  ghost predicate NoRepeats(records: seq<Record>) {
    forall i, j :: 0 <= i < j < |records| ==> records[i].id != records[j].id
  }

  /** The values of a map of records, in some order. */
  ghost predicate Lists(records: seq<Record>, m: Fetch.Records) {
    NoRepeats(records) && forall r :: r in records <==> r.id in m && m[r.id] == r
  }

  lemma {:induction false} OnceEach(records: seq<Record>, r: Record)
    requires NoRepeats(records)
    ensures multiset(records)[r] == if r in records then 1 else 0
  {
    if records != [] {
      var init, last := records[..|records| - 1], records[|records| - 1];
      OnceEach(init, r);
      assert records == init + [last];
    }
  }

  lemma SameMembers(a: seq<Record>, b: seq<Record>)
    requires NoRepeats(a) && NoRepeats(b) && forall r :: r in a <==> r in b
    ensures multiset(a) == multiset(b)
  {
    forall r ensures multiset(a)[r] == multiset(b)[r] {
      OnceEach(a, r);
      OnceEach(b, r);
    }
  }

  lemma {:induction false} SeenOnce(x: Inputs, zone: seq<Record>, norm: Fetch.Names)
    requires NoRepeats(zone)
    ensures NoRepeats(Seen(x, zone, norm))
  {
    if zone != [] {
      var init, r := zone[..|zone| - 1], zone[|zone| - 1];
      SeenOnce(x, init, norm);
      assert zone == init + [r];
      SeenSnoc(x, init, r, norm);
      forall q | q in Seen(x, init, norm) ensures q.id != r.id { SeenExactly(x, init, norm, q); }
    }
  }

  /** A fetch that returned, and whose listing sufficed if it came by the batch path. */
  ghost predicate FetchServes(x: Inputs, s: Fetch.Server, m: Fetch.Records, norm: Fetch.Names) {
    var target, hosts := x.remote.target, HostNames(x.snapshot.origins);
    && Fetch.Faithful(s) && Fetch.Returned(m, s, target, hosts, norm)
    && (Fetch.Gathered(m, s, target, hosts, norm, hosts) ==> Fetch.ListingSuffices(s, target, hosts, norm))
  }

  /** What such a fetch returned, listed in any order, is a reading of what is in scope. */
  lemma FetchedIsSeen(x: Inputs, s: Fetch.Server, m: Fetch.Records, records: seq<Record>, norm: Fetch.Names)
    requires FetchServes(x, s, m, norm) && NoRepeats(s.zone) && Lists(records, m)
    ensures multiset(records) == multiset(Seen(x, s.zone, norm))
  {
    SeenOnce(x, s.zone, norm);
    Fetch.ReturnedExactly(m, s, x.remote.target, HostNames(x.snapshot.origins), norm);
    forall r ensures r in records <==> r in Seen(x, s.zone, norm) {
      Fetch.SpecifiedIsScoped(s, x.remote.target, HostNames(x.snapshot.origins), norm, r);
    }
    SameMembers(records, Seen(x, s.zone, norm));
  }

  /** A cycle whose records are the result m of a fetch, in any order, from a server holding this zone. */
  ghost predicate Fetches(before: Memory, w: World, c: Cycle, s: Fetch.Server, m: Fetch.Records, norm: Fetch.Names) {
    && FetchServes(InputsOf(before, c), s, m, norm) && Lists(c.remote.records, m)
    && s.zone == w.records && NoRepeats(w.records) && c.remote.rules == w.ingress
  }

  /** The first cycle: fetched, without failure, not stopped. */
  ghost predicate FetchesSmoothly(before: Memory, w: World, c: Cycle, s: Fetch.Server, m: Fetch.Records,
                                  norm: Fetch.Names) {
    && Fetches(before, w, c, s, m, norm)
    && Trimmed(c.remote.tunnelName) && AllDone(c.outcome) && NamesApart(w.records, c.outcome)
    && !c.settings.dryRun && !StoppedByGuard(before, c)
  }

  lemma RepeatlessIsDistinct(zone: seq<Record>)
    requires NoRepeats(zone)
    ensures DistinctIds(zone)
  {
    forall a, b | a in zone && b in zone && a.id == b.id ensures a == b {
      var i :| 0 <= i < |zone| && zone[i] == a;
      var j :| 0 <= j < |zone| && zone[j] == b;
    }
  }

  lemma FetchedReads(before: Memory, w: World, c: Cycle, s: Fetch.Server, m: Fetch.Records, norm: Fetch.Names)
    requires FetchesSmoothly(before, w, c, s, m, norm)
    ensures SmoothInAnyOrder(before, w, c, norm)
  {
    FetchedIsSeen(InputsOf(before, c), s, m, c.remote.records, norm);
    RepeatlessIsDistinct(w.records);
  }

  /** The same cycle again, its records fetched anew as m. */
  ghost predicate FetchesAgain(before: Memory, w: World, c: Cycle, again: Cycle, s: Fetch.Server, m: Fetch.Records,
                               norm: Fetch.Names) {
    && again == c.(remote := again.remote, outcome := again.outcome)
    && again.remote == c.remote.(rules := again.remote.rules, records := again.remote.records)
    && Fetches(MemoryAfter(before, w, c), WorldAfter(before, w, c), again, s, m, norm)
  }

  /**
   * From fetch to fetch: when two successive cycles, for the same services, settings and time, each work on what a
   * fetch returned by either path (the listing sufficing on the batch path), in any order with one record a name,
   * or else in orders in which every name ends on the same record, the second sends nothing exactly outside the
   * three exceptions, and then leaves server and memory as they are.
   */
  lemma FetchedCyclesSettle(before: Memory, w: World, c: Cycle, s: Fetch.Server, m: Fetch.Records,
                            again: Cycle, s': Fetch.Server, m': Fetch.Records, norm: Fetch.Names)
    requires FetchesSmoothly(before, w, c, s, m, norm)
    requires FetchesAgain(before, w, c, again, s', m', norm)
    requires NamesUnique(c.remote.records)
             || LastsAgree(again.remote.records, RecordsAfter(InputsOf(before, c), c.outcome))
    ensures var after, w' := MemoryAfter(before, w, c), WorldAfter(before, w, c);
            && (ProgressOf(InputsOf(after, again), w', again.outcome).calls == [] <==> NoException(before, c))
            && (NoException(before, c) ==> MemoryAfter(after, w', again) == after && WorldAfter(after, w', again) == w')
  {
    FetchedReads(before, w, c, s, m, norm);
    FetchedIsSeen(InputsOf(MemoryAfter(before, w, c), again), s', m', again.remote.records, norm);
    if NamesUnique(c.remote.records) { UniqueNamesAgree(before, w, c, again.remote.records, norm); }
    SettlesInAnyOrder(before, w, c, again, norm);
  }
}
