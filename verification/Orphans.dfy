/** What one cycle leaves behind when some of its requests fail: the promise that the next one converges, exactly. */
module Orphans {
  import opened Text
  import opened Models
  import opened Ingress
  import opened MergeFacts
  import opened Planner
  import opened PlanFacts
  import opened PlanTheorems
  import opened Executor
  import opened Effects
  import opened Aftermath
  import opened Sync
  import opened Runs
  import opened Convergence
  import opened Scope
  import opened Guarded
  import opened Fixpoint
  import opened Goals
  import Fetch

  // ---------------------------------------------------------------- runs with any outcomes

  /** No request deleting this record got through. */
  ghost predicate SparedBy(steps: seq<Step>, outcome: nat -> Outcome, id: string) {
    forall k: nat :: k < |steps| && steps[k].Attempt? && steps[k].call == DeleteDns(id) ==> outcome(k).Refused?
  }

  lemma SparedSnoc(steps: seq<Step>, s: Step, outcome: nat -> Outcome, id: string)
    ensures SparedBy(steps + [s], outcome, id) <==>
            SparedBy(steps, outcome, id) && (s.Attempt? && s.call == DeleteDns(id) ==> outcome(|steps|).Refused?)
  {
    var all := steps + [s];
    if SparedBy(all, outcome, id) {
      forall k: nat | k < |steps| && steps[k].Attempt? && steps[k].call == DeleteDns(id) ensures outcome(k).Refused? {
        assert all[k] == steps[k];
      }
      assert all[|steps|] == s;
    }
  }

  lemma CallSpares(w: World, c: Call, outcome: Outcome, r: Record)
    requires Mentions(c, r.id) ==> c == DeleteDns(r.id)
    requires !outcome.Refused? ==> outcome.newId != r.id
    ensures r in Apply(w, c, outcome).records <==> r in w.records && (c == DeleteDns(r.id) ==> outcome.Refused?)
  {
    if r in w.records && !Mentions(c, r.id) { CallKeepsOthers(w, c, outcome, r); }
    if r in Apply(w, c, outcome).records { CallOrigins(w, c, outcome, r); }
  }

  /** A record that requests only ever delete is there after a run exactly if none of them got through. */
  lemma {:induction false} SurvivesExactly(w: World, steps: seq<Step>, outcome: nat -> Outcome, r: Record)
    requires r in w.records
    requires forall c :: c in CallsIn(steps) && Mentions(c, r.id) ==> c == DeleteDns(r.id)
    requires forall k: nat :: !outcome(k).Refused? ==> outcome(k).newId != r.id
    ensures r in Run(w, steps, outcome, false).world.records <==> SparedBy(steps, outcome, r.id)
  {
    if steps != [] {
      var s, init := steps[|steps| - 1], steps[..|steps| - 1];
      CallsInPrefix(steps);
      SurvivesExactly(w, init, outcome, r);
      RunMakesEveryCall(w, init, outcome);
      assert steps == init + [s];
      SparedSnoc(init, s, outcome, r.id);
      if s.Attempt? {
        assert s.call in CallsIn(steps);
        CallSpares(Run(w, init, outcome, false).world, s.call, outcome(|init|), r);
      }
    }
  }

  ghost predicate Writes(c: Call, h: string) {
    (c.PutDns? || c.PostDns?) && c.body.name == h
  }

  /** A record under a name nobody writes was there before. */
  lemma {:induction false} UnwrittenIsOld(w: World, steps: seq<Step>, outcome: nat -> Outcome, r: Record)
    requires r in Run(w, steps, outcome, false).world.records
    requires forall c :: c in CallsIn(steps) ==> !Writes(c, r.name)
    ensures r in w.records
  {
    if steps != [] {
      var s, init := steps[|steps| - 1], steps[..|steps| - 1];
      CallsInPrefix(steps);
      RunMakesEveryCall(w, init, outcome);
      if s.Attempt? {
        assert s.call in CallsIn(steps);
        CallOrigins(Run(w, init, outcome, false).world, s.call, outcome(|init|), r);
      }
      UnwrittenIsOld(w, init, outcome, r);
    }
  }

  // ---------------------------------------------------------------- what a plan's requests do to an absent host

  ghost function StepsOf(x: Inputs): seq<Step> {
    Steps(PlanOf(x), Some(x.remote.rules))
  }

  lemma ChangeWritesActive(x: Inputs, d: DnsChange)
    requires x.snapshot.dockerOk && d in PlanOf(x).dns && (d.action == DUpdate || d.action == DCreate)
    ensures IsActive(x, d.hostname)
  {
    DnsChangeHasPick(DnsPicks(x), d);
    var p :| p in DnsPicks(x) && p.change == d;
    WritingVerdictIsActive(x, p);
  }

  lemma AbsentIsNotWritten(x: Inputs, c: Call, h: string)
    requires x.snapshot.dockerOk && !IsActive(x, h) && c in CallsIn(StepsOf(x))
    ensures !Writes(c, h)
  {
    CallsExactly(PlanOf(x), Some(x.remote.rules), c);
    if Writes(c, h) {
      var d :| d in PlanOf(x).dns && CallOf(d) == Some(c);
      ChangeWritesActive(x, d);
    }
  }

  /** This record of an absent host escaped deletion. */
  ghost predicate Spared(x: Inputs, outcome: nat -> Outcome, r: Record) {
    SparedBy(StepsOf(x), outcome, r.id)
  }

  lemma AbsentSurvivesExactly(x: Inputs, w: World, norm: Fetch.Names, outcome: nat -> Outcome, r: Record)
    requires Reading(x, w.records, norm) && NamesApart(w.records, outcome)
    requires r in w.records && Sees(x, r, norm) && !IsActive(x, r.name)
    ensures r in ProgressOf(x, w, outcome).world.records <==> Spared(x, outcome, r)
  {
    ReadingIsDistinct(x, w.records, norm);
    SeenExactly(x, w.records, norm, r);
    forall c | c in CallsIn(StepsOf(x)) && Mentions(c, r.id) ensures c == DeleteDns(r.id) {
      MentionIsItsVerdict(x, r, c);
    }
    SurvivesExactly(w, StepsOf(x), outcome, r);
  }

  lemma AbsentIsOld(x: Inputs, w: World, outcome: nat -> Outcome, r: Record)
    requires x.snapshot.dockerOk && !IsActive(x, r.name) && r in ProgressOf(x, w, outcome).world.records
    ensures r in w.records
  {
    forall c | c in CallsIn(StepsOf(x)) ensures !Writes(c, r.name) { AbsentIsNotWritten(x, c, r.name); }
    UnwrittenIsOld(w, StepsOf(x), outcome, r);
  }

  // ---------------------------------------------------------------- the routes

  /** A planned root deletion makes a PUT due. */
  lemma DeletionMakesPutDue(x: Inputs, h: string)
    requires x.snapshot.dockerOk && Action(x, h) == IDelete
    ensures IngressDue(PlanOf(x), Some(x.remote.rules))
  {
    DiffIsTruthful(x);
    DeletionIsAnnounced(x, h);
  }

  lemma DuePut(plan: Plan, rules: seq<Rule>) returns (put: Step)
    requires IngressDue(plan, Some(rules))
    ensures put.Attempt? && put.call == PutIngress(plan.finalRules)
            && Steps(plan, Some(rules)) == [put] + DnsSteps(plan.dns)
  {
    put := IngressSteps(plan, Some(rules))[0];
    assert IngressSteps(plan, Some(rules)) == [put];
  }

  lemma OnePut(w: World, put: Step, rules: seq<Rule>, outcome: nat -> Outcome)
    requires put.Attempt? && put.call == PutIngress(rules)
    ensures Run(w, [put], outcome, false).world.ingress == if outcome(0).Refused? then w.ingress else rules
  {
    RunSnoc(w, [], put, outcome, false);
    assert [] + [put] == [put];
  }

  lemma RoutesAfter(x: Inputs, w: World, outcome: nat -> Outcome, h: string)
    requires x.snapshot.dockerOk && Action(x, h) == IDelete && x.remote.rules == w.ingress
    ensures ProgressOf(x, w, outcome).world.ingress == if outcome(0).Refused? then w.ingress else PlanOf(x).finalRules
  {
    DeletionMakesPutDue(x, h);
    var put := DuePut(PlanOf(x), x.remote.rules);
    DnsLeavesIngress(w, [put], PlanOf(x).dns, outcome);
    OnePut(w, put, PlanOf(x).finalRules, outcome);
  }

  // ---------------------------------------------------------------- convergence after failures

  /** The controller looks again at what it left, at any later time, with any services, settings and tombstones. */
  ghost predicate LooksAgain(x: Inputs, y: Inputs, w: World, norm: Fetch.Names) {
    && y.snapshot.dockerOk
    && y.remote.rules == w.ingress && y.remote.records == Seen(y, w.records, norm)
    && y.remote.tunnelName == x.remote.tunnelName && y.remote.target == x.remote.target
        && y.cfg.tagPrefix == x.cfg.tagPrefix
  }

  /** The first cycle plans to remove the root of an absent host; any of its requests may fail. */
  ghost predicate Removing(x: Inputs, w: World, norm: Fetch.Names, outcome: nat -> Outcome, h: string) {
    && Reading(x, w.records, norm) && NamesApart(w.records, outcome) && x.remote.rules == w.ingress
    && !IsActive(x, h) && Action(x, h) == IDelete
  }

  lemma AbsentActionExactly(y: Inputs, h: string)
    requires !IsActive(y, h)
    ensures Action(y, h) == INoop || Action(y, h) == IDelete
    ensures Action(y, h) == IDelete <==>
            FirstRoot(y.remote.rules, h).Some? && OwnsHost(y, h) && FateOf(y, h) == Planner.Remove
  {
    ActionOfAbsent(y, h);
    AbsentWanted(y, h);
    if Action(y, h) != INoop { AbsentVerdict(y, h); }
  }

  /** The owner's view of the host when the controller looks again. */
  lemma OwnerSeenAgain(x: Inputs, w: World, norm: Fetch.Names, outcome: nat -> Outcome, y: Inputs, h: string)
      returns (q: Record)
    requires Removing(x, w, norm, outcome, h) && LooksAgain(x, y, ProgressOf(x, w, outcome).world, norm)
             && OwnsHost(y, h)
    ensures q in w.records && q.name == h && q.id != "" && StatusOf(x, q, false) == Owned && Spared(x, outcome, q)
  {
    var w' := ProgressOf(x, w, outcome).world;
    LastRecordIsThere(y.remote.records, h);
    q := LastRecord(y.remote.records, h).value;
    SeenExactly(y, w'.records, norm, q);
    AbsentIsOld(x, w, outcome, q);
    assert StatusOf(y, q, false) == StatusOf(x, q, false);
    OwnedIsSeen(x, q, norm);
    AbsentSurvivesExactly(x, w, norm, outcome, q);
  }

  /**
   * Orphaned roots: when the PUT is refused but no owned record of the host escapes deletion, the evidence that the
   * root was ours is gone; as long as the host stays away, every later plan keeps the root.
   */
  lemma FailedPutOrphansRoots(x: Inputs, w: World, norm: Fetch.Names, outcome: nat -> Outcome, y: Inputs, h: string)
    requires Removing(x, w, norm, outcome, h) && outcome(0).Refused?
    requires LooksAgain(x, y, ProgressOf(x, w, outcome).world, norm) && !IsActive(y, h)
    requires forall q :: q in w.records && q.name == h && q.id != "" && StatusOf(x, q, false) == Owned ==>
             !Spared(x, outcome, q)
    ensures FirstRoot(w.ingress, h).Some? && Action(y, h) == INoop
    ensures FirstRoot(PlanOf(y).finalRules, h) == FirstRoot(w.ingress, h)
  {
    RoutesAfter(x, w, outcome, h);
    AbsentVerdict(x, h);
    AbsentActionExactly(y, h);
    AbsentRootAfter(y, h);
    if OwnsHost(y, h) { var q := OwnerSeenAgain(x, w, norm, outcome, y, h); }
  }

  ghost predicate OnlyRecord(zone: seq<Record>, r: Record) {
    r in zone && forall q :: q in zone && q.name == r.name ==> q == r
  }

  lemma DeletedHostIsOwned(x: Inputs, w: World, norm: Fetch.Names, outcome: nat -> Outcome, r: Record)
    requires Removing(x, w, norm, outcome, r.name) && OnlyRecord(w.records, r)
    ensures Sees(x, r, norm) && r.name != "" && StatusOf(x, r, false) == Owned && FirstRoot(w.ingress, r.name).Some?
  {
    AbsentVerdict(x, r.name);
    LastRecordIsThere(x.remote.records, r.name);
    SeenExactly(x, w.records, norm, LastRecord(x.remote.records, r.name).value);
  }

  lemma SparedIsOwnedAgain(x: Inputs, w: World, norm: Fetch.Names, outcome: nat -> Outcome, y: Inputs, r: Record)
    requires Removing(x, w, norm, outcome, r.name) && OnlyRecord(w.records, r) && Spared(x, outcome, r)
    requires LooksAgain(x, y, ProgressOf(x, w, outcome).world, norm)
    ensures OwnsHost(y, r.name)
  {
    var w' := ProgressOf(x, w, outcome).world;
    DeletedHostIsOwned(x, w, norm, outcome, r);
    AbsentSurvivesExactly(x, w, norm, outcome, r);
    assert StatusOf(y, r, false) == StatusOf(x, r, false);
    OwnedIsSeen(y, r, norm);
    SeenExactly(y, w'.records, norm, r);
    LastRecordIsThere(y.remote.records, r.name);
    var q := LastRecord(y.remote.records, r.name).value;
    SeenExactly(y, w'.records, norm, q);
    AbsentIsOld(x, w, outcome, q);
  }

  /**
   * Retrying a refused PUT, exactly: whatever becomes of the other requests, the next plan past the deadline removes
   * the root again if and only if every request deleting the host's record was refused as well.
   */
  lemma RetriedExactly(x: Inputs, w: World, norm: Fetch.Names, outcome: nat -> Outcome, y: Inputs, r: Record)
    requires Removing(x, w, norm, outcome, r.name) && OnlyRecord(w.records, r) && outcome(0).Refused?
    requires LooksAgain(x, y, ProgressOf(x, w, outcome).world, norm)
    requires !IsActive(y, r.name) && FateOf(y, r.name) == Planner.Remove
    ensures Action(y, r.name) == IDelete <==> Spared(x, outcome, r)
  {
    RoutesAfter(x, w, outcome, r.name);
    DeletedHostIsOwned(x, w, norm, outcome, r);
    AbsentActionExactly(y, r.name);
    if Spared(x, outcome, r) { SparedIsOwnedAgain(x, w, norm, outcome, y, r); }
    if OwnsHost(y, r.name) { var q := OwnerSeenAgain(x, w, norm, outcome, y, r.name); }
  }

  /** After the first cycle a root of the host is still there, and the next plan does not remove it. */
  ghost predicate Stuck(y: Inputs, h: string) {
    FirstRoot(y.remote.rules, h).Some? && Action(y, h) != IDelete
  }

  /**
   * The promise that the next cycle converges, exactly, for a host with one root and one record and for any outcomes:
   * it is broken if and only if the PUT was refused and some request deleting the record was not.
   */
  lemma StuckExactly(x: Inputs, w: World, norm: Fetch.Names, outcome: nat -> Outcome, y: Inputs, r: Record)
    requires Removing(x, w, norm, outcome, r.name) && OnlyRecord(w.records, r)
             && FirstRoot(Kept(w.ingress, {}), r.name).None?
    requires LooksAgain(x, y, ProgressOf(x, w, outcome).world, norm)
    requires !IsActive(y, r.name) && FateOf(y, r.name) == Planner.Remove
    ensures Stuck(y, r.name) <==> outcome(0).Refused? && !Spared(x, outcome, r)
  {
    RoutesAfter(x, w, outcome, r.name);
    if outcome(0).Refused? {
      DeletedHostIsOwned(x, w, norm, outcome, r);
      RetriedExactly(x, w, norm, outcome, y, r);
    } else {
      AbsentVerdict(x, r.name);
      AbsentRootAfter(x, r.name);
    }
  }

  // ---------------------------------------------------------------- any number of records

  /** The records of one name, in order. */
  ghost function Named(records: seq<Record>, h: string): seq<Record> {
    if records == [] then []
    else
      var r, before := records[|records| - 1], Named(records[..|records| - 1], h);
      if r.name == h then before + [r] else before
  }

  /** The records no request got through to delete, in order. */
  ghost function SparedOf(records: seq<Record>, steps: seq<Step>, outcome: nat -> Outcome): seq<Record> {
    if records == [] then []
    else
      var r, before := records[|records| - 1], SparedOf(records[..|records| - 1], steps, outcome);
      if SparedBy(steps, outcome, r.id) then before + [r] else before
  }

  lemma {:induction false} NamedMembers(records: seq<Record>, h: string, r: Record)
    ensures r in Named(records, h) <==> r in records && r.name == h
  {
    if records != [] {
      NamedMembers(records[..|records| - 1], h, r);
      assert records == records[..|records| - 1] + [records[|records| - 1]];
    }
  }

  lemma {:induction false} SparedMembers(records: seq<Record>, steps: seq<Step>, outcome: nat -> Outcome, r: Record)
    ensures r in SparedOf(records, steps, outcome) <==> r in records && SparedBy(steps, outcome, r.id)
  {
    if records != [] {
      SparedMembers(records[..|records| - 1], steps, outcome, r);
      assert records == records[..|records| - 1] + [records[|records| - 1]];
    }
  }

  lemma NamedSnoc(records: seq<Record>, r: Record, h: string)
    ensures Named(records + [r], h) == if r.name == h then Named(records, h) + [r] else Named(records, h)
  {
    assert (records + [r])[..|records|] == records;
  }

  /** Rewriting a record under another name, of another name, leaves this name alone. */
  lemma {:induction false} NamedReplace(records: seq<Record>, id: string, b: Body, h: string)
    requires b.name != h && forall r :: r in records && r.name == h ==> r.id != id
    ensures Named(Replace(records, id, b), h) == Named(records, h)
  {
    if records != [] {
      var init, r := records[..|records| - 1], records[|records| - 1];
      assert r in records && forall q :: q in init ==> q in records;
      NamedReplace(init, id, b, h);
      NamedSnoc(Replace(init, id, b), if r.id == id then Stored(id, b) else r, h);
    }
  }

  lemma {:induction false} NamedRemove(records: seq<Record>, id: string, h: string)
    ensures Named(Executor.Remove(records, id), h) == Executor.Remove(Named(records, h), id)
  {
    if records != [] {
      var init, r := records[..|records| - 1], records[|records| - 1];
      NamedRemove(init, id, h);
      if r.id != id { NamedSnoc(Executor.Remove(init, id), r, h); }
      if r.name == h { assert (Named(init, h) + [r])[..|Named(init, h)|] == Named(init, h); }
    }
  }

  /** What one more step spares. */
  lemma {:induction false} SparedStep(records: seq<Record>, steps: seq<Step>, s: Step, outcome: nat -> Outcome)
    ensures SparedOf(records, steps + [s], outcome) ==
            if s.Attempt? && s.call.DeleteDns? && !outcome(|steps|).Refused?
            then Executor.Remove(SparedOf(records, steps, outcome), s.call.id) else SparedOf(records, steps, outcome)
  {
    if records != [] {
      var init, r := records[..|records| - 1], records[|records| - 1];
      SparedStep(init, steps, s, outcome);
      SparedSnoc(steps, s, outcome, r.id);
      var before := SparedOf(init, steps, outcome);
      assert (before + [r])[..|before|] == before;
    }
  }

  lemma {:induction false} NothingTried(records: seq<Record>, outcome: nat -> Outcome)
    ensures SparedOf(records, [], outcome) == records
  {
    if records != [] {
      NothingTried(records[..|records| - 1], outcome);
      assert records == records[..|records| - 1] + [records[|records| - 1]];
    }
  }

  /** One call, whatever its outcome, as far as a name nobody writes is concerned. */
  lemma NamedAfterCall(w: World, c: Call, outcome: Outcome, h: string)
    requires !Writes(c, h)
    requires c.PutDns? ==> forall r :: r in w.records && r.name == h ==> r.id != c.id
    ensures Named(Apply(w, c, outcome).records, h) ==
            if c.DeleteDns? && !outcome.Refused? then Executor.Remove(Named(w.records, h), c.id)
                else Named(w.records, h)
  {
    match c
    case PutIngress(_) =>
    case PostDns(b) => if !outcome.Refused? { NamedSnoc(w.records, Stored(outcome.newId, b), h); }
    case PutDns(id, b) => NamedReplace(w.records, id, b, h);
    case DeleteDns(id) => NamedRemove(w.records, id, h);
  }

  /** Requests only delete under this name. */
  ghost predicate OnlyDeletes(calls: seq<Call>, records: seq<Record>, h: string) {
    forall c :: c in calls ==> !Writes(c, h) && (c.PutDns? ==> forall r :: r in records && r.name == h ==> r.id != c.id)
  }

  /** After a run with any outcomes the records of such a name are, in order, those no deletion got through for. */
  lemma {:induction false} NamedAfterRun(w: World, steps: seq<Step>, outcome: nat -> Outcome, h: string)
    requires OnlyDeletes(CallsIn(steps), w.records, h)
    ensures Named(Run(w, steps, outcome, false).world.records, h) == SparedOf(Named(w.records, h), steps, outcome)
  {
    if steps == [] {
      NothingTried(Named(w.records, h), outcome);
    } else {
      var init, s := steps[..|steps| - 1], steps[|steps| - 1];
      CallsInPrefix(steps);
      NamedAfterRun(w, init, outcome, h);
      RunMakesEveryCall(w, init, outcome);
      assert steps == init + [s];
      SparedStep(Named(w.records, h), init, s, outcome);
      if s.Attempt? {
        var before := Run(w, init, outcome, false).world;
        assert s.call in CallsIn(steps);
        forall r | r in before.records && r.name == h ensures r in w.records {
          NamedMembers(before.records, h, r);
          SparedMembers(Named(w.records, h), init, outcome, r);
          NamedMembers(w.records, h, r);
        }
        NamedAfterCall(before, s.call, outcome(|init|), h);
      }
    }
  }

  lemma AbsentOnlyDeleted(x: Inputs, zone: seq<Record>, norm: Fetch.Names, h: string)
    requires Reading(x, zone, norm) && !IsActive(x, h)
    ensures OnlyDeletes(CallsIn(StepsOf(x)), zone, h)
  {
    forall c | c in CallsIn(StepsOf(x))
      ensures !Writes(c, h) && (c.PutDns? ==> forall r :: r in zone && r.name == h ==> r.id != c.id)
    {
      AbsentIsNotWritten(x, c, h);
      forall r | c.PutDns? && r in zone && r.name == h ensures r.id != c.id {
        if r.id == c.id { AbsentIsNotRewritten(x, zone, norm, r, c); }
      }
    }
  }

  lemma AbsentIsNotRewritten(x: Inputs, zone: seq<Record>, norm: Fetch.Names, r: Record, c: Call)
    requires Reading(x, zone, norm) && r in zone && !IsActive(x, r.name)
    requires c in CallsIn(StepsOf(x)) && Mentions(c, r.id)
    ensures c == DeleteDns(r.id)
  {
    ReadingIsDistinct(x, zone, norm);
    MentionedIsFetched(x, c);
    var q :| q in x.remote.records && q.id == c.id;
    SeenExactly(x, zone, norm, q);
    MentionIsItsVerdict(x, r, c);
  }

  lemma {:induction false} SeenByName(y: Inputs, records: seq<Record>, norm: Fetch.Names, h: string)
    ensures LastRecord(Seen(y, records, norm), h) == LastRecord(Seen(y, Named(records, h), norm), h)
  {
    if records != [] {
      var init, r := records[..|records| - 1], records[|records| - 1];
      assert records == init + [r];
      SeenByName(y, init, norm, h);
      SeenSnoc(y, init, r, norm);
      if r.name == h { SeenSnoc(y, Named(init, h), r, norm); }
    }
  }

  /**
   * The record that speaks for the host after the run: the last seen one of its name that no deletion got
   * through for.
   */
  ghost function Speaker(x: Inputs, w: World, outcome: nat -> Outcome, y: Inputs, norm: Fetch.Names,
      h: string): Option<Record> {
    LastRecord(Seen(y, SparedOf(Named(w.records, h), StepsOf(x), outcome), norm), h)
  }

  /** It is there, and ours. */
  ghost predicate SpeaksForUs(x: Inputs, w: World, outcome: nat -> Outcome, y: Inputs, norm: Fetch.Names, h: string) {
    var r := Speaker(x, w, outcome, y, norm, h); r.Some? && StatusOf(x, r.value, false) == Owned
  }

  lemma SpeakerIsLast(x: Inputs, w: World, norm: Fetch.Names, outcome: nat -> Outcome, y: Inputs, h: string)
    requires Reading(x, w.records, norm) && !IsActive(x, h)
    requires LooksAgain(x, y, ProgressOf(x, w, outcome).world, norm)
    ensures LastRecord(y.remote.records, h) == Speaker(x, w, outcome, y, norm, h)
    ensures OwnsHost(y, h) <==> SpeaksForUs(x, w, outcome, y, norm, h)
  {
    AbsentOnlyDeleted(x, w.records, norm, h);
    NamedAfterRun(w, StepsOf(x), outcome, h);
    SeenByName(y, ProgressOf(x, w, outcome).world.records, norm, h);
    var last := LastRecord(y.remote.records, h);
    if last.Some? { assert StatusOf(y, last.value, false) == StatusOf(x, last.value, false); }
  }

  /**
   * The promise that the next cycle converges, exactly, for any number of roots and records of the host and for any
   * outcomes: past the deadline a root stays if and only if one is left, because the PUT was refused or a root repeated
   * it, and the last seen record of that name that no deletion got through for, if any, is not ours.
   */
  lemma StuckInGeneral(x: Inputs, w: World, norm: Fetch.Names, outcome: nat -> Outcome, y: Inputs, h: string)
    requires Removing(x, w, norm, outcome, h)
    requires LooksAgain(x, y, ProgressOf(x, w, outcome).world, norm)
    requires !IsActive(y, h) && FateOf(y, h) == Planner.Remove
    ensures Stuck(y, h) <==>
            && (outcome(0).Refused? || FirstRoot(Kept(w.ingress, {}), h).Some?)
            && !SpeaksForUs(x, w, outcome, y, norm, h)
  {
    RoutesAfter(x, w, outcome, h);
    AbsentVerdict(x, h);
    AbsentRootAfter(x, h);
    AbsentActionExactly(y, h);
    SpeakerIsLast(x, w, norm, outcome, y, h);
  }

  // ---------------------------------------------------------------- such an input

  const ONLY_PUT_FAILS: nat -> Outcome := k => if k == 0 then Refused else Done("2")

  lemma DueIsRemoved(x: Inputs)
    requires x.snapshot == Snapshot(true, []) && x.remote == Remote("t", TARGET, DUE.ingress, [ITS_RECORD])
    requires x.cfg.tagPrefix == TAG_PREFIX && FateOf(x, HOST) == Planner.Remove
    ensures !IsActive(x, HOST) && Action(x, HOST) == IDelete && OwnsHost(x, HOST)
  {
    ItsRecordIsOwned(x);
    assert IsRoot(OURS) && Host(OURS) == HOST;
    AbsentActionExactly(x, HOST);
  }

  lemma {:induction false} CallHasStep(steps: seq<Step>, c: Call) returns (k: nat)
    requires c in CallsIn(steps)
    ensures k < |steps| && steps[k].Attempt? && steps[k].call == c
  {
    k := |steps| - 1;
    if !(steps[k].Attempt? && steps[k].call == c) { k := CallHasStep(steps[..k], c); }
  }

  lemma ItsRecordIsNotSpared(x: Inputs)
    requires x.snapshot == Snapshot(true, []) && x.remote == Remote("t", TARGET, DUE.ingress, [ITS_RECORD])
    requires x.cfg.tagPrefix == TAG_PREFIX && FateOf(x, HOST) == Planner.Remove
    ensures !Spared(x, ONLY_PUT_FAILS, ITS_RECORD)
  {
    DueIsRemoved(x);
    ItsRecordIsOwned(x);
    OwnedIsDropped(x, ITS_RECORD);
    DroppedIsCalled(x, ITS_RECORD);
    DeletionMakesPutDue(x, HOST);
    var put := DuePut(PlanOf(x), x.remote.rules);
    var k := CallHasStep(StepsOf(x), DeleteDns("1"));
    assert StepsOf(x)[0] == put;
  }

  lemma DueIsRead(x: Inputs, norm: Fetch.Names)
    requires x.snapshot == Snapshot(true, []) && x.remote == Remote("t", TARGET, DUE.ingress, [ITS_RECORD])
    requires x.cfg.tagPrefix == TAG_PREFIX
    ensures Reading(x, DUE.records, norm) && NamesApart(DUE.records, ONLY_PUT_FAILS)
  {
    OneRecordSeen(x, ITS_RECORD, norm);
  }

  lemma DueIsRemoving(x: Inputs, norm: Fetch.Names)
    requires x.snapshot == Snapshot(true, []) && x.remote == Remote("t", TARGET, DUE.ingress, [ITS_RECORD])
    requires x.cfg.tagPrefix == TAG_PREFIX && FateOf(x, HOST) == Planner.Remove
    ensures Removing(x, DUE, norm, ONLY_PUT_FAILS, HOST)
  {
    DueIsRead(x, norm);
    DueIsRemoved(x);
  }

  lemma DueIsOrphaned(x: Inputs, norm: Fetch.Names, y: Inputs)
    requires Removing(x, DUE, norm, ONLY_PUT_FAILS, HOST) && !Spared(x, ONLY_PUT_FAILS, ITS_RECORD)
    requires LooksAgain(x, y, ProgressOf(x, DUE, ONLY_PUT_FAILS).world, norm) && !IsActive(y, HOST)
    ensures FirstRoot(y.remote.rules, HOST).Some? && Action(y, HOST) == INoop
  {
    RoutesAfter(x, DUE, ONLY_PUT_FAILS, HOST);
    FailedPutOrphansRoots(x, DUE, norm, ONLY_PUT_FAILS, y, HOST);
  }

  /** The next look at this server, without services. */
  lemma LookAgain(x: Inputs, w: World, norm: Fetch.Names) returns (y: Inputs)
    requires x.snapshot == Snapshot(true, [])
    ensures LooksAgain(x, y, w, norm) && y.snapshot == x.snapshot && y.cfg == x.cfg
  {
    var records := Fetch.Scoped(w.records, x.remote.target, [], norm);
    y := x.(remote := x.remote.(rules := w.ingress, records := records), now := 1.0);
    assert HostNames([]) == [];
  }

  /** One refused PUT is enough: this root is due for removal in both cycles, and stays. */
  lemma OrphansExist(norm: Fetch.Names) returns (x: Inputs, y: Inputs)
    ensures Removing(x, DUE, norm, ONLY_PUT_FAILS, HOST)
    ensures LooksAgain(x, y, ProgressOf(x, DUE, ONLY_PUT_FAILS).world, norm)
    ensures FateOf(y, HOST) == Planner.Remove && FirstRoot(y.remote.rules, HOST).Some? && Action(y, HOST) == INoop
  {
    x := Inputs(Snapshot(true, []), Remote("t", TARGET, DUE.ingress, [ITS_RECORD]), map[], 0.0,
                Config(AdoptAndManage, 0.0, false, false, TAG_PREFIX, false));
    DueIsRemoving(x, norm);
    ItsRecordIsNotSpared(x);
    y := LookAgain(x, ProgressOf(x, DUE, ONLY_PUT_FAILS).world, norm);
    NobodyIsActive(y, HOST);
    DueIsOrphaned(x, norm, y);
  }
}
