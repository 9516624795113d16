/** Convergence: after one failure-free cycle, when does the next one have nothing to do? */
module Convergence {
  import opened Text
  import opened Models
  import opened Ingress
  import opened MergeFacts
  import opened Planner
  import opened PlanFacts
  import opened PlanTheorems
  import opened Executor
  import opened Effects
  import opened Aftermath
  import opened Sync
  import opened Runs

  /** A first cycle that reaches the server undisturbed, from any remote state and any tombstones. */
  ghost predicate Undisturbed(x: Inputs, outcome: nat -> Outcome) {
    && x.snapshot.dockerOk
    && DistinctIds(x.remote.records)
    && Tag(x) != "" && Trimmed(Tag(x))
    && AllDone(outcome)
    && forall k: nat, r :: r in x.remote.records ==> outcome(k).newId != r.id
  }

  ghost function Made(x: Inputs, outcome: nat -> Outcome): seq<Record> {
    Created(Steps(PlanOf(x), Some(x.remote.rules)), outcome)
  }

  ghost function RecordsAfter(x: Inputs, outcome: nat -> Outcome): seq<Record> {
    Image(x, x.remote.records) + Made(x, outcome)
  }

  /** The next cycle: same services, settings and time; remote state and tombstones as the first cycle left them. */
  ghost predicate Follows(x: Inputs, y: Inputs, outcome: nat -> Outcome) {
    && y == x.(remote := y.remote, tombstones := y.tombstones)
    && y.remote == x.remote.(rules := y.remote.rules, records := y.remote.records)
    && y.remote.rules == PlanOf(x).finalRules
    && y.remote.records == RecordsAfter(x, outcome)
    && forall h :: TombstoneMoves(x, x.tombstones, y.tombstones, true, h)
  }

  /** A manual root preserved in the first cycle while its record is adopted: the second cycle overwrites it. */
  ghost predicate AdoptedManualRoot(x: Inputs, h: string) {
    && IsActive(x, h) && KeepsManualRoot(x, h)
    && x.cfg.policy != StrictTaggedOnly
    && StatusOf(x, LastRecord(x.remote.records, h).value, true) == Adopted
    && (var root, o := FirstRoot(x.remote.rules, h).value, Active(x.snapshot.origins)[h];
        ServiceText(root) != o.service || RequestOf(root) != if o.originRequest.Some? then o.originRequest.value
            else map[])
  }

  /** A root deleted in the first cycle whose next twin stands behind the first catch-all. */
  ghost predicate HiddenTwin(x: Inputs, h: string) {
    && !IsActive(x, h) && OwnsHost(x, h) && FateOf(x, h) == Planner.Remove
    && FirstRoot(Kept(x.remote.rules, {}), h).Some?
    && FirstRoot(BeforeFallback(Kept(x.remote.rules, {})), h).None?
  }

  // ---------------------------------------------------------------- records of the second cycle

  lemma SameStatus(x: Inputs, y: Inputs, outcome: nat -> Outcome, r: Record, a: bool)
    requires Follows(x, y, outcome)
    ensures StatusOf(y, r, a) == StatusOf(x, r, a) && Tag(y) == Tag(x)
  {
  }

  lemma OurRecordIsOwned(x: Inputs, id: string, h: string, a: bool)
    requires Tag(x) != "" && Trimmed(Tag(x))
    ensures StatusOf(x, OurRecord(x, id, h), a) == Owned
    ensures CommentText(OurRecord(x, id, h)) == Tag(x)
  {
    WrittenTagIsOwned(Tagger(x), OurRecord(x, id, h), x.remote.target, a);
    StripFixesTrimmed(Tag(x));
  }

  lemma MadeIsCreation(x: Inputs, outcome: nat -> Outcome, p: Record)
    requires Undisturbed(x, outcome) && p in Made(x, outcome)
    ensures IsCreation(x, p)
  {
    CreatedIsCreation(x, outcome, p);
  }

  lemma MadeWhereMissing(x: Inputs, outcome: nat -> Outcome, h: string) returns (p: Record)
    requires Undisturbed(x, outcome) && IsActive(x, h) && LastRecord(x.remote.records, h).None?
    ensures p in Made(x, outcome) && p.name == h
  {
    p := MissingIsCreated(x, outcome, h);
  }

  /** New records are made exactly for the active hosts that had none. */
  lemma LastMade(x: Inputs, outcome: nat -> Outcome, h: string)
    requires Undisturbed(x, outcome)
    ensures LastRecord(Made(x, outcome), h).Some? <==> IsActive(x, h) && LastRecord(x.remote.records, h).None?
    ensures LastRecord(Made(x, outcome), h).Some? ==>
              var p := LastRecord(Made(x, outcome), h).value; p == OurRecord(x, p.id, h)
  {
    LastRecordIsThere(Made(x, outcome), h);
    ActiveNamed(x.snapshot.origins);
    if LastRecord(Made(x, outcome), h).Some? { MadeIsCreation(x, outcome, LastRecord(Made(x, outcome), h).value); }
    if IsActive(x, h) && LastRecord(x.remote.records, h).None? { var p := MadeWhereMissing(x, outcome, h); }
  }

  lemma LastAfter(x: Inputs, outcome: nat -> Outcome, h: string)
    requires Undisturbed(x, outcome)
    ensures LastRecord(RecordsAfter(x, outcome), h) ==
            if IsActive(x, h) && LastRecord(x.remote.records, h).None? then LastRecord(Made(x, outcome), h)
            else LastRecord(Image(x, x.remote.records), h)
  {
    LastOfConcat(Image(x, x.remote.records), Made(x, outcome), h);
    LastMade(x, outcome, h);
  }

  lemma ActiveKeepsItsLast(x: Inputs, h: string)
    requires IsActive(x, h) && LastRecord(x.remote.records, h).Some?
    ensures var r := LastRecord(x.remote.records, h).value;
            LastRecord(Image(x, x.remote.records), h) ==
            Some(if ActiveDns(x, h).action == DUpdate then OurRecord(x, r.id, h) else r)
  {
    var records := x.remote.records;
    LastRecordIsThere(records, h);
    forall r | r in records && r.name == h ensures NewRecord(x, r).Some? {}
    LastOfImage(x, records, h);
  }

  lemma CreateIffNone(x: Inputs, h: string)
    ensures ActiveDns(x, h).action == DCreate <==> LastRecord(x.remote.records, h).None?
  {
  }

  /** The last record of an active host after the first cycle: ours if created or claimed, else as it was. */
  lemma LastOfActive(x: Inputs, outcome: nat -> Outcome, h: string)
    requires Undisturbed(x, outcome) && IsActive(x, h)
    ensures var before, after := LastRecord(x.remote.records, h), LastRecord(RecordsAfter(x, outcome), h);
            && after.Some?
            && (if ActiveDns(x, h).action == DCreate || ActiveDns(x, h).action == DUpdate
                then after.value == OurRecord(x, after.value.id, h)
                else after == before)
  {
    LastAfter(x, outcome, h);
    LastMade(x, outcome, h);
    CreateIffNone(x, h);
    if LastRecord(x.remote.records, h).Some? { ActiveKeepsItsLast(x, h); }
  }

  lemma AbsentKeepsOrDrops(x: Inputs, records: seq<Record>, h: string)
    requires !IsActive(x, h)
    ensures FateOf(x, h) != Planner.Remove ==> LastRecord(Image(x, records), h) == LastRecord(records, h)
    ensures LastRecord(Image(x, records), h).Some? ==>
              var r := LastRecord(Image(x, records), h).value; r in records && r.name == h && !Dropped(x, r)
  {
    LastRecordIsThere(records, h);
    if FateOf(x, h) != Planner.Remove {
      forall r | r in records && r.name == h ensures NewRecord(x, r) == Some(r) {}
      LastOfImage(x, records, h);
    }
    if LastRecord(Image(x, records), h).Some? { var r := LastOfImageFrom(x, records, h); }
  }

  /** The last record of an absent host after the first cycle: as before unless its time was up. */
  lemma LastOfAbsent(x: Inputs, outcome: nat -> Outcome, h: string)
    requires Undisturbed(x, outcome) && !IsActive(x, h)
    ensures var before, after := LastRecord(x.remote.records, h), LastRecord(RecordsAfter(x, outcome), h);
            && (FateOf(x, h) != Planner.Remove ==> after == before)
            && (after.Some? ==> after.value in x.remote.records && after.value.name == h && !Dropped(x, after.value))
  {
    LastAfter(x, outcome, h);
    AbsentKeepsOrDrops(x, x.remote.records, h);
  }

  lemma OwnsAbsent(x: Inputs, y: Inputs, outcome: nat -> Outcome, h: string)
    requires Undisturbed(x, outcome) && Follows(x, y, outcome) && !IsActive(x, h)
    ensures OwnsHost(y, h) <==> OwnsHost(x, h) && FateOf(x, h) != Planner.Remove
  {
    LastOfAbsent(x, outcome, h);
    LastRecordIsThere(y.remote.records, h);
    var after := LastRecord(y.remote.records, h);
    if after.Some? {
      SameStatus(x, y, outcome, after.value, false);
      if StatusOf(x, after.value, false) == Owned && FateOf(x, h) == Planner.Remove { OwnedIsDropped(x, after.value); }
    }
  }

  lemma OwnedIsDropped(x: Inputs, r: Record)
    requires r.name != "" && !IsActive(x, r.name) && StatusOf(x, r, false) == Owned
             && FateOf(x, r.name) == Planner.Remove
    ensures Dropped(x, r)
  {
  }

  // ---------------------------------------------------------------- DNS is settled

  lemma OursIsKept(y: Inputs, h: string, r: Record)
    requires Tag(y) != "" && Trimmed(Tag(y))
    requires LastRecord(y.remote.records, h) == Some(r) && r == OurRecord(y, r.id, h)
    ensures ActiveDns(y, h).action == DNoop
  {
    OurRecordIsOwned(y, r.id, h, true);
  }

  lemma SameVerdict(x: Inputs, y: Inputs, h: string)
    requires y.cfg == x.cfg && y.remote == x.remote.(rules := y.remote.rules, records := y.remote.records)
    requires LastRecord(y.remote.records, h) == LastRecord(x.remote.records, h)
    ensures ActiveDns(y, h) == ActiveDns(x, h)
  {
  }

  lemma ActiveDnsIsSettled(x: Inputs, y: Inputs, outcome: nat -> Outcome, h: string)
    requires Undisturbed(x, outcome) && Follows(x, y, outcome) && IsActive(x, h)
    ensures ActiveDns(y, h).action == DNoop || ActiveDns(y, h).action == DProtect
  {
    LastOfActive(x, outcome, h);
    ActiveDnsIs(x, h);
    var r := LastRecord(y.remote.records, h).value;
    if ActiveDns(x, h).action == DCreate || ActiveDns(x, h).action == DUpdate {
      assert OurRecord(y, r.id, h) == OurRecord(x, r.id, h);
      OursIsKept(y, h, r);
    } else {
      SameVerdict(x, y, h);
    }
  }

  /** An absent host's tombstone after the first cycle keeps the second from deleting anything it manages. */
  lemma FateAfter(x: Inputs, y: Inputs, outcome: nat -> Outcome, h: string)
    requires Follows(x, y, outcome) && !IsActive(x, h) && Lingers(x, h) && FateOf(x, h) != Planner.Remove
    ensures FateOf(y, h) == Wait
  {
    assert TombstoneMoves(x, x.tombstones, y.tombstones, true, h);
  }

  lemma DesiredAbsentRoot(x: Inputs, h: string)
    requires !IsActive(x, h) && h in Desired(x)
    ensures FirstRoot(x.remote.rules, h).Some? && FirstRoot(x.remote.rules, h) == Some(Desired(x)[h])
    ensures Wanted(x, h) == FirstRoot(x.remote.rules, h)
  {
    DesiredExactly(x, h);
    PickHost(x, h);
  }

  lemma DesiredAbsentStays(rules: seq<Rule>, desired: map<string, Rule>, h: string)
    requires Roots(desired) && h in desired && FirstRoot(rules, h) == Some(desired[h])
    ensures FirstRoot(Merge(rules, desired), h) == FirstRoot(rules, h)
  {
    MergeReaches(rules, desired, h);
    FirstRootIsRoot(rules, h);
    OverlaySelf(desired[h]);
  }

  lemma NoNewAbsentRoots(x: Inputs, h: string)
    requires x.snapshot.dockerOk && !IsActive(x, h)
    ensures FirstRoot(PlanOf(x).finalRules, h) ==
            if h in Desired(x) then FirstRoot(x.remote.rules, h) else FirstRoot(Kept(x.remote.rules, {}), h)
    ensures FirstRoot(PlanOf(x).finalRules, h).Some? ==> FirstRoot(x.remote.rules, h).Some?
    ensures h in Desired(x) ==> FirstRoot(x.remote.rules, h).Some? && Wanted(x, h) == FirstRoot(x.remote.rules, h)
  {
    DesiredRoots(x);
    KeptIsWithin(x.remote.rules, {}, h);
    if h in Desired(x) {
      DesiredAbsentRoot(x, h);
      DesiredAbsentStays(x.remote.rules, Desired(x), h);
    } else {
      MergeOthers(x.remote.rules, Desired(x), h);
    }
  }

  lemma {:induction false} KeptIsWithin(rules: seq<Rule>, seen: set<string>, h: string)
    ensures FirstRoot(Kept(rules, seen), h).Some? ==> FirstRoot(rules, h).Some?
  {
    if rules != [] {
      KeptIsWithin(rules[1..], seen, h);
      KeptIsWithin(rules[1..], seen + {Host(rules[0])}, h);
      FirstRootCons(rules[0], Kept(rules[1..], seen), h);
    }
  }

  lemma MergeOthers(existing: seq<Rule>, desired: map<string, Rule>, h: string)
    requires Roots(desired) && h !in desired
    ensures FirstRoot(Merge(existing, desired), h) == FirstRoot(Kept(existing, {}), h)
    ensures FirstRoot(BeforeFallback(Merge(existing, desired)), h) == FirstRoot(BeforeFallback(Kept(existing, {})), h)
  {
    MergeFromOthers(existing, desired, {}, h);
    var m := MergeFrom(existing, desired, {});
    WithoutSnoc(m, NOT_FOUND, {});
    FirstRootAppend(m, NOT_FOUND, h);
  }

  lemma {:induction false} FirstRootAppend(rules: seq<Rule>, o: Rule, h: string)
    requires !HasHost(o)
    ensures FirstRoot(rules + [o], h) == FirstRoot(rules, h)
  {
    if rules == [] {
      assert rules + [o] == [o];
    } else {
      assert (rules + [o])[1..] == rules[1..] + [o];
      FirstRootAppend(rules[1..], o, h);
    }
  }

  lemma AbsentSurvivor(x: Inputs, outcome: nat -> Outcome, r: Record)
    requires Undisturbed(x, outcome) && r in RecordsAfter(x, outcome) && !IsActive(x, r.name)
    ensures r in x.remote.records && !Dropped(x, r)
  {
    if r in Made(x, outcome) { MadeIsCreation(x, outcome, r); }
    AbsentInImage(x, x.remote.records, r);
  }

  lemma AbsentInImage(x: Inputs, records: seq<Record>, r: Record)
    requires r in Image(x, records) && !IsActive(x, r.name)
    ensures r in records && !Dropped(x, r)
  {
    var q := ImageMembers(x, records, r);
    NewRecordKeepsName(x, q);
  }

  /** What the second cycle would manage, the first managed too, or has just buried. */
  lemma ManagedBefore(x: Inputs, y: Inputs, outcome: nat -> Outcome, r: Record)
    requires Follows(x, y, outcome) && x.snapshot.dockerOk && !IsActive(x, r.name)
    requires Managed(y, r)
    ensures Managed(x, r) || (Lingers(x, r.name) && FateOf(x, r.name) == Begin)
  {
    SameStatus(x, y, outcome, r, false);
    NoNewAbsentRoots(x, r.name);
    assert TombstoneMoves(x, x.tombstones, y.tombstones, true, r.name);
  }

  lemma AbsentDnsIsSettled(x: Inputs, y: Inputs, outcome: nat -> Outcome, r: Record)
    requires Undisturbed(x, outcome) && Follows(x, y, outcome)
    requires r in y.remote.records && Absent(y, Active(y.snapshot.origins), r)
    ensures !(Managed(y, r) && FateOf(y, r.name) == Planner.Remove)
  {
    AbsentSurvivor(x, outcome, r);
    if Managed(y, r) {
      ManagedBefore(x, y, outcome, r);
      SameRelevance(x, y, outcome, r);
      if Managed(x, r) { assert LingeringRecord(x, r.name, r); }
      FateAfter(x, y, outcome, r.name);
    }
  }

  lemma SameRelevance(x: Inputs, y: Inputs, outcome: nat -> Outcome, r: Record)
    requires Follows(x, y, outcome)
    ensures Relevant(y, r) == Relevant(x, r)
    ensures Absent(y, Active(y.snapshot.origins), r) == Absent(x, Active(x.snapshot.origins), r)
  {
  }

  lemma NothingForDns(x: Inputs, y: Inputs, outcome: nat -> Outcome, d: DnsChange)
    requires Undisturbed(x, outcome) && Follows(x, y, outcome) && d in PlanOf(y).dns
    ensures d.action == DNoop || d.action == DProtect
  {
    DnsChangeHasPick(DnsPicks(y), d);
    var p :| p in DnsPicks(y) && p.change == d;
    DnsPicksExactly(y, p);
    if IsActive(y, p.host) && p == DnsPick(p.host, ActiveDns(y, p.host), Unmarked) {
      ActiveDnsIsSettled(x, y, outcome, p.host);
    } else {
      var r :| FromRecord(y, p, r);
      AbsentDnsIsSettled(x, y, outcome, r);
      MissingDnsIs(y, r);
    }
  }

  // ---------------------------------------------------------------- ingress is settled, or not

  /** The service and request an active host is given by the first cycle. */
  ghost function GivenService(x: Inputs, h: string): string
    requires IsActive(x, h)
  {
    if KeepsManualRoot(x, h) then ServiceText(FirstRoot(x.remote.rules, h).value)
        else Active(x.snapshot.origins)[h].service
  }

  ghost function OriginRequestOf(o: Origin): OriginRequest {
    if o.originRequest.Some? then o.originRequest.value else map[]
  }

  ghost function GivenRequest(x: Inputs, h: string): OriginRequest
    requires IsActive(x, h)
  {
    if KeepsManualRoot(x, h) then RequestOf(FirstRoot(x.remote.rules, h).value)
        else OriginRequestOf(Active(x.snapshot.origins)[h])
  }

  lemma WantedOfActive(x: Inputs, h: string)
    requires IsActive(x, h)
    ensures Wanted(x, h) == Some(Rule(Some(h), None, Some(GivenService(x, h)), RequestKey(GivenRequest(x, h)), map[]))
  {
  }

  lemma ActiveRootAfter(x: Inputs, h: string)
    requires x.snapshot.dockerOk && IsActive(x, h)
    ensures var root := FirstRoot(PlanOf(x).finalRules, h);
            && root.Some? && FirstRoot(BeforeFallback(PlanOf(x).finalRules), h) == root
            && root.value.service == Some(GivenService(x, h))
            && root.value.originRequest == RequestKey(GivenRequest(x, h))
  {
    DesiredRoots(x);
    DesiredExactly(x, h);
    WantedOfActive(x, h);
    MergeReaches(x.remote.rules, Desired(x), h);
  }

  lemma RequestOfKey(root: Rule, q: OriginRequest)
    requires root.originRequest == RequestKey(q)
    ensures RequestOf(root) == q && root.originRequest != Some(map[])
  {
  }

  /** The second cycle's verdict on an active host, given its root and whether a manual root is kept. */
  lemma ActiveVerdict(y: Inputs, h: string)
    requires IsActive(y, h) && FirstRoot(y.remote.rules, h).Some?
    ensures var root, o := FirstRoot(y.remote.rules, h).value, Active(y.snapshot.origins)[h];
            Action(y, h) == if KeepsManualRoot(y, h) || (root.service == Some(o.service)
                && RequestOf(root) == OriginRequestOf(o))
                            then INoop else IUpdate
  {
    RequestKeyRoundTrip(h, Active(y.snapshot.origins)[h].service, OriginRequestOf(Active(y.snapshot.origins)[h]));
  }

  ghost predicate IsAdopted(x: Inputs, h: string) {
    && x.cfg.policy != StrictTaggedOnly
    && LastRecord(x.remote.records, h).Some?
    && StatusOf(x, LastRecord(x.remote.records, h).value, true) == Adopted
  }

  lemma AdoptionIsUpdate(x: Inputs, h: string)
    requires KeepsManualRoot(x, h)
    ensures ActiveDns(x, h).action == DUpdate <==> IsAdopted(x, h)
    ensures ActiveDns(x, h).action != DCreate
  {
    var r := LastRecord(x.remote.records, h).value;
    StatusExactly(Tagger(x), r, x.remote.target, true);
    StatusExactly(Tagger(x), r, x.remote.target, false);
  }

  lemma ManualRootNextTime(x: Inputs, y: Inputs, outcome: nat -> Outcome, h: string)
    requires Undisturbed(x, outcome) && Follows(x, y, outcome) && IsActive(x, h) && KeepsManualRoot(x, h)
    ensures KeepsManualRoot(y, h) <==> !IsAdopted(x, h)
  {
    ActiveRootAfter(x, h);
    LastOfActive(x, outcome, h);
    AdoptionIsUpdate(x, h);
    var r := LastRecord(y.remote.records, h).value;
    SameStatus(x, y, outcome, r, false);
    if IsAdopted(x, h) { OurRecordIsOwned(x, r.id, h, false); }
  }

  lemma ActiveActionAfter(x: Inputs, y: Inputs, outcome: nat -> Outcome, h: string)
    requires Undisturbed(x, outcome) && Follows(x, y, outcome) && IsActive(x, h)
    ensures Action(y, h) == if AdoptedManualRoot(x, h) then IUpdate else INoop
  {
    ActiveRootAfter(x, h);
    ActiveVerdict(y, h);
    RequestOfKey(FirstRoot(y.remote.rules, h).value, GivenRequest(x, h));
    if KeepsManualRoot(x, h) { ManualRootNextTime(x, y, outcome, h); }
  }

  lemma AbsentVerdict(y: Inputs, h: string)
    requires !IsActive(y, h)
    ensures Action(y, h) != INoop ==>
            FirstRoot(y.remote.rules, h).Some? && OwnsHost(y, h) && FateOf(y, h) == Planner.Remove
  {
    PickHost(y, h);
  }

  lemma AbsentActionAfter(x: Inputs, y: Inputs, outcome: nat -> Outcome, h: string)
    requires Undisturbed(x, outcome) && Follows(x, y, outcome) && !IsActive(x, h)
    ensures Action(y, h) == INoop
  {
    AbsentVerdict(y, h);
    if Action(y, h) != INoop {
      NoNewAbsentRoots(x, h);
      OwnsAbsent(x, y, outcome, h);
      FateAfter(x, y, outcome, h);
    }
  }

  lemma TidyActive(x: Inputs, h: string)
    requires x.snapshot.dockerOk && IsActive(x, h)
    ensures var final := PlanOf(x).finalRules; PlainAt(final, h) && FirstRoot(BeforeFallback(final), h).Some?
    ensures !HiddenTwin(x, h)
  {
    ActiveRootAfter(x, h);
    RequestOfKey(FirstRoot(PlanOf(x).finalRules, h).value, GivenRequest(x, h));
    DesiredExactly(x, h);
    WantedOfActive(x, h);
  }

  lemma TidyHost(x: Inputs, final: seq<Rule>, h: string)
    requires x.snapshot.dockerOk && final == PlanOf(x).finalRules
    ensures h in RootHosts(final) && IsActive(x, h) ==> PlainAt(final, h) && FirstRoot(BeforeFallback(final), h).Some?
    ensures HiddenTwin(x, h) <==> h in RootHosts(final) && FirstRoot(BeforeFallback(final), h).None?
  {
    RootHostsExactly(final, h);
    if IsActive(x, h) { TidyActive(x, h); } else { TwinExactly(x, h); }
  }

  lemma TidyUnlessTwins(y: Inputs, twin: string -> bool)
    requires HasFallback(y.remote.rules)
    requires forall h :: h in RootHosts(y.remote.rules) && IsActive(y, h) ==> PlainAt(y.remote.rules, h)
    requires forall h :: twin(h) <==>
             h in RootHosts(y.remote.rules) && FirstRoot(BeforeFallback(y.remote.rules), h).None?
    ensures Tidy(y) <==> forall h :: !twin(h)
  {
  }

  lemma TidyAfter(x: Inputs, y: Inputs, outcome: nat -> Outcome)
    requires x.snapshot.dockerOk && Follows(x, y, outcome)
    ensures Tidy(y) <==> forall h :: !HiddenTwin(x, h)
  {
    var final, twin := PlanOf(x).finalRules, h => HiddenTwin(x, h);
    DesiredRoots(x);
    MergeEndsInFallback(x.remote.rules, Desired(x));
    forall h
      ensures h in RootHosts(final) && IsActive(y, h) ==> PlainAt(final, h)
      ensures twin(h) <==> h in RootHosts(final) && FirstRoot(BeforeFallback(final), h).None?
    {
      TidyHost(x, final, h);
    }
    TidyUnlessTwins(y, twin);
    assert forall h :: twin(h) <==> HiddenTwin(x, h);
  }

  lemma AbsentWanted(x: Inputs, h: string)
    requires !IsActive(x, h)
    ensures Wanted(x, h).Some? <==>
            FirstRoot(x.remote.rules, h).Some? && !(OwnsHost(x, h) && FateOf(x, h) == Planner.Remove)
  {
    PickHost(x, h);
  }

  lemma AbsentRootAfter(x: Inputs, h: string)
    requires x.snapshot.dockerOk && !IsActive(x, h)
    ensures FirstRoot(PlanOf(x).finalRules, h) ==
            if OwnsHost(x, h) && FateOf(x, h) == Planner.Remove then FirstRoot(Kept(x.remote.rules, {}), h)
            else FirstRoot(x.remote.rules, h)
  {
    NoNewAbsentRoots(x, h);
    DesiredExactly(x, h);
    AbsentWanted(x, h);
    KeptIsWithin(x.remote.rules, {}, h);
  }

  lemma TwinExactly(x: Inputs, h: string)
    requires x.snapshot.dockerOk && !IsActive(x, h)
    ensures HiddenTwin(x, h) <==>
            FirstRoot(PlanOf(x).finalRules, h).Some? && FirstRoot(BeforeFallback(PlanOf(x).finalRules), h).None?
  {
    NoNewAbsentRoots(x, h);
    DesiredRoots(x);
    DesiredExactly(x, h);
    AbsentWanted(x, h);
    KeptIsWithin(x.remote.rules, {}, h);
    if h in Desired(x) {
      MergeReaches(x.remote.rules, Desired(x), h);
    } else {
      MergeOthers(x.remote.rules, Desired(x), h);
    }
  }

  // ---------------------------------------------------------------- the fixpoint theorem

  lemma ActionAfter(x: Inputs, y: Inputs, outcome: nat -> Outcome, h: string)
    requires Undisturbed(x, outcome) && Follows(x, y, outcome)
    ensures Action(y, h) == if AdoptedManualRoot(x, h) then IUpdate else INoop
  {
    if IsActive(x, h) { ActiveActionAfter(x, y, outcome, h); } else { AbsentActionAfter(x, y, outcome, h); }
  }

  lemma NothingCounted(y: Inputs, plan: Plan, updated: string -> bool)
    requires plan == PlanOf(y) && y.snapshot.dockerOk
    requires forall h :: Action(y, h) == if updated(h) then IUpdate else INoop
    ensures NoIngressChange(plan.summary) <==> forall h :: !updated(h)
  {
    UpdatesAreNone(y);
    CountsByHost(y, ICreate, {});
    CountsByHost(y, IDelete, {});
  }

  lemma NoChangeAnnounced(x: Inputs, y: Inputs, outcome: nat -> Outcome, plan: Plan)
    requires Undisturbed(x, outcome) && Follows(x, y, outcome) && plan == PlanOf(y)
    ensures NoIngressChange(plan.summary) <==> forall h :: !AdoptedManualRoot(x, h)
  {
    var updated := h => AdoptedManualRoot(x, h);
    forall h ensures Action(y, h) == if updated(h) then IUpdate else INoop {
      ActionAfter(x, y, outcome, h);
    }
    NothingCounted(y, plan, updated);
    assert forall h :: updated(h) == AdoptedManualRoot(x, h);
  }

  lemma {:induction false} NoSuchDns(changes: seq<DnsChange>, a: DnsAction)
    requires forall d :: d in changes ==> d.action != a
    ensures CountDns(changes, a) == 0
  {
    if changes != [] {
      assert changes[|changes| - 1] in changes;
      NoSuchDns(changes[..|changes| - 1], a);
    }
  }

  ghost predicate LeavesDnsAlone(plan: Plan) {
    forall d :: d in plan.dns ==> d.action == DNoop || d.action == DProtect
  }

  lemma DnsIsSettled(x: Inputs, y: Inputs, outcome: nat -> Outcome, plan: Plan)
    requires Undisturbed(x, outcome) && Follows(x, y, outcome) && plan == PlanOf(y)
    ensures LeavesDnsAlone(plan)
  {
    forall d | d in plan.dns ensures d.action == DNoop || d.action == DProtect { NothingForDns(x, y, outcome, d); }
  }

  lemma NoMutations(y: Inputs, plan: Plan)
    requires plan == PlanOf(y) && y.snapshot.dockerOk && LeavesDnsAlone(plan)
    ensures plan.summary.HasMutations() <==> !NoIngressChange(plan.summary)
  {
    NoSuchDns(plan.dns, DCreate);
    NoSuchDns(plan.dns, DUpdate);
    NoSuchDns(plan.dns, DDelete);
  }

  lemma NoRequests(y: Inputs, plan: Plan, w: World, outcome: nat -> Outcome)
    requires plan == PlanOf(y) && y.snapshot.dockerOk && LeavesDnsAlone(plan)
    ensures Run(w, Steps(plan, Some(y.remote.rules)), outcome, false).calls == [] <==>
            NoIngressChange(plan.summary) && Tidy(y)
  {
    DiffIsTruthful(y);
    RunMakesEveryCall(w, Steps(plan, Some(y.remote.rules)), outcome);
    OnlyThePut(plan, y.remote.rules);
  }

  /**
   * Convergence. After a failure-free cycle from any remote state and any tombstones, repeating the cycle
   * announces no change exactly when no preserved manual root had its record adopted, and makes no request
   * exactly when, in addition, no deleted root had a twin hidden behind the first catch-all.
   */
  lemma SecondCycleIsSilent(x: Inputs, y: Inputs, outcome: nat -> Outcome, plan: Plan, w: World,
      outcome': nat -> Outcome)
    requires Undisturbed(x, outcome) && Follows(x, y, outcome) && plan == PlanOf(y)
    ensures !plan.summary.HasMutations() <==> forall h :: !AdoptedManualRoot(x, h)
    ensures Run(w, Steps(plan, Some(y.remote.rules)), outcome', false).calls == [] <==>
            forall h :: !AdoptedManualRoot(x, h) && !HiddenTwin(x, h)
  {
    DnsIsSettled(x, y, outcome, plan);
    NoMutations(y, plan);
    NoChangeAnnounced(x, y, outcome, plan);
    NoRequests(y, plan, w, outcome');
    TidyAfter(x, y, outcome);
  }

  lemma OnlyThePut(plan: Plan, rules: seq<Rule>)
    requires LeavesDnsAlone(plan)
    ensures CallsIn(Steps(plan, Some(rules))) == [] <==> plan.finalRules == rules
  {
    var calls := CallsIn(Steps(plan, Some(rules)));
    CallsExactly(plan, Some(rules), PutIngress(plan.finalRules));
    if calls != [] {
      assert calls[0] in calls;
      CallsExactly(plan, Some(rules), calls[0]);
    }
  }

  /** The tombstones are a fixpoint as well, whatever happens to the routes. */
  lemma TombstonesAreSettled(x: Inputs, y: Inputs, outcome: nat -> Outcome, h: string)
    requires Undisturbed(x, outcome) && Follows(x, y, outcome)
    ensures h !in ToSet(y) && h !in ToClear(y)
  {
    SetExactly(y, h);
    ClearExactly(y, h);
    assert TombstoneMoves(x, x.tombstones, y.tombstones, true, h);
    if Lingers(y, h) { StillLingering(x, y, outcome, h); }
  }

  /** What lingers after the first cycle lingered before it, and is now waiting. */
  lemma StillLingering(x: Inputs, y: Inputs, outcome: nat -> Outcome, h: string)
    requires Undisturbed(x, outcome) && Follows(x, y, outcome) && Lingers(y, h)
    ensures FateOf(y, h) == Wait
  {
    if FirstRoot(y.remote.rules, h).Some? && OwnsHost(y, h) {
      NoNewAbsentRoots(x, h);
      OwnsAbsent(x, y, outcome, h);
    } else {
      var r :| LingeringRecord(y, h, r);
      AbsentSurvivor(x, outcome, r);
      ManagedBefore(x, y, outcome, r);
      SameRelevance(x, y, outcome, r);
      if Managed(x, r) { assert LingeringRecord(x, h, r); }
    }
    FateAfter(x, y, outcome, h);
  }
}
