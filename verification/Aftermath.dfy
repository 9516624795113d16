/** The records after one failure-free execution of a plan, and what the planner sees in them. */
module Aftermath {
  import opened Text
  import opened Models
  import opened Ingress
  import opened Planner
  import opened PlanFacts
  import opened PlanTheorems
  import opened Executor
  import opened Effects

  // ---------------------------------------------------------------- the calls of a plan

  ghost function CallOf(c: DnsChange): Option<Call> {
    match c.action
    case DDelete => Some(DeleteDns(IdOf(c)))
    case DUpdate => Some(PutDns(IdOf(c), BodyOf(c)))
    case DCreate => Some(PostDns(BodyOf(c)))
    case _ => None
  }

  lemma CallsInSnoc(steps: seq<Step>, s: Step)
    ensures CallsIn(steps + [s]) == if s.Attempt? then CallsIn(steps) + [s.call] else CallsIn(steps)
  {
    assert (steps + [s])[..|steps|] == steps;
  }

  lemma StepsSnoc(first: seq<Step>, changes: seq<DnsChange>)
    requires changes != []
    ensures var d, before := changes[|changes| - 1], first + DnsSteps(changes[..|changes| - 1]);
            first + DnsSteps(changes) == if d.action == DNoop then before else before + [DnsStep(d)[0]]
  {
    var d, init := changes[|changes| - 1], changes[..|changes| - 1];
    Regroup(first, DnsSteps(init), DnsStep(d));
    if d.action == DNoop {
      assert (first + DnsSteps(init)) + DnsStep(d) == first + DnsSteps(init);
    } else {
      assert DnsStep(d) == [DnsStep(d)[0]];
    }
  }

  lemma StepCall(d: DnsChange)
    ensures d.action != DNoop ==> var s := DnsStep(d)[0]; if s.Attempt? then CallOf(d) == Some(s.call)
            else CallOf(d) == None
    ensures d.action == DNoop ==> CallOf(d) == None
    ensures d.action == DCreate <==>
            d.action != DNoop && DnsStep(d)[0].Attempt? && DnsStep(d)[0].call == PostDns(BodyOf(d))
  {
  }

  lemma CallsOfStep(before: seq<Step>, d: DnsChange, c: Call)
    ensures c in CallsIn(if d.action == DNoop then before else before + [DnsStep(d)[0]]) <==>
            c in CallsIn(before) || CallOf(d) == Some(c)
  {
    StepCall(d);
    if d.action != DNoop { CallsInSnoc(before, DnsStep(d)[0]); }
  }

  lemma {:induction false} CallsOfChanges(first: seq<Step>, changes: seq<DnsChange>, c: Call)
    ensures c in CallsIn(first + DnsSteps(changes)) <==>
            c in CallsIn(first) || exists d :: d in changes && CallOf(d) == Some(c)
  {
    if changes == [] {
      assert first + DnsSteps(changes) == first;
    } else {
      var d, init := changes[|changes| - 1], changes[..|changes| - 1];
      CallsOfChanges(first, init, c);
      assert forall e :: e in changes <==> e in init || e == d by { assert changes == init + [d]; }
      StepsSnoc(first, changes);
      CallsOfStep(first + DnsSteps(init), d, c);
    }
  }

  /** The calls made for a plan: the PUT when due, and one per mutating DNS change. */
  lemma CallsExactly(plan: Plan, current: Option<seq<Rule>>, c: Call)
    ensures c in CallsIn(Steps(plan, current)) <==>
            || (IngressDue(plan, current) && c == PutIngress(plan.finalRules))
            || (exists d :: d in plan.dns && CallOf(d) == Some(c))
  {
    CallsOfChanges(IngressSteps(plan, current), plan.dns, c);
    if IngressDue(plan, current) {
      var s := IngressSteps(plan, current)[0];
      assert IngressSteps(plan, current) == [] + [s];
      CallsInSnoc([], s);
    }
  }

  // ---------------------------------------------------------------- one record

  ghost predicate DistinctIds(records: seq<Record>) {
    forall a, b :: a in records && b in records && a.id == b.id ==> a == b
  }

  /** The plan rewrites this record with our tag. */
  ghost predicate Claimed(x: Inputs, r: Record) {
    IsActive(x, r.name) && LastRecord(x.remote.records, r.name) == Some(r) && ActiveDns(x, r.name).action == DUpdate
  }

  /** The plan deletes this record. */
  ghost predicate Dropped(x: Inputs, r: Record) {
    Absent(x, Active(x.snapshot.origins), r) && Managed(x, r) && FateOf(x, r.name) == Planner.Remove
  }

  /** The record this controller writes for an active host. */
  ghost function OurRecord(x: Inputs, id: string, h: string): Record {
    Stored(id, Body(h, Some(x.remote.target), true, 1, Some(Tag(x))))
  }

  ghost function NewRecord(x: Inputs, r: Record): Option<Record> {
    if Claimed(x, r) then Some(OurRecord(x, r.id, r.name))
    else if Dropped(x, r) then None
    else Some(r)
  }

  lemma ClaimBody(x: Inputs, h: string)
    requires Tag(x) != "" && (ActiveDns(x, h).action == DUpdate || ActiveDns(x, h).action == DCreate)
    ensures BodyOf(ActiveDns(x, h)) == Body(h, Some(x.remote.target), true, 1, Some(Tag(x)))
    ensures ActiveDns(x, h).action == DUpdate ==>
            LastRecord(x.remote.records, h).Some? && IdOf(ActiveDns(x, h)) == LastRecord(x.remote.records, h).value.id
    ensures ActiveDns(x, h).action == DCreate <==> LastRecord(x.remote.records, h).None?
  {
  }

  /** Any call on the identifier of a fetched record comes from that record's own verdict. */
  lemma MentionIsItsVerdict(x: Inputs, r: Record, c: Call)
    requires x.snapshot.dockerOk && Tag(x) != "" && DistinctIds(x.remote.records) && r in x.remote.records
    requires c in CallsIn(Steps(PlanOf(x), Some(x.remote.rules))) && Mentions(c, r.id)
    ensures || (Claimed(x, r) && c == PutDns(r.id, Body(r.name, Some(x.remote.target), true, 1, Some(Tag(x)))))
            || (Dropped(x, r) && c == DeleteDns(r.id))
  {
    CallsExactly(PlanOf(x), Some(x.remote.rules), c);
    var d :| d in PlanOf(x).dns && CallOf(d) == Some(c);
    DnsChangeHasPick(DnsPicks(x), d);
    var p :| p in DnsPicks(x) && p.change == d;
    DnsPicksExactly(x, p);
    if IsActive(x, p.host) && p == DnsPick(p.host, ActiveDns(x, p.host), Unmarked) {
      ActiveDnsIs(x, p.host);
      ClaimBody(x, p.host);
      LastRecordIsThere(x.remote.records, p.host);
    } else {
      var q :| FromRecord(x, p, q);
      MissingDnsIs(x, q);
    }
  }

  ghost predicate Fetched(x: Inputs, id: string) {
    exists r :: r in x.remote.records && r.id == id
  }

  lemma ActiveClaimIsFetched(x: Inputs, h: string)
    requires ActiveDns(x, h).action == DUpdate
    ensures Fetched(x, IdOf(ActiveDns(x, h)))
  {
    LastRecordIsThere(x.remote.records, h);
    assert LastRecord(x.remote.records, h).value.id == IdOf(ActiveDns(x, h));
  }

  lemma VerdictIsFetched(x: Inputs, p: DnsPick)
    requires p in DnsPicks(x) && (p.change.action == DUpdate || p.change.action == DDelete)
    ensures Fetched(x, IdOf(p.change))
  {
    DnsPicksExactly(x, p);
    if IsActive(x, p.host) && p == DnsPick(p.host, ActiveDns(x, p.host), Unmarked) {
      ActiveDnsIs(x, p.host);
      ActiveClaimIsFetched(x, p.host);
    } else {
      var q :| FromRecord(x, p, q);
      MissingDnsIs(x, q);
    }
  }

  lemma ChangeIsFetched(x: Inputs, d: DnsChange)
    requires x.snapshot.dockerOk && d in PlanOf(x).dns && (d.action == DUpdate || d.action == DDelete)
    ensures Fetched(x, IdOf(d))
  {
    DnsChangeHasPick(DnsPicks(x), d);
    var p :| p in DnsPicks(x) && p.change == d;
    VerdictIsFetched(x, p);
  }

  /** Every rewrite and deletion names a record that was fetched. */
  lemma MentionedIsFetched(x: Inputs, c: Call)
    requires x.snapshot.dockerOk && c in CallsIn(Steps(PlanOf(x), Some(x.remote.rules))) && (c.PutDns? || c.DeleteDns?)
    ensures Fetched(x, c.id)
  {
    CallsExactly(PlanOf(x), Some(x.remote.rules), c);
    var d :| d in PlanOf(x).dns && CallOf(d) == Some(c);
    ChangeIsFetched(x, d);
  }

  lemma WritingVerdictIsActive(x: Inputs, p: DnsPick)
    requires p in DnsPicks(x) && (p.change.action == DUpdate || p.change.action == DCreate)
    ensures IsActive(x, p.change.hostname)
  {
    DnsPicksExactly(x, p);
    if IsActive(x, p.host) && p == DnsPick(p.host, ActiveDns(x, p.host), Unmarked) {
      ActiveDnsIs(x, p.host);
    } else {
      var q :| FromRecord(x, p, q);
      MissingDnsIs(x, q);
    }
  }

  lemma ClaimedIsCalled(x: Inputs, r: Record)
    requires x.snapshot.dockerOk && Tag(x) != "" && Claimed(x, r)
    ensures PutDns(r.id, Body(r.name, Some(x.remote.target), true, 1, Some(Tag(x)))) in
            CallsIn(Steps(PlanOf(x), Some(x.remote.rules)))
  {
    var h := r.name;
    var p := DnsPick(h, ActiveDns(x, h), Unmarked);
    ActiveDnsIs(x, h);
    ClaimBody(x, h);
    DnsPicksExactly(x, p);
    DnsChangeHasPick(DnsPicks(x), p.change);
    assert p.change in PlanOf(x).dns && CallOf(p.change) == Some(PutDns(r.id, BodyOf(p.change)));
    CallsExactly(PlanOf(x), Some(x.remote.rules), PutDns(r.id, BodyOf(p.change)));
  }

  lemma DroppedIsCalled(x: Inputs, r: Record)
    requires x.snapshot.dockerOk && r in x.remote.records && Dropped(x, r)
    ensures DeleteDns(r.id) in CallsIn(Steps(PlanOf(x), Some(x.remote.rules)))
  {
    assert FromRecord(x, MissingDns(x, r), r);
    DnsDeletePlanned(x, r);
    MissingDnsIs(x, r);
    var d := MissingDns(x, r).change;
    assert d in PlanOf(x).dns && CallOf(d) == Some(DeleteDns(r.id));
    CallsExactly(PlanOf(x), Some(x.remote.rules), DeleteDns(r.id));
  }

  lemma TouchedIsNew(x: Inputs, r: Record)
    requires x.snapshot.dockerOk && Tag(x) != "" && DistinctIds(x.remote.records) && r in x.remote.records
    ensures Touched(r, CallsIn(Steps(PlanOf(x), Some(x.remote.rules)))) == NewRecord(x, r)
  {
    var calls := CallsIn(Steps(PlanOf(x), Some(x.remote.rules)));
    var b := Body(r.name, Some(x.remote.target), true, 1, Some(Tag(x)));
    forall c | c in calls && Mentions(c, r.id)
      ensures (Claimed(x, r) && c == PutDns(r.id, b)) || (Dropped(x, r) && c == DeleteDns(r.id))
    {
      MentionIsItsVerdict(x, r, c);
    }
    if Claimed(x, r) {
      ClaimedIsCalled(x, r);
      Overwritten(r, calls, b);
    } else if Dropped(x, r) {
      DroppedIsCalled(x, r);
      Erased(r, calls);
    } else {
      Untouched(r, calls);
    }
  }

  // ---------------------------------------------------------------- all records

  ghost function Image(x: Inputs, records: seq<Record>): seq<Record> {
    if records == [] then []
    else
      var rest, t := Image(x, records[..|records| - 1]), NewRecord(x, records[|records| - 1]);
      if t.Some? then rest + [t.value] else rest
  }

  lemma {:induction false} SurvivorsAreImage(x: Inputs, records: seq<Record>)
    requires x.snapshot.dockerOk && Tag(x) != "" && DistinctIds(x.remote.records)
    requires forall r :: r in records ==> r in x.remote.records
    ensures Survivors(records, CallsIn(Steps(PlanOf(x), Some(x.remote.rules)))) == Image(x, records)
  {
    if records != [] {
      assert records[|records| - 1] in records;
      TouchedIsNew(x, records[|records| - 1]);
      SurvivorsAreImage(x, records[..|records| - 1]);
    }
  }

  lemma {:induction false} ImageHas(x: Inputs, records: seq<Record>, r: Record)
    requires r in records && NewRecord(x, r) == Some(r)
    ensures r in Image(x, records)
  {
    var init, last := records[..|records| - 1], records[|records| - 1];
    if r != last {
      assert records == init + [last];
      ImageHas(x, init, r);
    }
  }

  lemma NewRecordKeepsName(x: Inputs, r: Record)
    ensures NewRecord(x, r).Some? ==> NewRecord(x, r).value.name == r.name
  {
  }

  lemma ImageSnoc(x: Inputs, records: seq<Record>, h: string)
    requires records != []
    ensures var r, init := records[|records| - 1], records[..|records| - 1];
            LastRecord(Image(x, records), h) ==
            if h != "" && r.name == h && NewRecord(x, r).Some? then NewRecord(x, r) else LastRecord(Image(x, init), h)
  {
    var r, init := records[|records| - 1], records[..|records| - 1];
    NewRecordKeepsName(x, r);
    if NewRecord(x, r).Some? { assert Image(x, records)[..|Image(x, init)|] == Image(x, init); }
  }

  lemma {:induction false} LastOfImage(x: Inputs, records: seq<Record>, h: string)
    requires forall r :: r in records && r.name == h ==> NewRecord(x, r).Some?
    ensures LastRecord(Image(x, records), h) ==
            if LastRecord(records, h).Some? then NewRecord(x, LastRecord(records, h).value) else None
  {
    if records != [] {
      var init := records[..|records| - 1];
      assert records[|records| - 1] in records && forall q :: q in init ==> q in records;
      LastOfImage(x, init, h);
      ImageSnoc(x, records, h);
    }
  }

  lemma {:induction false} LastOfImageFrom(x: Inputs, records: seq<Record>, h: string) returns (r: Record)
    requires LastRecord(Image(x, records), h).Some?
    ensures r in records && r.name == h && NewRecord(x, r) == LastRecord(Image(x, records), h)
  {
    var init := records[..|records| - 1];
    r := records[|records| - 1];
    ImageSnoc(x, records, h);
    if !(h != "" && r.name == h && NewRecord(x, r).Some?) {
      r := LastOfImageFrom(x, init, h);
      assert r in records;
    }
  }

  lemma {:induction false} ImageMembers(x: Inputs, records: seq<Record>, r': Record) returns (r: Record)
    requires r' in Image(x, records)
    ensures r in records && NewRecord(x, r) == Some(r')
  {
    r := records[|records| - 1];
    if NewRecord(x, r) != Some(r') {
      r := ImageMembers(x, records[..|records| - 1], r');
      assert r in records;
    }
  }

  lemma {:induction false} LastOfConcat(a: seq<Record>, b: seq<Record>, h: string)
    ensures LastRecord(a + b, h) == if LastRecord(b, h).Some? then LastRecord(b, h) else LastRecord(a, h)
  {
    if b == [] {
      assert a + b == a;
    } else {
      assert (a + b)[..|a + b| - 1] == a + b[..|b| - 1];
      LastOfConcat(a, b[..|b| - 1], h);
    }
  }

  // ---------------------------------------------------------------- created records

  /** The record created for an active host that had none. */
  ghost predicate IsCreation(x: Inputs, p: Record) {
    IsActive(x, p.name) && LastRecord(x.remote.records, p.name).None? && p == OurRecord(x, p.id, p.name)
  }

  lemma CreatedSnoc(steps: seq<Step>, s: Step, outcome: nat -> Outcome)
    requires AllDone(outcome)
    ensures Created(steps + [s], outcome) ==
            if s.Attempt? && s.call.PostDns? then Created(steps, outcome)
                + [Stored(outcome(|steps|).newId, s.call.body)]
            else Created(steps, outcome)
  {
    assert (steps + [s])[..|steps|] == steps;
  }

  ghost predicate CreatedBy(d: DnsChange, p: Record) {
    d.action == DCreate && p == Stored(p.id, BodyOf(d))
  }

  lemma CreatedByStep(before: seq<Step>, d: DnsChange, outcome: nat -> Outcome)
    requires AllDone(outcome) && d.action != DNoop
    ensures d.action != DCreate ==> Created(before + [DnsStep(d)[0]], outcome) == Created(before, outcome)
    ensures d.action == DCreate ==>
              exists p :: CreatedBy(d, p) && Created(before + [DnsStep(d)[0]], outcome) == Created(before, outcome)
                  + [p]
  {
    CreatedSnoc(before, DnsStep(d)[0], outcome);
    if d.action == DCreate { assert CreatedBy(d, Stored(outcome(|before|).newId, BodyOf(d))); }
  }

  lemma {:induction false} CreatedFromChange(first: seq<Step>, changes: seq<DnsChange>, outcome: nat -> Outcome,
      p: Record)
    requires AllDone(outcome) && Created(first, outcome) == []
    ensures p in Created(first + DnsSteps(changes), outcome) ==> exists d :: d in changes && CreatedBy(d, p)
  {
    if changes == [] {
      assert first + DnsSteps(changes) == first;
    } else {
      var d, init := changes[|changes| - 1], changes[..|changes| - 1];
      CreatedFromChange(first, init, outcome, p);
      assert forall e :: e in changes <==> e in init || e == d by { assert changes == init + [d]; }
      StepsSnoc(first, changes);
      if d.action != DNoop { CreatedByStep(first + DnsSteps(init), d, outcome); }
    }
  }

  lemma {:induction false} ChangeCreates(first: seq<Step>, changes: seq<DnsChange>, outcome: nat -> Outcome,
      d: DnsChange) returns (p: Record)
    requires AllDone(outcome) && d in changes && d.action == DCreate
    ensures p in Created(first + DnsSteps(changes), outcome) && CreatedBy(d, p)
  {
    var e, init := changes[|changes| - 1], changes[..|changes| - 1];
    assert forall e' :: e' in changes <==> e' in init || e' == e by { assert changes == init + [e]; }
    StepsSnoc(first, changes);
    if e.action != DNoop { CreatedByStep(first + DnsSteps(init), e, outcome); }
    if d in init {
      p := ChangeCreates(first, init, outcome, d);
    } else {
      p :| CreatedBy(d, p) && Created(first + DnsSteps(changes), outcome) == Created(first + DnsSteps(init), outcome)
          + [p];
    }
  }

  lemma PutCreatesNothing(put: Step, outcome: nat -> Outcome)
    requires AllDone(outcome) && put.Attempt? && put.call.PutIngress?
    ensures Created([put], outcome) == []
  {
    assert [put] == [] + [put];
    CreatedSnoc([], put, outcome);
  }

  lemma NothingCreatedFirst(plan: Plan, current: Option<seq<Rule>>, outcome: nat -> Outcome)
    requires AllDone(outcome)
    ensures Created(IngressSteps(plan, current), outcome) == []
  {
    if IngressDue(plan, current) {
      PutCreatesNothing(IngressSteps(plan, current)[0], outcome);
    }
  }

  lemma CreatedIsCreation(x: Inputs, outcome: nat -> Outcome, p: Record)
    requires x.snapshot.dockerOk && Tag(x) != "" && AllDone(outcome)
    requires p in Created(Steps(PlanOf(x), Some(x.remote.rules)), outcome)
    ensures IsCreation(x, p)
  {
    NothingCreatedFirst(PlanOf(x), Some(x.remote.rules), outcome);
    CreatedFromChange(IngressSteps(PlanOf(x), Some(x.remote.rules)), PlanOf(x).dns, outcome, p);
    var d :| d in PlanOf(x).dns && CreatedBy(d, p);
    CreationOf(x, d);
  }

  lemma MissingIsPlanned(x: Inputs, h: string)
    requires x.snapshot.dockerOk && IsActive(x, h) && LastRecord(x.remote.records, h).None?
    ensures ActiveDns(x, h) in PlanOf(x).dns && ActiveDns(x, h).action == DCreate && ActiveDns(x, h).hostname == h
  {
    var p := DnsPick(h, ActiveDns(x, h), Unmarked);
    DnsPicksExactly(x, p);
    DnsChangeHasPick(DnsPicks(x), p.change);
  }

  lemma MissingIsCreated(x: Inputs, outcome: nat -> Outcome, h: string) returns (p: Record)
    requires x.snapshot.dockerOk && AllDone(outcome) && IsActive(x, h) && LastRecord(x.remote.records, h).None?
    ensures p in Created(Steps(PlanOf(x), Some(x.remote.rules)), outcome) && p.name == h
  {
    MissingIsPlanned(x, h);
    p := ChangeCreates(IngressSteps(PlanOf(x), Some(x.remote.rules)), PlanOf(x).dns, outcome, ActiveDns(x, h));
  }

  lemma CreationOf(x: Inputs, d: DnsChange)
    requires x.snapshot.dockerOk && Tag(x) != "" && d in PlanOf(x).dns && d.action == DCreate
    ensures IsActive(x, d.hostname) && LastRecord(x.remote.records, d.hostname).None?
    ensures BodyOf(d) == Body(d.hostname, Some(x.remote.target), true, 1, Some(Tag(x)))
  {
    DnsChangeHasPick(DnsPicks(x), d);
    var p :| p in DnsPicks(x) && p.change == d;
    DnsPicksExactly(x, p);
    if IsActive(x, p.host) && p == DnsPick(p.host, ActiveDns(x, p.host), Unmarked) {
      ActiveDnsIs(x, p.host);
      ClaimBody(x, p.host);
    } else {
      var q :| FromRecord(x, p, q);
      MissingDnsIs(x, q);
    }
  }
}
