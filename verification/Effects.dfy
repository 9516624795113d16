/** What an execution does to the DNS records, one record at a time. */
module Effects {
  import opened Text
  import opened Models
  import opened Executor

  /** What one call makes of one record, if it still exists. */
  function Touch(r: Option<Record>, call: Call): Option<Record> {
    match call
    case PutDns(id, b) => if r.Some? && r.value.id == id then Some(Stored(id, b)) else r
    case DeleteDns(id) => if r.Some? && r.value.id == id then None else r
    case _ => r
  }

  function Touched(r: Record, calls: seq<Call>): Option<Record> {
    if calls == [] then Some(r) else Touch(Touched(r, calls[..|calls| - 1]), calls[|calls| - 1])
  }

  /** The records left, in place, after a series of calls. */
  function Survivors(records: seq<Record>, calls: seq<Call>): seq<Record> {
    if records == [] then []
    else
      var t := Touched(records[|records| - 1], calls);
      var rest := Survivors(records[..|records| - 1], calls);
      if t.Some? then rest + [t.value] else rest
  }

  lemma ReplaceSnoc(records: seq<Record>, r: Record, id: string, b: Body)
    ensures Replace(records + [r], id, b) == Replace(records, id, b) + [if r.id == id then Stored(id, b) else r]
    ensures Remove(records + [r], id) == if r.id == id then Remove(records, id) else Remove(records, id) + [r]
  {
    assert (records + [r])[..|records|] == records;
  }

  lemma {:induction false} ReplaceConcat(a: seq<Record>, c: seq<Record>, id: string, b: Body)
    ensures Replace(a + c, id, b) == Replace(a, id, b) + Replace(c, id, b)
    ensures Remove(a + c, id) == Remove(a, id) + Remove(c, id)
  {
    if c == [] {
      assert a + c == a;
    } else {
      var init, r := c[..|c| - 1], c[|c| - 1];
      ReplaceConcat(a, init, id, b);
      assert a + c == (a + init) + [r];
      ReplaceSnoc(a + init, r, id, b);
      Regroup(Replace(a, id, b), Replace(init, id, b), [if r.id == id then Stored(id, b) else r]);
      Regroup(Remove(a, id), Remove(init, id), [r]);
    }
  }

  lemma {:induction false} ReplaceElsewhere(records: seq<Record>, id: string, b: Body)
    requires forall r :: r in records ==> r.id != id
    ensures Replace(records, id, b) == records && Remove(records, id) == records
  {
    if records != [] { ReplaceElsewhere(records[..|records| - 1], id, b); }
  }

  lemma TouchedSnoc(r: Record, calls: seq<Call>, c: Call)
    ensures Touched(r, calls + [c]) == Touch(Touched(r, calls), c)
  {
    assert (calls + [c])[..|calls|] == calls;
  }

  lemma {:induction false} SurvivorsSnoc(records: seq<Record>, calls: seq<Call>, c: Call)
    ensures c.PutDns? ==> Survivors(records, calls + [c]) == Replace(Survivors(records, calls), c.id, c.body)
    ensures c.DeleteDns? ==> Survivors(records, calls + [c]) == Remove(Survivors(records, calls), c.id)
    ensures c.PutIngress? || c.PostDns? ==> Survivors(records, calls + [c]) == Survivors(records, calls)
  {
    if records != [] {
      var r, init := records[|records| - 1], records[..|records| - 1];
      SurvivorsSnoc(init, calls, c);
      TouchedSnoc(r, calls, c);
      var t := Touched(r, calls);
      if t.Some? && (c.PutDns? || c.DeleteDns?) {
        ReplaceSnoc(Survivors(init, calls), t.value, c.id, if c.PutDns? then c.body
            else Body("", None, false, 0, None));
      }
    }
  }

  lemma {:induction false} SurvivorsNone(records: seq<Record>)
    ensures Survivors(records, []) == records
  {
    if records != [] {
      SurvivorsNone(records[..|records| - 1]);
      assert records == records[..|records| - 1] + [records[|records| - 1]];
    }
  }

  ghost predicate Mentions(c: Call, id: string) {
    (c.PutDns? || c.DeleteDns?) && c.id == id
  }

  lemma {:induction false} TouchedById(r: Record, calls: seq<Call>)
    ensures Touched(r, calls).Some? ==> Touched(r, calls).value.id == r.id
  {
    if calls != [] { TouchedById(r, calls[..|calls| - 1]); }
  }

  lemma {:induction false} Untouched(r: Record, calls: seq<Call>)
    requires forall c :: c in calls ==> !Mentions(c, r.id)
    ensures Touched(r, calls) == Some(r)
  {
    if calls != [] {
      assert calls[|calls| - 1] in calls;
      Untouched(r, calls[..|calls| - 1]);
    }
  }

  lemma {:induction false} Overwritten(r: Record, calls: seq<Call>, b: Body)
    requires forall c :: c in calls && Mentions(c, r.id) ==> c == PutDns(r.id, b)
    ensures Touched(r, calls) == if PutDns(r.id, b) in calls then Some(Stored(r.id, b)) else Some(r)
  {
    if calls != [] {
      var c, init := calls[|calls| - 1], calls[..|calls| - 1];
      assert forall d :: d in calls <==> d in init || d == c by { assert calls == init + [c]; }
      TouchedById(r, init);
      Overwritten(r, init, b);
      if !Mentions(c, r.id) {
        assert PutDns(r.id, b) != c && Touch(Touched(r, init), c) == Touched(r, init);
      }
    }
  }

  lemma {:induction false} Erased(r: Record, calls: seq<Call>)
    requires forall c :: c in calls && Mentions(c, r.id) ==> c == DeleteDns(r.id)
    ensures Touched(r, calls) == if DeleteDns(r.id) in calls then None else Some(r)
  {
    if calls != [] {
      var c, init := calls[|calls| - 1], calls[..|calls| - 1];
      assert forall d :: d in calls <==> d in init || d == c by { assert calls == init + [c]; }
      TouchedById(r, init);
      Erased(r, init);
      if !Mentions(c, r.id) {
        assert DeleteDns(r.id) != c && Touch(Touched(r, init), c) == Touched(r, init);
      }
    }
  }

  // ---------------------------------------------------------------- one call, whatever its outcome

  lemma {:induction false} ReplaceMembers(records: seq<Record>, id: string, b: Body, r: Record)
    ensures r in Replace(records, id, b) <==>
            (r in records && r.id != id) || (r == Stored(id, b) && exists q :: q in records && q.id == id)
    ensures r in Executor.Remove(records, id) <==> r in records && r.id != id
  {
    if records != [] {
      var last, init := records[|records| - 1], records[..|records| - 1];
      ReplaceMembers(init, id, b, r);
      assert forall q :: q in records <==> q in init || q == last by { assert records == init + [last]; }
    }
  }

  lemma CallKeepsOthers(w: World, c: Call, outcome: Outcome, r: Record)
    requires r in w.records && !Mentions(c, r.id)
    ensures r in Apply(w, c, outcome).records
  {
    if c.PutDns? { ReplaceMembers(w.records, c.id, c.body, r); }
    if c.DeleteDns? { ReplaceMembers(w.records, c.id, Body("", None, false, 0, None), r); }
  }

  /** Where a record found after a call comes from. */
  lemma CallOrigins(w: World, c: Call, outcome: Outcome, r: Record)
    requires r in Apply(w, c, outcome).records
    ensures || r in w.records
            || (c.PostDns? && !outcome.Refused? && r == Stored(outcome.newId, c.body))
            || (c.PutDns? && r == Stored(c.id, c.body) && exists q :: q in w.records && q.id == c.id)
    ensures Mentions(c, r.id) && !outcome.Refused? ==> c.PutDns? && r == Stored(c.id, c.body)
  {
    if c.PutDns? { ReplaceMembers(w.records, c.id, c.body, r); }
    if c.DeleteDns? { ReplaceMembers(w.records, c.id, Body("", None, false, 0, None), r); }
  }

  // ---------------------------------------------------------------- a failure-free run

  /** The records a failure-free run creates, in order. */
  function Created(steps: seq<Step>, outcome: nat -> Outcome): seq<Record> {
    if steps == [] then []
    else
      var s, o := steps[|steps| - 1], outcome(|steps| - 1);
      var before := Created(steps[..|steps| - 1], outcome);
      if s.Attempt? && s.call.PostDns? && !o.Refused? then before + [Stored(o.newId, s.call.body)] else before
  }

  function CallsIn(steps: seq<Step>): seq<Call> {
    if steps == [] then []
    else
      var s := steps[|steps| - 1];
      var before := CallsIn(steps[..|steps| - 1]);
      if s.Attempt? then before + [s.call] else before
  }

  ghost predicate AllDone(outcome: nat -> Outcome) {
    forall k: nat :: outcome(k).Done?
  }

  /** The server gives new records identifiers that no call mentions. */
  ghost predicate FreshIds(steps: seq<Step>, outcome: nat -> Outcome) {
    forall k: nat, c :: k < |steps| && c in CallsIn(steps) ==> outcome(k).Refused? || !Mentions(c, outcome(k).newId)
  }

  lemma FreshPrefix(steps: seq<Step>, outcome: nat -> Outcome)
    requires steps != [] && FreshIds(steps, outcome)
    ensures FreshIds(steps[..|steps| - 1], outcome)
  {
    var init := steps[..|steps| - 1];
    CallsInPrefix(steps);
    forall k: nat, c | k < |init| && c in CallsIn(init) ensures outcome(k).Refused? || !Mentions(c, outcome(k).newId) {
      assert c in CallsIn(steps);
    }
  }

  lemma {:induction false} CallsInPrefix(steps: seq<Step>)
    ensures steps != [] ==> forall c :: c in CallsIn(steps[..|steps| - 1]) ==> c in CallsIn(steps)
  {
  }

  lemma {:induction false} CreatedIds(steps: seq<Step>, outcome: nat -> Outcome)
    requires AllDone(outcome)
    ensures forall r :: r in Created(steps, outcome) ==> exists k :: 0 <= k < |steps| && r.id == outcome(k).newId
  {
    if steps != [] { CreatedIds(steps[..|steps| - 1], outcome); }
  }

  lemma OneMoreCall(w: World, records: seq<Record>, calls: seq<Call>, posted: seq<Record>, call: Call, newId: string)
    requires w.records == Survivors(records, calls) + posted
    requires forall r :: r in posted ==> !Mentions(call, r.id)
    ensures Effect(w, call, newId).records ==
            Survivors(records, calls + [call]) + if call.PostDns? then posted + [Stored(newId, call.body)] else posted
  {
    SurvivorsSnoc(records, calls, call);
    match call {
      case PutDns(id, b) =>
        ReplaceElsewhere(posted, id, b);
        ReplaceConcat(Survivors(records, calls), posted, id, b);
      case DeleteDns(id) =>
        var b := Body("", None, false, 0, None);
        ReplaceElsewhere(posted, id, b);
        ReplaceConcat(Survivors(records, calls), posted, id, b);
      case PostDns(b) =>
        Regroup(Survivors(records, calls), posted, [Stored(newId, b)]);
      case PutIngress(_) =>
    }
  }

  /** A failure-free run makes every call, rewrites and removes records in place, and appends the new ones. */
  lemma {:induction false} CleanRun(w: World, steps: seq<Step>, outcome: nat -> Outcome)
    requires AllDone(outcome) && FreshIds(steps, outcome)
    ensures var end := Run(w, steps, outcome, false);
            && !end.stopped
            && end.calls == CallsIn(steps)
            && end.world.records == Survivors(w.records, CallsIn(steps)) + Created(steps, outcome)
            && (forall op :: op in end.ops ==> op.status != Failed)
  {
    if steps == [] {
      SurvivorsNone(w.records);
    } else {
      var k := |steps| - 1;
      var s, init := steps[k], steps[..k];
      FreshPrefix(steps, outcome);
      CleanRun(w, init, outcome);
      if s.Attempt? {
        assert s.call in CallsIn(steps);
        CreatedIds(init, outcome);
        OneMoreCall(Run(w, init, outcome, false).world, w.records, CallsIn(init), Created(init, outcome), s.call,
            outcome(k).newId);
      }
    }
  }

  /** Without fail-fast every call is made, whatever becomes of the others. */
  lemma {:induction false} RunMakesEveryCall(w: World, steps: seq<Step>, outcome: nat -> Outcome)
    ensures Run(w, steps, outcome, false).calls == CallsIn(steps)
    ensures !Run(w, steps, outcome, false).stopped
  {
    if steps != [] { RunMakesEveryCall(w, steps[..|steps| - 1], outcome); }
  }
}
