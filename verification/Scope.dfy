/** A controller reads only part of the zone; what its cycle makes of that part, and of the rest. */
module Scope {
  import opened Text
  import opened Models
  import opened Planner
  import opened PlanFacts
  import opened Executor
  import opened Effects
  import opened Aftermath
  import opened Convergence
  import Fetch

  function HostNames(origins: seq<Origin>): seq<string> {
    seq(|origins|, i requires 0 <= i < |origins| => origins[i].hostname)
  }

  /** The records of the zone a cycle with these inputs reads. */
  function Seen(x: Inputs, zone: seq<Record>, norm: Fetch.Names): seq<Record> {
    Fetch.Scoped(zone, x.remote.target, HostNames(x.snapshot.origins), norm)
  }

  predicate Sees(x: Inputs, r: Record, norm: Fetch.Names) {
    r.id != "" && Fetch.InScope(r, x.remote.target, HostNames(x.snapshot.origins), norm)
  }

  lemma SeenExactly(x: Inputs, zone: seq<Record>, norm: Fetch.Names, r: Record)
    ensures r in Seen(x, zone, norm) <==> r in zone && Sees(x, r, norm)
  {
    Fetch.ScopedExactly(zone, x.remote.target, HostNames(x.snapshot.origins), norm, r);
  }

  lemma SeenSnoc(x: Inputs, zone: seq<Record>, r: Record, norm: Fetch.Names)
    ensures Seen(x, zone + [r], norm) == if Sees(x, r, norm) then Seen(x, zone, norm) + [r] else Seen(x, zone, norm)
  {
    assert (zone + [r])[..|zone|] == zone;
  }

  lemma {:induction false} SeenConcat(x: Inputs, a: seq<Record>, b: seq<Record>, norm: Fetch.Names)
    ensures Seen(x, a + b, norm) == Seen(x, a, norm) + Seen(x, b, norm)
  {
    if b == [] {
      assert a + b == a;
    } else {
      var init, r := b[..|b| - 1], b[|b| - 1];
      SeenConcat(x, a, init, norm);
      assert a + b == (a + init) + [r] && b == init + [r];
      SeenSnoc(x, a + init, r, norm);
      SeenSnoc(x, init, r, norm);
    }
  }

  lemma {:induction false} AllSeen(x: Inputs, records: seq<Record>, norm: Fetch.Names)
    requires forall r :: r in records ==> Sees(x, r, norm)
    ensures Seen(x, records, norm) == records
  {
    if records != [] {
      var init, r := records[..|records| - 1], records[|records| - 1];
      AllSeen(x, init, norm);
      assert records == init + [r];
      SeenSnoc(x, init, r, norm);
    }
  }

  /** A record pointing to the tunnel is always seen. */
  lemma OursIsSeen(x: Inputs, id: string, h: string, norm: Fetch.Names)
    requires id != ""
    ensures Sees(x, OurRecord(x, id, h), norm)
  {
  }

  lemma NewRecordIsSeen(x: Inputs, r: Record, norm: Fetch.Names)
    requires Sees(x, r, norm) && NewRecord(x, r).Some?
    ensures Sees(x, NewRecord(x, r).value, norm)
  {
    OursIsSeen(x, r.id, r.name, norm);
  }

  /** The inputs are what the zone shows of itself, and the zone keeps its records apart. */
  ghost predicate Reading(x: Inputs, zone: seq<Record>, norm: Fetch.Names) {
    && x.snapshot.dockerOk && Tag(x) != ""
    && DistinctIds(zone) && x.remote.records == Seen(x, zone, norm)
  }

  lemma ReadingIsDistinct(x: Inputs, zone: seq<Record>, norm: Fetch.Names)
    requires Reading(x, zone, norm)
    ensures DistinctIds(x.remote.records)
  {
    forall a, b | a in x.remote.records && b in x.remote.records && a.id == b.id ensures a == b {
      SeenExactly(x, zone, norm, a);
      SeenExactly(x, zone, norm, b);
    }
  }

  /** No request concerns a record that was not seen. */
  lemma UnseenIsUntouched(x: Inputs, zone: seq<Record>, norm: Fetch.Names, r: Record)
    requires Reading(x, zone, norm) && r in zone && !Sees(x, r, norm)
    ensures Touched(r, CallsIn(Steps(PlanOf(x), Some(x.remote.rules)))) == Some(r)
  {
    var calls := CallsIn(Steps(PlanOf(x), Some(x.remote.rules)));
    forall c | c in calls ensures !Mentions(c, r.id) {
      if Mentions(c, r.id) {
        MentionedIsFetched(x, c);
        var q :| q in x.remote.records && q.id == c.id;
        SeenExactly(x, zone, norm, q);
      }
    }
    Untouched(r, calls);
  }

  lemma SurvivorSeen(x: Inputs, zone: seq<Record>, norm: Fetch.Names, r: Record)
    requires Reading(x, zone, norm) && r in zone && Sees(x, r, norm)
    ensures Touched(r, CallsIn(Steps(PlanOf(x), Some(x.remote.rules)))) == NewRecord(x, r)
  {
    ReadingIsDistinct(x, zone, norm);
    SeenExactly(x, zone, norm, r);
    TouchedIsNew(x, r);
  }

  lemma ImageSeenSnoc(x: Inputs, records: seq<Record>, r: Record)
    ensures Image(x, records + [r]) ==
            if NewRecord(x, r).Some? then Image(x, records) + [NewRecord(x, r).value] else Image(x, records)
  {
    assert (records + [r])[..|records|] == records;
  }

  /** One record more: what survives of it is seen exactly if it was seen, as its new self. */
  lemma SurvivorStep(x: Inputs, zone: seq<Record>, norm: Fetch.Names, r: Record, rest: seq<Record>, seen: seq<Record>)
    requires Reading(x, zone, norm) && r in zone && Seen(x, rest, norm) == Image(x, seen)
    ensures var t := Touched(r, CallsIn(Steps(PlanOf(x), Some(x.remote.rules))));
            Seen(x, if t.Some? then rest + [t.value] else rest, norm) ==
                Image(x, if Sees(x, r, norm) then seen + [r] else seen)
  {
    if Sees(x, r, norm) {
      SurvivorSeen(x, zone, norm, r);
      ImageSeenSnoc(x, seen, r);
      if NewRecord(x, r).Some? {
        NewRecordIsSeen(x, r, norm);
        SeenSnoc(x, rest, NewRecord(x, r).value, norm);
      }
    } else {
      UnseenIsUntouched(x, zone, norm, r);
      SeenSnoc(x, rest, r, norm);
    }
  }

  /** Seeing what survives is the image of what was seen. */
  lemma {:induction false} SurvivorsSeen(x: Inputs, zone: seq<Record>, norm: Fetch.Names, records: seq<Record>)
    requires Reading(x, zone, norm) && forall r :: r in records ==> r in zone
    ensures Seen(x, Survivors(records, CallsIn(Steps(PlanOf(x), Some(x.remote.rules)))), norm) ==
            Image(x, Seen(x, records, norm))
  {
    if records != [] {
      var r, init := records[|records| - 1], records[..|records| - 1];
      assert r in zone && records == init + [r];
      SurvivorsSeen(x, zone, norm, init);
      SeenSnoc(x, init, r, norm);
      SurvivorStep(x, zone, norm, r, Survivors(init, CallsIn(Steps(PlanOf(x), Some(x.remote.rules)))),
          Seen(x, init, norm));
    }
  }

  /** The server names its records: nothing it creates lacks an identifier or takes one in use. */
  ghost predicate NamesApart(zone: seq<Record>, outcome: nat -> Outcome) {
    forall k: nat :: !outcome(k).Refused? ==> outcome(k).newId != "" && forall r :: r in zone ==>
        outcome(k).newId != r.id
  }

  lemma ReadingIsUndisturbed(x: Inputs, zone: seq<Record>, norm: Fetch.Names, outcome: nat -> Outcome)
    requires Reading(x, zone, norm) && Trimmed(Tag(x)) && AllDone(outcome) && NamesApart(zone, outcome)
    ensures Undisturbed(x, outcome)
  {
    ReadingIsDistinct(x, zone, norm);
    forall k: nat, r | r in x.remote.records ensures outcome(k).newId != r.id { SeenExactly(x, zone, norm, r); }
  }

  lemma {:induction false} CreatedNamed(steps: seq<Step>, outcome: nat -> Outcome)
    requires AllDone(outcome) && forall k: nat :: outcome(k).newId != ""
    ensures forall p :: p in Created(steps, outcome) ==> p.id != ""
  {
    if steps != [] { CreatedNamed(steps[..|steps| - 1], outcome); }
  }

  lemma MadeSeen(x: Inputs, norm: Fetch.Names, outcome: nat -> Outcome)
    requires Undisturbed(x, outcome) && forall k: nat :: outcome(k).newId != ""
    ensures Seen(x, Made(x, outcome), norm) == Made(x, outcome)
  {
    var made := Made(x, outcome);
    CreatedNamed(Steps(PlanOf(x), Some(x.remote.rules)), outcome);
    forall p | p in made ensures Sees(x, p, norm) {
      MadeIsCreation(x, outcome, p);
      OursIsSeen(x, p.id, p.name, norm);
    }
    AllSeen(x, made, norm);
  }

  /**
   * A failure-free run from a reading of part of the zone leaves, in the same part, exactly the expected records;
   * what was not seen stays as it was.
   */
  lemma SeenAfter(x: Inputs, w: World, norm: Fetch.Names, outcome: nat -> Outcome, steps: seq<Step>)
    requires Reading(x, w.records, norm) && Undisturbed(x, outcome) && forall k: nat :: outcome(k).newId != ""
    requires steps == Steps(PlanOf(x), Some(x.remote.rules)) && FreshIds(steps, outcome)
    ensures Seen(x, Run(w, steps, outcome, false).world.records, norm) == RecordsAfter(x, outcome)
    ensures forall r :: r in w.records && !Sees(x, r, norm) ==> Touched(r, CallsIn(steps)) == Some(r)
  {
    CleanRun(w, steps, outcome);
    SeenConcat(x, Survivors(w.records, CallsIn(steps)), Created(steps, outcome), norm);
    SurvivorsSeen(x, w.records, norm, w.records);
    MadeSeen(x, norm, outcome);
    forall r | r in w.records && !Sees(x, r, norm) ensures Touched(r, CallsIn(steps)) == Some(r) {
      UnseenIsUntouched(x, w.records, norm, r);
    }
  }
}
