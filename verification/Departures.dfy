/** A departure from beginning to end: burial, any number of cycles waiting, clean-up past the deadline, silence. */
module Departures {
  import opened Text
  import opened Models
  import opened Ingress
  import opened MergeFacts
  import opened Planner
  import opened PlanFacts
  import opened PlanTheorems
  import opened Executor
  import opened Effects
  import opened Sync
  import opened Runs
  import opened Convergence
  import opened Scope
  import opened Fixpoint
  import opened Goals
  import opened Orphans
  import Fetch

  // ---------------------------------------------------------------- repeated roots

  lemma {:induction false} KeptPastFirst(rules: seq<Rule>, seen: set<string>, h: string)
    requires h in seen
    ensures FirstRoot(Kept(rules, seen), h) == FirstRoot(rules, h)
  {
    if rules != [] {
      KeptPastFirst(rules[1..], seen, h);
      KeptPastFirst(rules[1..], seen + {Host(rules[0])}, h);
      FirstRootCons(rules[0], Kept(rules[1..], seen), h);
    }
  }

  lemma {:induction false} WithoutPastFirst(rules: seq<Rule>, hosts: set<string>, h: string)
    requires h !in hosts
    ensures FirstRoot(Without(rules, hosts), h) == FirstRoot(rules, h)
  {
    if rules != [] {
      WithoutPastFirst(rules[1..], hosts, h);
      WithoutPastFirst(rules[1..], hosts - {Host(rules[0])}, h);
      FirstRootCons(rules[0], Without(rules[1..], hosts), h);
    }
  }

  lemma {:induction false} BothDropTheFirst(rules: seq<Rule>, seen: set<string>, hosts: set<string>, h: string)
    requires h !in seen && h in hosts
    ensures FirstRoot(Kept(rules, seen), h) == FirstRoot(Without(rules, hosts), h)
  {
    if rules != [] {
      var o, rest := rules[0], rules[1..];
      var seen' := if IsRoot(o) && Host(o) !in seen then seen + {Host(o)} else seen;
      var hosts' := if IsRoot(o) && Host(o) in hosts then hosts - {Host(o)} else hosts;
      FirstRootCons(o, Kept(rest, seen'), h);
      FirstRootCons(o, Without(rest, hosts'), h);
      if IsRoot(o) && Host(o) == h {
        KeptPastFirst(rest, seen', h);
        WithoutPastFirst(rest, hosts', h);
      } else {
        BothDropTheFirst(rest, seen', hosts', h);
      }
    }
  }

  /** A merge keeps the repeated roots of a desired host. */
  lemma TwinsPersist(existing: seq<Rule>, desired: map<string, Rule>, h: string)
    requires Roots(desired) && h in desired
    ensures FirstRoot(Kept(Merge(existing, desired), {}), h) == FirstRoot(Kept(existing, {}), h)
  {
    BothDropTheFirst(Merge(existing, desired), {}, desired.Keys, h);
    MergeIsLossless(existing, desired);
    if HasFallback(existing) {
      assert Kept(existing, {}) + FallbackIfMissing(existing) == Kept(existing, {});
    } else {
      FirstRootAppend(Kept(existing, {}), NOT_FOUND, h);
    }
  }

  // ---------------------------------------------------------------- one cycle

  /** A host of ours: its only record in the zone bears our tag, and it has a root. */
  ghost predicate OurHost(x: Inputs, w: World, r: Record) {
    && OnlyRecord(w.records, r) && r.id != "" && r.name != "" && StatusOf(x, r, false) == Owned
    && FirstRoot(w.ingress, r.name).Some?
  }

  lemma OnlyOneSeen(x: Inputs, zone: seq<Record>, norm: Fetch.Names, r: Record)
    requires x.remote.records == Seen(x, zone, norm) && OnlyRecord(zone, r)
    requires r.id != "" && r.name != "" && StatusOf(x, r, false) == Owned
    ensures LastRecord(x.remote.records, r.name) == Some(r) && OwnsHost(x, r.name)
  {
    OwnedIsSeen(x, r, norm);
    SeenExactly(x, zone, norm, r);
    LastRecordIsThere(x.remote.records, r.name);
    SeenExactly(x, zone, norm, LastRecord(x.remote.records, r.name).value);
  }

  lemma SmoothWorld(m: Memory, w: World, c: Cycle, norm: Fetch.Names)
    requires Smooth(m, w, c, norm)
    ensures WorldAfter(m, w, c) == ProgressOf(InputsOf(m, c), w, c.outcome).world
    ensures WorldAfter(m, w, c).ingress == PlanOf(InputsOf(m, c)).finalRules
  {
    IngressAsPlanned(PlanOf(InputsOf(m, c)), w, c.outcome);
  }

  /** What a cycle that does not remove a host of ours leaves of it: everything, and a tombstone. */
  ghost predicate Keeps(m: Memory, w: World, c: Cycle, m': Memory, w': World, r: Record) {
    && r.name in m'.tombstones
    && m'.tombstones[r.name] == (if r.name in m.tombstones then m.tombstones[r.name] else c.now)
    && OnlyRecord(w'.records, r)
    && FirstRoot(w'.ingress, r.name) == FirstRoot(w.ingress, r.name)
    && FirstRoot(Kept(w'.ingress, {}), r.name) == FirstRoot(Kept(w.ingress, {}), r.name)
  }

  lemma RecordIsKept(m: Memory, w: World, c: Cycle, norm: Fetch.Names, r: Record)
    requires Smooth(m, w, c, norm) && OurHost(InputsOf(m, c), w, r)
    requires !IsActive(InputsOf(m, c), r.name) && FateOf(InputsOf(m, c), r.name) != Planner.Remove
    ensures OnlyRecord(WorldAfter(m, w, c).records, r)
  {
    var x, w' := InputsOf(m, c), WorldAfter(m, w, c);
    OnlyOneSeen(x, w.records, norm, r);
    AbsentHostIsCleared(m, w, c, norm, r.name);
    LastRecordIsThere(Seen(x, w'.records, norm), r.name);
    SeenExactly(x, w'.records, norm, r);
    SmoothWorld(m, w, c, norm);
    forall q | q in w'.records && q.name == r.name ensures q == r { AbsentIsOld(x, w, c.outcome, q); }
  }

  /** Before its time is up a host of ours is kept, whether this cycle buries it or finds it buried. */
  lemma HostIsKept(m: Memory, w: World, c: Cycle, norm: Fetch.Names, r: Record)
    requires Smooth(m, w, c, norm) && OurHost(InputsOf(m, c), w, r)
    requires !IsActive(InputsOf(m, c), r.name) && FateOf(InputsOf(m, c), r.name) != Planner.Remove
    ensures Keeps(m, w, c, MemoryAfter(m, w, c), WorldAfter(m, w, c), r)
  {
    var x := InputsOf(m, c);
    OnlyOneSeen(x, w.records, norm, r);
    RecordIsKept(m, w, c, norm, r);
    TombstoneStep(m, w, c, r.name);
    AbsentHostIsCleared(m, w, c, norm, r.name);
    SmoothWorld(m, w, c, norm);
    DesiredRoots(x);
    AbsentWanted(x, r.name);
    DesiredExactly(x, r.name);
    TwinsPersist(w.ingress, Desired(x), r.name);
  }

  /** A smooth cycle past the deadline removes the record, the root, and the tombstone. */
  lemma ExpiredIsRemoved(m: Memory, w: World, c: Cycle, norm: Fetch.Names, r: Record)
    requires Smooth(m, w, c, norm) && OurHost(InputsOf(m, c), w, r)
    requires !IsActive(InputsOf(m, c), r.name) && FateOf(InputsOf(m, c), r.name) == Planner.Remove
    ensures var m', w' := MemoryAfter(m, w, c), WorldAfter(m, w, c);
            && r.name !in m'.tombstones
            && (forall q :: q in w'.records ==> q.name != r.name)
            && FirstRoot(w'.ingress, r.name) == FirstRoot(Kept(w.ingress, {}), r.name)
  {
    var x, w' := InputsOf(m, c), WorldAfter(m, w, c);
    OnlyOneSeen(x, w.records, norm, r);
    SmoothCompletes(m, w, c, norm);
    TombstoneStep(m, w, c, r.name);
    AbsentHostIsCleared(m, w, c, norm, r.name);
    SmoothWorld(m, w, c, norm);
    forall q | q in w'.records ensures q.name != r.name {
      if q.name == r.name { AbsentIsOld(x, w, c.outcome, q); }
    }
  }

  // ---------------------------------------------------------------- a run of cycles

  /** The controller's memory and the server between two cycles. */
  datatype Stage = Stage(memory: Memory, world: World)

  ghost function Then(s: Stage, c: Cycle): Stage {
    Stage(MemoryAfter(s.memory, s.world, c), WorldAfter(s.memory, s.world, c))
  }

  ghost function Through(s: Stage, cycles: seq<Cycle>): Stage {
    if cycles == [] then s else Then(Through(s, cycles[..|cycles| - 1]), cycles[|cycles| - 1])
  }

  /** A smooth cycle for the same tunnel that does not see the host. */
  ghost predicate Misses(s: Stage, c: Cycle, norm: Fetch.Names, first: Cycle, h: string) {
    && Smooth(s.memory, s.world, c, norm)
    && c.remote.tunnelName == first.remote.tunnelName && c.remote.target == first.remote.target
    && !IsActive(InputsOf(s.memory, c), h)
  }

  /** The first such cycle: the host has no tombstone yet, and is to have one. */
  ghost predicate Departs(s: Stage, first: Cycle, norm: Fetch.Names, r: Record) {
    && Misses(s, first, norm, first, r.name)
    && OurHost(InputsOf(s.memory, first), s.world, r) && FateOf(InputsOf(s.memory, first), r.name) == Begin
  }

  /** A later one, under a wait that is not over. */
  ghost predicate Waits(s: Stage, c: Cycle, norm: Fetch.Names, first: Cycle, h: string) {
    var cfg := ConfigOf(s.memory, c);
    Misses(s, c, norm, first, h) && !cfg.immediate && 0.0 < cfg.grace && c.now - first.now < cfg.grace
  }

  ghost predicate WaitsThrough(s: Stage, cycles: seq<Cycle>, norm: Fetch.Names, first: Cycle, h: string) {
    cycles == [] ||
    (WaitsThrough(s, cycles[..|cycles| - 1], norm, first, h)
     && Waits(Through(s, cycles[..|cycles| - 1]), cycles[|cycles| - 1], norm, first, h))
  }

  /** One past the deadline. */
  ghost predicate Expires(s: Stage, c: Cycle, norm: Fetch.Names, first: Cycle, h: string) {
    Misses(s, c, norm, first, h) && c.now - first.now >= ConfigOf(s.memory, c).grace
  }

  /** Since burial: the tombstone, the record, the root and what repeats it. */
  ghost predicate InWait(s: Stage, start: World, first: Cycle, r: Record) {
    && r.name in s.memory.tombstones && s.memory.tombstones[r.name] == first.now
    && OnlyRecord(s.world.records, r)
    && FirstRoot(s.world.ingress, r.name) == FirstRoot(start.ingress, r.name)
    && FirstRoot(Kept(s.world.ingress, {}), r.name) == FirstRoot(Kept(start.ingress, {}), r.name)
  }

  lemma StillOurs(s: Stage, c: Cycle, norm: Fetch.Names, start: Stage, first: Cycle, r: Record)
    requires Departs(start, first, norm, r) && InWait(s, start.world, first, r) && Misses(s, c, norm, first, r.name)
    ensures OurHost(InputsOf(s.memory, c), s.world, r)
  {
    assert StatusOf(InputsOf(s.memory, c), r, false) == StatusOf(InputsOf(start.memory, first), r, false);
  }

  lemma WaitingIsKept(s: Stage, c: Cycle, norm: Fetch.Names, start: Stage, first: Cycle, r: Record)
    requires Departs(start, first, norm, r) && InWait(s, start.world, first, r) && Waits(s, c, norm, first, r.name)
    ensures InWait(Then(s, c), start.world, first, r)
  {
    StillOurs(s, c, norm, start, first, r);
    HostIsKept(s.memory, s.world, c, norm, r);
  }

  /** However many cycles pass before the deadline, the host stays as it was, under the timestamp of the first. */
  lemma {:induction false} KeptThroughout(start: Stage, first: Cycle, waits: seq<Cycle>, norm: Fetch.Names, r: Record)
    requires Departs(start, first, norm, r) && WaitsThrough(Then(start, first), waits, norm, first, r.name)
    ensures InWait(Through(Then(start, first), waits), start.world, first, r)
  {
    if waits == [] {
      HostIsKept(start.memory, start.world, first, norm, r);
    } else {
      var init := waits[..|waits| - 1];
      KeptThroughout(start, first, init, norm, r);
      WaitingIsKept(Through(Then(start, first), init), waits[|waits| - 1], norm, start, first, r);
    }
  }

  lemma ExpiryIsRemoval(s: Stage, c: Cycle, start: World, first: Cycle, r: Record)
    requires InWait(s, start, first, r) && c.now - first.now >= ConfigOf(s.memory, c).grace
    ensures FateOf(InputsOf(s.memory, c), r.name) == Planner.Remove
  {
  }

  /**
   * A departure, composed: the first smooth cycle buries the host; through any number of smooth cycles before the
   * deadline nothing of it changes; the first one past the deadline leaves no record of that name, no root but what
   * repeated it, and no tombstone; and the cycle after that sends nothing, outside the three known exceptions.
   */
  lemma DepartureIsCleanedUp(start: Stage, first: Cycle, waits: seq<Cycle>, last: Cycle, norm: Fetch.Names, r: Record,
                             outcome: nat -> Outcome)
    requires Departs(start, first, norm, r)
    requires WaitsThrough(Then(start, first), waits, norm, first, r.name)
    requires Expires(Through(Then(start, first), waits), last, norm, first, r.name)
    ensures var s := Through(Then(start, first), waits);
            var end := Then(s, last);
            && InWait(s, start.world, first, r)
            && r.name !in end.memory.tombstones
            && (forall q :: q in end.world.records ==> q.name != r.name)
            && FirstRoot(end.world.ingress, r.name) == FirstRoot(Kept(start.world.ingress, {}), r.name)
            && (NextCalls(s.memory, s.world, last, outcome, norm) == [] <==>
                  forall h :: && !AdoptedManualRoot(InputsOf(s.memory, last), h)
                      && !HiddenTwin(InputsOf(s.memory, last), h)
                              && !SparedByGuard(s.memory, last, h))
  {
    var s := Through(Then(start, first), waits);
    KeptThroughout(start, first, waits, norm, r);
    StillOurs(s, last, norm, start, first, r);
    ExpiryIsRemoval(s, last, start.world, first, r);
    ExpiredIsRemoved(s.memory, s.world, last, norm, r);
    NextCycleIsSilent(s.memory, s.world, last, outcome, norm);
  }
}
