/** Safety over whole runs of the controller's memory: grace periods, retries, sudden drops. */
module Runs {
  import opened Text
  import opened Models
  import opened Ingress
  import opened Planner
  import opened PlanFacts
  import opened Executor
  import opened Sync

  /**
   * What can happen to the controller's memory: a skipped or aborted attempt before discovery, a discovery
   * whose cycle then fails while reading Cloudflare, or a cycle that plans (against a server in any state).
   */
  datatype Event = Aborted | ReadFailed(services: seq<Origin>) | Planned(cycle: Cycle, server: World)

  function Next(m: Memory, e: Event): Memory {
    match e
    case Aborted => m
    case ReadFailed(services) => m.(discovered := |services|)
    case Planned(c, w) => MemoryAfter(m, w, c)
  }

  const START := Memory(map[], 0)

  /** The memory after a run. */
  function After(run: seq<Event>): Memory {
    if run == [] then START else Next(After(run[..|run| - 1]), run[|run| - 1])
  }

  /** The planner's inputs at event i of a run. */
  function At(run: seq<Event>, i: nat): Inputs
    requires i < |run| && run[i].Planned?
  {
    InputsOf(After(run[..i]), run[i].cycle)
  }

  // ---------------------------------------------------------------- one step

  lemma BuriedExactly(x: Inputs, h: string)
    requires x.snapshot.dockerOk
    ensures h in Buried(x) <==> (h in x.tombstones && !IsActive(x, h)) || h in ToSet(x)
    ensures h in Buried(x) ==> Buried(x)[h] == if h in x.tombstones then x.tombstones[h] else x.now
  {
    SortedOrder(ToClear(x));
    SetExactly(x, h);
    ClearExactly(x, h);
    ActiveNamed(x.snapshot.origins);
    var plan := PlanOf(x);
    var cleared := set k | k in plan.toClear && k in Hostnames(x.snapshot.origins);
    assert h in plan.toClear <==> h in ToClear(x);
    assert h in x.tombstones ==> (h in cleared <==> IsActive(x, h)) by {
      if h in x.tombstones && h in cleared && !IsActive(x, h) {
        var o :| o in x.snapshot.origins && o.hostname == h;
        assert h == "";
        NoEmptyHost(x);
      }
    }
  }

  lemma NoEmptyHost(x: Inputs)
    ensures "" !in ToClear(x) && "" !in ToSet(x)
  {
    ClearExactly(x, "");
    SetExactly(x, "");
    ActiveNamed(x.snapshot.origins);
    PickHost(x, "");
  }

  /** How a cycle changes the tombstone of h, in terms of the memory before and after. */
  ghost predicate TombstoneMoves(x: Inputs, before: map<string, real>, after: map<string, real>, through: bool,
      h: string) {
    && (h in after <==>
          || (h in before && !IsActive(x, h) && !(through && Lingers(x, h) && FateOf(x, h) == Planner.Remove))
          || (h !in before && Lingers(x, h) && FateOf(x, h) == Begin))
    && (h in after ==> after[h] == if h in before then before[h] else x.now)
  }

  /**
   * A cycle keeps a tombstone with its timestamp unless the host is back, or the whole cycle went through
   * and removed what the tombstone stood for; it creates tombstones, at the present time, only for lingering
   * hosts that had none.
   */
  lemma TombstoneStep(m: Memory, w: World, c: Cycle, h: string)
    ensures TombstoneMoves(InputsOf(m, c), m.tombstones, MemoryAfter(m, w, c).tombstones, Completes(m, w, c), h)
  {
    var x := InputsOf(m, c);
    BuriedExactly(x, h);
    SetExactly(x, h);
    ClearExactly(x, h);
    SortedOrder(ToClear(x));
    assert h in Elements(PlanOf(x).toClear) <==> h in ToClear(x);
  }

  /** The tombstones remembered before event n. */
  ghost function Tombs(run: seq<Event>, n: nat): map<string, real>
    requires n <= |run|
  {
    After(run[..n]).tombstones
  }

  /** The cycle at event n went through. */
  ghost predicate WentThrough(run: seq<Event>, n: nat)
    requires n < |run| && run[n].Planned?
  {
    Completes(After(run[..n]), run[n].server, run[n].cycle)
  }

  lemma AfterNext(run: seq<Event>, n: nat)
    requires n < |run|
    ensures After(run[..n + 1]) == Next(After(run[..n]), run[n])
  {
    assert run[..n + 1][..n] == run[..n];
  }

  lemma AtFacts(run: seq<Event>, n: nat)
    requires n < |run| && run[n].Planned?
    ensures At(run, n).snapshot.dockerOk && At(run, n).tombstones == Tombs(run, n) && At(run, n).now == run[n].cycle.now
  {
  }

  lemma PlannedMoves(m: Memory, e: Event, h: string)
    requires e.Planned?
    ensures TombstoneMoves(InputsOf(m, e.cycle), m.tombstones, Next(m, e).tombstones, Completes(m, e.server, e.cycle),
            h)
  {
    TombstoneStep(m, e.server, e.cycle, h);
  }

  lemma TombsNext(run: seq<Event>, n: nat, h: string)
    requires n < |run|
    ensures !run[n].Planned? ==> Tombs(run, n + 1) == Tombs(run, n)
    ensures run[n].Planned? ==> TombstoneMoves(At(run, n), Tombs(run, n), Tombs(run, n + 1), WentThrough(run, n), h)
  {
    AfterNext(run, n);
    if run[n].Planned? { PlannedMoves(After(run[..n]), run[n], h); }
  }

  // ---------------------------------------------------------------- grace period

  /** Event j put h in the ground, and from then on no planned cycle before event n saw h alive. */
  ghost predicate BuriedSince(run: seq<Event>, j: nat, n: nat, h: string) {
    && j < n <= |run|
    && run[j].Planned?
    && h in ToSet(At(run, j))
    && AwayDuring(run, j, n, h)
  }

  ghost predicate AwayDuring(run: seq<Event>, j: nat, n: nat, h: string)
    requires n <= |run|
  {
    forall k :: j <= k < n && run[k].Planned? ==> !IsActive(At(run, k), h)
  }

  lemma StoryBegins(run: seq<Event>, n: nat, h: string)
    requires n < |run| && h !in Tombs(run, n) && h in Tombs(run, n + 1)
    ensures BuriedSince(run, n, n + 1, h) && Tombs(run, n + 1)[h] == run[n].cycle.now
  {
    TombsNext(run, n, h);
    AtFacts(run, n);
    SetExactly(At(run, n), h);
  }

  lemma StoryContinues(run: seq<Event>, j: nat, n: nat, h: string)
    requires n < |run| && h in Tombs(run, n) && h in Tombs(run, n + 1) && BuriedSince(run, j, n, h)
    ensures BuriedSince(run, j, n + 1, h) && Tombs(run, n + 1)[h] == Tombs(run, n)[h]
  {
    TombsNext(run, n, h);
  }

  /** Every tombstone in memory has a story: when it was set, and that its host stayed away since. */
  lemma {:induction false} EveryTombstoneHasAStory(run: seq<Event>, n: nat, h: string) returns (j: nat)
    requires n <= |run| && h in Tombs(run, n)
    ensures BuriedSince(run, j, n, h) && Tombs(run, n)[h] == run[j].cycle.now
  {
    assert n > 0 by { assert run[..0] == []; }
    if h in Tombs(run, n - 1) {
      j := EveryTombstoneHasAStory(run, n - 1, h);
      StoryContinues(run, j, n - 1, h);
    } else {
      j := n - 1;
      StoryBegins(run, j, h);
    }
  }

  /** Something of h is planned for deletion: its root, or a record of that name. */
  ghost predicate PlansDelete(x: Inputs, h: string) {
    || (exists c :: c in PlanOf(x).ingress && c.action == IDelete && c.hostname == h)
    || (exists c :: c in PlanOf(x).dns && c.action == DDelete && c.hostname == h)
  }

  lemma DeleteMeansExpired(x: Inputs, h: string)
    requires x.snapshot.dockerOk && PlansDelete(x, h)
    ensures !IsActive(x, h) && FateOf(x, h) == Planner.Remove
  {
    IngressDeleteExactly(x, h);
    if c :| c in PlanOf(x).dns && c.action == DDelete && c.hostname == h {
      var r := DnsDeleteHasRecord(x, c);
    }
  }

  /**
   * Grace period, over every run: with a positive grace period in force and no immediate cleanup, whatever is
   * planned for deletion was buried by an earlier cycle at least that long ago, and no cycle since then,
   * including this one, saw its container.
   */
  lemma GracePeriodIsHonoured(run: seq<Event>, i: nat, h: string) returns (j: nat)
    requires i < |run| && run[i].Planned?
    requires At(run, i).cfg.grace > 0.0 && !At(run, i).cfg.immediate
    requires PlansDelete(At(run, i), h)
    ensures BuriedSince(run, j, i, h) && !IsActive(At(run, i), h)
    ensures run[i].cycle.now - run[j].cycle.now >= At(run, i).cfg.grace
  {
    AtFacts(run, i);
    DeleteMeansExpired(At(run, i), h);
    j := EveryTombstoneHasAStory(run, i, h);
  }

  /**
   * The converse: once the grace period of a buried, absent host is over, the next planned cycle deletes
   * its owned root and every record it manages under that name.
   */
  lemma ExpiryIsActedUpon(x: Inputs, h: string)
    requires x.snapshot.dockerOk && !IsActive(x, h)
    requires h in x.tombstones && x.now - x.tombstones[h] >= x.cfg.grace
    ensures FirstRoot(x.remote.rules, h).Some? && OwnsHost(x, h) ==>
              exists c :: c in PlanOf(x).ingress && c.action == IDelete && c.hostname == h
    ensures forall r :: LingeringRecord(x, h, r) ==>
              MissingDns(x, r).change in PlanOf(x).dns && MissingDns(x, r).change.action == DDelete
  {
    IngressDeleteExactly(x, h);
    forall r | LingeringRecord(x, h, r)
      ensures MissingDns(x, r).change in PlanOf(x).dns && MissingDns(x, r).change.action == DDelete
    {
      assert FromRecord(x, MissingDns(x, r), r);
      DnsDeletePlanned(x, r);
    }
  }

  // ---------------------------------------------------------------- retries

  /** Between events i and n the host never came back, and no cycle that would remove it went through. */
  ghost predicate NeverFinished(run: seq<Event>, i: nat, n: nat, h: string)
    requires n <= |run|
  {
    && AwayDuring(run, i, n, h)
    && forall k :: i <= k < n && run[k].Planned? && WentThrough(run, k) ==> !PlansDelete(At(run, k), h)
  }

  lemma LingeringIsDeleted(x: Inputs, h: string)
    requires x.snapshot.dockerOk && Lingers(x, h) && FateOf(x, h) == Planner.Remove
    ensures PlansDelete(x, h)
  {
    IngressDeleteExactly(x, h);
    if r :| LingeringRecord(x, h, r) {
      assert FromRecord(x, MissingDns(x, r), r);
      DnsDeletePlanned(x, r);
      MissingDnsIs(x, r);
    }
  }

  /** Retries do not restart the clock: through any failures the tombstone keeps its original timestamp. */
  lemma {:induction false} FailuresKeepTheTombstone(run: seq<Event>, i: nat, n: nat, h: string)
    requires i <= n <= |run| && h in Tombs(run, i)
    requires NeverFinished(run, i, n, h)
    ensures h in Tombs(run, n) && Tombs(run, n)[h] == Tombs(run, i)[h]
  {
    if n > i {
      FailuresKeepTheTombstone(run, i, n - 1, h);
      TombsNext(run, n - 1, h);
      if run[n - 1].Planned? && Lingers(At(run, n - 1), h) && FateOf(At(run, n - 1), h) == Planner.Remove {
        LingeringIsDeleted(At(run, n - 1), h);
      }
    }
  }

  /**
   * Retry retention: a host buried by event i whose removal keeps failing is planned for deletion again by
   * every cycle past its original deadline, as long as something of it is still there.
   */
  lemma RemovalIsRetried(run: seq<Event>, i: nat, n: nat, h: string)
    requires i <= n < |run| && run[n].Planned?
    requires h in Tombs(run, i) && NeverFinished(run, i, n, h)
    requires Lingers(At(run, n), h)
    requires run[n].cycle.now - Tombs(run, i)[h] >= At(run, n).cfg.grace
    ensures PlansDelete(At(run, n), h)
  {
    FailuresKeepTheTombstone(run, i, n, h);
    AtFacts(run, n);
    LingeringIsDeleted(At(run, n), h);
  }

  // ---------------------------------------------------------------- sudden drops

  lemma {:induction false} OnlyPlansMoveTombstones(run: seq<Event>, i: nat, n: nat)
    requires i <= n <= |run| && forall k :: i <= k < n ==> !run[k].Planned?
    ensures Tombs(run, n) == Tombs(run, i)
  {
    if n > i {
      AfterNext(run, n - 1);
      OnlyPlansMoveTombstones(run, i, n - 1);
    }
  }

  lemma DeleteMeansLingers(x: Inputs, h: string)
    requires x.snapshot.dockerOk && PlansDelete(x, h)
    ensures Lingers(x, h)
  {
    IngressDeleteExactly(x, h);
    if c :| c in PlanOf(x).dns && c.action == DDelete && c.hostname == h {
      var r := DnsDeleteHasRecord(x, c);
      assert LingeringRecord(x, h, r);
    }
  }

  /** What is planned for deletion is exactly what lingers of a host whose time is up. */
  lemma PlansDeleteExactly(x: Inputs, h: string)
    requires x.snapshot.dockerOk
    ensures PlansDelete(x, h) <==> Lingers(x, h) && FateOf(x, h) == Planner.Remove
  {
    if PlansDelete(x, h) {
      DeleteMeansLingers(x, h);
      DeleteMeansExpired(x, h);
    }
    if Lingers(x, h) && FateOf(x, h) == Planner.Remove { LingeringIsDeleted(x, h); }
  }

  /**
   * A host without a tombstone is removed at once exactly when the settings say so and the drop guard does not
   * intervene.
   */
  lemma UnburiedFate(m: Memory, c: Cycle, h: string)
    requires h !in m.tombstones
    ensures FateOf(InputsOf(m, c), h) == Planner.Remove <==>
            !SuddenDrop(m, c) && (c.settings.immediate || c.settings.grace <= 0.0)
  {
  }

  lemma ActiveHostIsUnburied(run: seq<Event>, i: nat, n: nat, h: string)
    requires i < n <= |run| && run[i].Planned? && IsActive(At(run, i), h)
    requires forall k :: i < k < n ==> !run[k].Planned?
    ensures h !in After(run[..n]).tombstones
  {
    OnlyPlansMoveTombstones(run, i + 1, n);
    TombsNext(run, i, h);
  }

  /**
   * Departures, exactly: at the first planned cycle after one that saw a host, whatever happened in between,
   * something of it is planned for deletion if and only if something of it lingers, deletion without waiting is
   * configured, and the drop guard does not intervene.
   */
  lemma DepartureExactly(run: seq<Event>, i: nat, n: nat, h: string)
    requires i < n < |run| && run[i].Planned? && run[n].Planned?
    requires forall k :: i < k < n ==> !run[k].Planned?
    requires IsActive(At(run, i), h)
    ensures PlansDelete(At(run, n), h) <==>
            && Lingers(At(run, n), h)
            && !SuddenDrop(After(run[..n]), run[n].cycle)
            && (run[n].cycle.settings.immediate || run[n].cycle.settings.grace <= 0.0)
  {
    ActiveHostIsUnburied(run, i, n, h);
    UnburiedFate(After(run[..n]), run[n].cycle, h);
    PlansDeleteExactly(At(run, n), h);
  }

  /**
   * Sudden drop: while the last discovery before this cycle still counted at least two services and this one
   * finds none, nothing of a host that was active at the previous planned cycle is deleted, whatever cleanup
   * settings are configured.
   */
  lemma SuddenDropDeletesNothing(run: seq<Event>, i: nat, n: nat, h: string)
    requires i < n < |run| && run[i].Planned? && run[n].Planned?
    requires forall k :: i < k < n ==> !run[k].Planned?
    requires After(run[..n]).discovered >= 2 && |run[n].cycle.services| == 0
    requires IsActive(At(run, i), h)
    ensures !PlansDelete(At(run, n), h)
  {
    DepartureExactly(run, i, n, h);
  }

  lemma {:induction false} AbortsKeepTheCount(run: seq<Event>, i: nat, n: nat)
    requires i < n <= |run| && run[i].Planned? && forall k :: i < k < n ==> run[k].Aborted?
    ensures After(run[..n]).discovered == |run[i].cycle.services|
  {
    AfterNext(run, n - 1);
    if n > i + 1 { AbortsKeepTheCount(run, i, n - 1); }
  }

  /**
   * Consecutive cycles, with nothing but attempts aborted before discovery between them: when at least two
   * services become none, nothing of a host seen by the first is deleted by the second.
   */
  lemma ConsecutiveDropDeletesNothing(run: seq<Event>, i: nat, n: nat, h: string)
    requires i < n < |run| && run[i].Planned? && run[n].Planned?
    requires forall k :: i < k < n ==> run[k].Aborted?
    requires |run[i].cycle.services| >= 2 && |run[n].cycle.services| == 0
    requires IsActive(At(run, i), h)
    ensures !PlansDelete(At(run, n), h)
  {
    AbortsKeepTheCount(run, i, n);
    SuddenDropDeletesNothing(run, i, n, h);
  }

  // A cycle that discovers nothing and then fails to read Cloudflare spends the guard.

  const HOST := "app.example"

  const TARGET := "t.cfargotunnel.com"

  const SERVICES := [Origin(HOST, "http://app", None), Origin("b.example", "http://b", None)]

  const ITS_RECORD := Record("1", HOST, None, Some(TARGET), Written(TAG_PREFIX + "t"), Some(true), Some(1))

  const READ := Remote("t", TARGET, [NOT_FOUND], [ITS_RECORD])

  const EAGER := Settings(AdoptAndManage, 0.0, false, false, false, DeletionPolicy(3, None, false))

  ghost function SpentGuard(outcome: nat -> Outcome): seq<Event> {
    var w := World([NOT_FOUND], [ITS_RECORD]);
    [Planned(Cycle(EAGER, SERVICES, READ, 0.0, outcome), w), ReadFailed([]),
        Planned(Cycle(EAGER, [], READ, 1.0, outcome), w)]
  }

  lemma ItsRecordIsOwned(x: Inputs)
    requires x.cfg.tagPrefix == TAG_PREFIX && x.remote.tunnelName == "t" && x.remote.target == TARGET
    ensures StatusOf(x, ITS_RECORD, false) == Owned
  {
    StripFixesTrimmed(TAG_PREFIX + "t");
  }

  /** Without the premise on the last discovery the protection fails: two services, a failed read, then a deletion. */
  lemma GuardCanBeSpent(outcome: nat -> Outcome)
    ensures var run := SpentGuard(outcome);
            && IsActive(At(run, 0), HOST)
            && |run[0].cycle.services| >= 2 && |run[2].cycle.services| == 0
            && After(run[..2]).discovered == 0
            && PlansDelete(At(run, 2), HOST)
  {
    var run := SpentGuard(outcome);
    ActiveNamed(SERVICES);
    assert SERVICES[0] in SERVICES;
    AfterNext(run, 1);
    var x := At(run, 2);
    ItsRecordIsOwned(x);
    assert LingeringRecord(x, HOST, ITS_RECORD);
    LingeringIsDeleted(x, HOST);
  }
}
