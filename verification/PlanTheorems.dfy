/** Theorems about one plan: conservation, truthful diffs, lockstep of the two loops, order independence. */
module PlanTheorems {
  import opened Text
  import opened Models
  import opened Ingress
  import opened MergeFacts
  import opened Planner
  import opened PlanFacts

  // ---------------------------------------------------------------- counting changes

  ghost predicate DistinctPicks(picks: seq<IngressPick>) {
    forall i, j :: 0 <= i < j < |picks| ==> picks[i].host != picks[j].host
  }

  lemma {:induction false} ActivePicksDistinct(x: Inputs, active: map<string, Origin>, hosts: seq<string>)
    requires forall h :: h in hosts ==> h in active
    requires forall i, j :: 0 <= i < j < |hosts| ==> hosts[i] != hosts[j]
    ensures DistinctPicks(ActivePicks(x, active, hosts))
    ensures forall p :: p in ActivePicks(x, active, hosts) ==> p.host in hosts
  {
    if hosts != [] {
      var h, init := hosts[|hosts| - 1], hosts[..|hosts| - 1];
      ActivePicksDistinct(x, active, init);
      assert ActiveIngress(x, h, active[h]).host == h;
      assert forall k :: k in init ==> k != h;
    }
  }

  lemma {:induction false} MissingPicksDistinct(x: Inputs, active: map<string, Origin>, roots: seq<Rule>)
    requires forall i, j :: 0 <= i < j < |roots| ==> Host(roots[i]) != Host(roots[j])
    ensures DistinctPicks(MissingPicks(x, active, roots))
    ensures forall p :: p in MissingPicks(x, active, roots) ==>
            p.host !in active && exists r :: r in roots && Host(r) == p.host
  {
    if roots != [] {
      var r, init := roots[|roots| - 1], roots[..|roots| - 1];
      MissingPicksDistinct(x, active, init);
      assert roots == init + [r];
      assert MissingIngress(x, r).host == Host(r);
      assert forall q :: q in init ==> Host(q) != Host(r);
    }
  }

  lemma PicksDistinct(x: Inputs)
    ensures DistinctPicks(IngressPicks(x))
  {
    var active := Active(x.snapshot.origins);
    SortedOrder(active.Keys);
    RootOrderExactly(x.remote.rules);
    ActivePicksDistinct(x, active, Sorted(active.Keys));
    MissingPicksDistinct(x, active, RootOrder(x.remote.rules));
  }

  ghost function HostsWith(picks: seq<IngressPick>, a: IngressAction): set<string> {
    if picks == [] then {}
    else
      var p := picks[|picks| - 1];
      HostsWith(picks[..|picks| - 1], a) + if p.change.action == a then {p.host} else {}
  }

  lemma {:induction false} HostsWithExactly(picks: seq<IngressPick>, a: IngressAction, h: string)
    ensures h in HostsWith(picks, a) <==> exists p :: p in picks && p.host == h && p.change.action == a
  {
    if picks != [] {
      var p, init := picks[|picks| - 1], picks[..|picks| - 1];
      HostsWithExactly(init, a, h);
      assert picks == init + [p];
    }
  }

  lemma {:induction false} CountIsHosts(picks: seq<IngressPick>, a: IngressAction)
    requires DistinctPicks(picks)
    ensures CountIngress(IngressChanges(picks), a) == |HostsWith(picks, a)|
  {
    if picks != [] {
      var p, init := picks[|picks| - 1], picks[..|picks| - 1];
      CountIsHosts(init, a);
      assert IngressChanges(picks)[..|picks| - 1] == IngressChanges(init) by { ChangesLength(init); }
      HostsWithExactly(init, a, p.host);
    }
  }

  lemma {:induction false} ChangesLength(picks: seq<IngressPick>)
    ensures |IngressChanges(picks)| == |picks|
  {
    if picks != [] { ChangesLength(picks[..|picks| - 1]); }
  }

  ghost function Action(x: Inputs, h: string): IngressAction {
    if PickFor(x, h).Some? then PickFor(x, h).value.change.action else INoop
  }

  lemma CountsByHost(x: Inputs, a: IngressAction, hosts: set<string>)
    requires a != INoop
    requires forall h :: h in hosts <==> Action(x, h) == a
    ensures CountIngress(IngressChanges(IngressPicks(x)), a) == |hosts|
  {
    PicksDistinct(x);
    CountIsHosts(IngressPicks(x), a);
    forall h ensures h in HostsWith(IngressPicks(x), a) <==> h in hosts {
      HostsWithExactly(IngressPicks(x), a, h);
      if h in HostsWith(IngressPicks(x), a) {
        var p :| p in IngressPicks(x) && p.host == h && p.change.action == a;
        IngressPicksExactly(x, p);
      }
      if h in hosts {
        EveryPickIsThere(x, h);
        PickHost(x, h);
      }
    }
    assert HostsWith(IngressPicks(x), a) == hosts;
  }

  lemma ActionOfActive(x: Inputs, h: string)
    requires IsActive(x, h)
    ensures Action(x, h) != IDelete && Wanted(x, h).Some?
    ensures Action(x, h) == ICreate <==> FirstRoot(x.remote.rules, h).None?
  {
  }

  lemma ActionOfAbsent(x: Inputs, h: string)
    requires !IsActive(x, h)
    ensures Action(x, h) != ICreate && Action(x, h) != IUpdate
    ensures Action(x, h) == IDelete <==> FirstRoot(x.remote.rules, h).Some? && Wanted(x, h).None?
    ensures Wanted(x, h).Some? ==> FirstRoot(x.remote.rules, h).Some?
  {
  }

  /** Which host gets which ingress action, and whether its route is wanted afterwards. */
  lemma ActionExactly(x: Inputs, h: string)
    ensures Action(x, h) == ICreate <==> IsActive(x, h) && h !in RootHosts(x.remote.rules)
    ensures Action(x, h) == IDelete <==> h in RootHosts(x.remote.rules) && h !in Desired(x)
    ensures h in Desired(x) <==> IsActive(x, h) || (h in RootHosts(x.remote.rules) && Action(x, h) != IDelete)
  {
    RootHostsExactly(x.remote.rules, h);
    DesiredExactly(x, h);
    if IsActive(x, h) { ActionOfActive(x, h); } else { ActionOfAbsent(x, h); }
  }

  lemma CreatesAndDeletes(x: Inputs)
    requires x.snapshot.dockerOk
    ensures PlanOf(x).summary.ingressCreates == |Desired(x).Keys - RootHosts(x.remote.rules)|
    ensures PlanOf(x).summary.ingressDeletes == |RootHosts(x.remote.rules) - Desired(x).Keys|
  {
    var gained, lost := Desired(x).Keys - RootHosts(x.remote.rules), RootHosts(x.remote.rules) - Desired(x).Keys;
    forall h
      ensures h in gained <==> Action(x, h) == ICreate
      ensures h in lost <==> Action(x, h) == IDelete
    {
      ActionExactly(x, h);
    }
    CountsByHost(x, ICreate, gained);
    CountsByHost(x, IDelete, lost);
  }

  lemma DeletionIsAnnounced(x: Inputs, h: string)
    requires x.snapshot.dockerOk && Action(x, h) == IDelete
    ensures PlanOf(x).summary.ingressDeletes > 0
  {
    CreatesAndDeletes(x);
    ActionExactly(x, h);
    assert h in RootHosts(x.remote.rules) - Desired(x).Keys;
  }

  /**
   * Conservation: the planned rule list grows by the announced creations, shrinks by the announced
   * deletions, and gains one 404 rule if there was no catch-all.
   */
  lemma RulesAreConserved(x: Inputs)
    requires x.snapshot.dockerOk
    ensures var plan := PlanOf(x);
            |plan.finalRules| == |x.remote.rules| + plan.summary.ingressCreates - plan.summary.ingressDeletes
              + |FallbackIfMissing(x.remote.rules)|
  {
    CreatesAndDeletes(x);
    DesiredRoots(x);
    MergeCounts(x.remote.rules, Desired(x));
  }

  /** The roots the merge drops are exactly those the plan announces as deleted. */
  lemma DroppedRootsAreAnnounced(x: Inputs, h: string)
    requires x.snapshot.dockerOk && FirstRoot(x.remote.rules, h).Some?
    ensures h !in Desired(x) <==> exists c :: c in PlanOf(x).ingress && c.action == IDelete && c.hostname == h
  {
    ActionExactly(x, h);
    RootHostsExactly(x.remote.rules, h);
    IngressDeleteExactly(x, h);
    PickHost(x, h);
  }

  // ---------------------------------------------------------------- truthful diff

  /** A root that a rewrite with equal service and request would not alter. */
  ghost predicate Plain(root: Rule) {
    root.service.Some? && root.originRequest != Some(map[])
  }

  /** Remote rules in the form the merge leaves them: a catch-all, no root behind it, plain active roots. */
  ghost predicate Tidy(x: Inputs) {
    && HasFallback(x.remote.rules)
    && (forall h :: h in RootHosts(x.remote.rules) ==> FirstRoot(BeforeFallback(x.remote.rules), h).Some?)
    && (forall h :: h in RootHosts(x.remote.rules) && IsActive(x, h) ==> PlainAt(x.remote.rules, h))
  }

  ghost predicate PlainAt(rules: seq<Rule>, h: string) {
    FirstRoot(rules, h).Some? && Plain(FirstRoot(rules, h).value)
  }

  lemma OverlaySelf(root: Rule)
    ensures Overlay(root, root) == root
  {
    assert root.extra + root.extra == root.extra;
  }

  lemma OverlayDesired(root: Rule, h: string, service: string, q: OriginRequest)
    requires Host(root) == h && HasHost(root)
    ensures Overlay(root, Rule(Some(h), None, Some(service), RequestKey(q), map[])) == root <==>
            Plain(root) && root.service == Some(service) && RequestOf(root) == q
  {
    assert root.extra + map[] == root.extra;
  }

  lemma RequestKeyRoundTrip(h: string, service: string, q: OriginRequest)
    ensures RequestOf(Rule(Some(h), None, Some(service), RequestKey(q), map[])) == q
  {
  }

  /** An existing root is left alone by its wanted route iff the plan does not call that an update. */
  lemma AsDesiredExactly(x: Inputs, h: string)
    requires FirstRoot(x.remote.rules, h).Some? && h in Desired(x)
    ensures var root := FirstRoot(x.remote.rules, h).value;
            Overlay(root, Desired(x)[h]) == root <==> Action(x, h) != IUpdate && (IsActive(x, h) ==> Plain(root))
  {
    var root := FirstRoot(x.remote.rules, h).value;
    DesiredExactly(x, h);
    PickHost(x, h);
    if IsActive(x, h) {
      var o := Active(x.snapshot.origins)[h];
      var q := if o.originRequest.Some? then o.originRequest.value else map[];
      OverlayDesired(root, h, o.service, q);
      RequestKeyRoundTrip(h, o.service, q);
      OverlayDesired(root, h, ServiceText(root), RequestOf(root));
    } else {
      OverlaySelf(root);
    }
  }

  lemma UpdatesAreNone(x: Inputs)
    requires x.snapshot.dockerOk
    ensures PlanOf(x).summary.ingressUpdates == 0 <==> forall h :: Action(x, h) != IUpdate
  {
    var active := Active(x.snapshot.origins);
    var hosts := set h | h in active && Action(x, h) == IUpdate;
    forall h ensures Action(x, h) == IUpdate ==> h in active { PickHost(x, h); }
    CountsByHost(x, IUpdate, hosts);
    if hosts != {} { var h :| h in hosts; }
  }

  ghost predicate NoIngressChange(s: Summary) {
    s.ingressCreates == s.ingressUpdates == s.ingressDeletes == 0
  }

  lemma SettledExactly(x: Inputs)
    ensures Settled(x.remote.rules, Desired(x)) <==>
            RootHosts(x.remote.rules) == Desired(x).Keys && (forall h :: Action(x, h) != IUpdate) && Tidy(x)
  {
    var rules := x.remote.rules;
    forall h
      ensures h in RootHosts(rules) <==> FirstRoot(rules, h).Some?
      ensures FirstRoot(BeforeFallback(rules), h).Some? ==> FirstRoot(BeforeFallback(rules), h) == FirstRoot(rules, h)
      ensures Action(x, h) == IUpdate ==> h in Desired(x) && h in RootHosts(rules)
    {
      RootHostsExactly(rules, h);
      FirstRootIsRoot(rules, h);
      ActionExactly(x, h);
      PickHost(x, h);
    }
    forall h | h in Desired(x) && h in RootHosts(rules)
      ensures AsDesired(FirstRoot(BeforeFallback(rules), h), Desired(x)[h]) <==>
              FirstRoot(BeforeFallback(rules), h).Some? && Action(x, h) != IUpdate
                  && (IsActive(x, h) ==> PlainAt(rules, h))
    {
      AsDesiredExactly(x, h);
    }
  }

  /**
   * Truthful diff: the planned rule list equals the remote one (so no PUT is sent) exactly when the
   * summary announces no ingress change and the remote list was tidy.
   */
  lemma DiffIsTruthful(x: Inputs)
    requires x.snapshot.dockerOk
    ensures PlanOf(x).finalRules == x.remote.rules <==> NoIngressChange(PlanOf(x).summary) && Tidy(x)
  {
    DesiredRoots(x);
    MergeUnchangedIffSettled(x.remote.rules, Desired(x));
    SettledExactly(x);
    CreatesAndDeletes(x);
    UpdatesAreNone(x);
    var wanted, roots := Desired(x).Keys, RootHosts(x.remote.rules);
    assert wanted == roots <==> |wanted - roots| == 0 && |roots - wanted| == 0 by {
      if |wanted - roots| == 0 && |roots - wanted| == 0 {
        assert wanted - roots == {} && roots - wanted == {};
        assert wanted == roots;
      }
    }
  }

  // ---------------------------------------------------------------- records by name

  lemma {:induction false} LastRecordIsThere(records: seq<Record>, h: string)
    ensures LastRecord(records, h).Some? ==>
            LastRecord(records, h).value in records && LastRecord(records, h).value.name == h && h != ""
    ensures h != "" && (exists r :: r in records && r.name == h) ==> LastRecord(records, h).Some?
  {
    if records != [] && h != "" {
      LastRecordIsThere(records[..|records| - 1], h);
      assert records == records[..|records| - 1] + [records[|records| - 1]];
    }
  }

  // ---------------------------------------------------------------- origin order

  /** No two origins claim one host name differently. */
  ghost predicate Unambiguous(origins: seq<Origin>) {
    forall a, b :: a in origins && b in origins && a.hostname == b.hostname && a.hostname != "" ==> a == b
  }

  lemma ActiveIgnoresOrder(a: seq<Origin>, b: seq<Origin>)
    requires multiset(a) == multiset(b) && Unambiguous(a)
    ensures Active(a) == Active(b)
  {
    ActiveNamed(a);
    ActiveNamed(b);
    assert forall o :: o in a <==> o in multiset(a);
    assert forall o :: o in b <==> o in multiset(b);
    assert Active(a).Keys == Active(b).Keys;
    forall h | h in Active(a) ensures Active(a)[h] == Active(b)[h] {}
  }

  lemma {:induction false} ActivePicksIgnoreSnapshot(x: Inputs, y: Inputs, active: map<string, Origin>,
      hosts: seq<string>)
    requires y == x.(snapshot := y.snapshot) && forall h :: h in hosts ==> h in active
    ensures ActivePicks(x, active, hosts) == ActivePicks(y, active, hosts)
    ensures ActiveDnsPicks(x, hosts) == ActiveDnsPicks(y, hosts)
  {
    if hosts != [] {
      var h := hosts[|hosts| - 1];
      ActivePicksIgnoreSnapshot(x, y, active, hosts[..|hosts| - 1]);
      VerdictsIgnoreSnapshot(x, y, h, active[h]);
    }
  }

  lemma VerdictsIgnoreSnapshot(x: Inputs, y: Inputs, h: string, o: Origin)
    requires y == x.(snapshot := y.snapshot)
    ensures ActiveIngress(x, h, o) == ActiveIngress(y, h, o) && ActiveDns(x, h) == ActiveDns(y, h)
  {
  }

  lemma {:induction false} MissingPicksIgnoreSnapshot(x: Inputs, y: Inputs, active: map<string, Origin>,
      roots: seq<Rule>)
    requires y == x.(snapshot := y.snapshot)
    ensures MissingPicks(x, active, roots) == MissingPicks(y, active, roots)
  {
    if roots != [] { MissingPicksIgnoreSnapshot(x, y, active, roots[..|roots| - 1]); }
  }

  lemma {:induction false} MissingDnsIgnoresSnapshot(x: Inputs, y: Inputs, active: map<string, Origin>,
      records: seq<Record>)
    requires y == x.(snapshot := y.snapshot)
    ensures MissingDnsPicks(x, active, records) == MissingDnsPicks(y, active, records)
    ensures DegradedDns(x, records) == DegradedDns(y, records)
  {
    if records != [] { MissingDnsIgnoresSnapshot(x, y, active, records[..|records| - 1]); }
  }

  /** Reordering the discovered origins changes nothing in the plan: no rule, record, tombstone or count. */
  lemma PlanIgnoresOriginOrder(x: Inputs, origins: seq<Origin>)
    requires multiset(x.snapshot.origins) == multiset(origins) && Unambiguous(x.snapshot.origins)
    ensures PlanOf(x.(snapshot := x.snapshot.(origins := origins))) == PlanOf(x)
  {
    var y := x.(snapshot := x.snapshot.(origins := origins));
    var active := Active(x.snapshot.origins);
    ActiveIgnoresOrder(x.snapshot.origins, origins);
    SortedOrder(active.Keys);
    ActivePicksIgnoreSnapshot(x, y, active, Sorted(active.Keys));
    MissingPicksIgnoreSnapshot(x, y, active, RootOrder(x.remote.rules));
    MissingDnsIgnoresSnapshot(x, y, active, x.remote.records);
    assert IngressPicks(x) == IngressPicks(y);
    assert DnsPicks(x) == DnsPicks(y);
    assert |x.snapshot.origins| == |multiset(x.snapshot.origins)| == |multiset(origins)| == |origins|;
  }
}
