/** What a plan contains, host by host and record by record. */
module PlanFacts {
  import opened Text
  import opened Models
  import opened Ingress
  import opened MergeFacts
  import opened Planner
  import PlannerLoops

  ghost predicate IsActive(x: Inputs, h: string) {
    h in Active(x.snapshot.origins)
  }

  // ---------------------------------------------------------------- ingress picks

  lemma {:induction false} RootOrderExactly(rules: seq<Rule>)
    ensures forall r :: r in RootOrder(rules) <==> IsRoot(r) && FirstRoot(rules, Host(r)) == Some(r)
    ensures forall i, j :: 0 <= i < j < |RootOrder(rules)| ==> Host(RootOrder(rules)[i]) != Host(RootOrder(rules)[j])
  {
    if rules != [] {
      var o, init := rules[|rules| - 1], rules[..|rules| - 1];
      RootOrderExactly(init);
      assert rules == init + [o];
      forall h { PlannerLoops.FirstRootSnoc(init, o, h); }
      forall r | r in RootOrder(rules) ensures IsRoot(r) && FirstRoot(rules, Host(r)) == Some(r) {
        if r in RootOrder(init) {}
      }
    }
  }

  /** The pick for a host: by the first loop if it is active, by the second if it only has a root. */
  function PickFor(x: Inputs, h: string): Option<IngressPick> {
    var active := Active(x.snapshot.origins);
    if h in active then Some(ActiveIngress(x, h, active[h]))
    else
      match FirstRoot(x.remote.rules, h)
      case Some(r) => Some(MissingIngress(x, r))
      case None => None
  }

  lemma PickHost(x: Inputs, h: string)
    ensures PickFor(x, h).Some? ==> PickFor(x, h).value.host == h
    ensures FirstRoot(x.remote.rules, h).Some? ==>
            var r := FirstRoot(x.remote.rules, h).value; IsRoot(r) && Host(r) == h
  {
    FirstRootIsRoot(x.remote.rules, h);
  }

  lemma {:induction false} ActiveSide(x: Inputs, active: map<string, Origin>, hosts: seq<string>, p: IngressPick)
    requires forall h :: h in hosts ==> h in active
    ensures p in ActivePicks(x, active, hosts) <==> p.host in hosts && p == ActiveIngress(x, p.host, active[p.host])
  {
    if hosts != [] {
      var h, init := hosts[|hosts| - 1], hosts[..|hosts| - 1];
      ActiveSide(x, active, init, p);
      assert hosts == init + [h];
      assert ActiveIngress(x, h, active[h]).host == h;
    }
  }

  lemma OrderedRoot(rules: seq<Rule>, r: Rule)
    ensures r in RootOrder(rules) <==> IsRoot(r) && FirstRoot(rules, Host(r)) == Some(r)
  {
    RootOrderExactly(rules);
  }

  lemma {:induction false} RootOfPick(x: Inputs, active: map<string, Origin>, roots: seq<Rule>, p: IngressPick)
      returns (r: Rule)
    requires p in MissingPicks(x, active, roots)
    ensures r in roots && Host(r) !in active && p == MissingIngress(x, r)
  {
    var init := roots[..|roots| - 1];
    r := roots[|roots| - 1];
    if Host(r) in active || p != MissingIngress(x, r) {
      r := RootOfPick(x, active, init, p);
      assert r in roots;
    }
  }

  lemma {:induction false} PickOfRoot(x: Inputs, active: map<string, Origin>, roots: seq<Rule>, r: Rule)
    requires r in roots && Host(r) !in active
    ensures MissingIngress(x, r) in MissingPicks(x, active, roots)
  {
    var init, last := roots[..|roots| - 1], roots[|roots| - 1];
    if r != last {
      assert roots == init + [last];
      PickOfRoot(x, active, init, r);
    }
  }

  lemma PickHasHost(x: Inputs, r: Rule)
    ensures MissingIngress(x, r).host == Host(r)
  {
  }

  lemma MissingSide(x: Inputs, active: map<string, Origin>, p: IngressPick)
    ensures p in MissingPicks(x, active, RootOrder(x.remote.rules)) <==>
            var root := FirstRoot(x.remote.rules, p.host);
            p.host !in active && root.Some? && p == MissingIngress(x, root.value)
  {
    var roots, root := RootOrder(x.remote.rules), FirstRoot(x.remote.rules, p.host);
    FirstRootIsRoot(x.remote.rules, p.host);
    if p in MissingPicks(x, active, roots) {
      var r := RootOfPick(x, active, roots, p);
      PickHasHost(x, r);
      OrderedRoot(x.remote.rules, r);
    }
    if p.host !in active && root.Some? && p == MissingIngress(x, root.value) {
      OrderedRoot(x.remote.rules, root.value);
      PickOfRoot(x, active, roots, root.value);
    }
  }

  /** The ingress picks are exactly one per active host and one per absent host that has a root. */
  lemma IngressPicksExactly(x: Inputs, p: IngressPick)
    ensures p in IngressPicks(x) <==> PickFor(x, p.host) == Some(p)
  {
    var active := Active(x.snapshot.origins);
    SortedOrder(active.Keys);
    ActiveSide(x, active, Sorted(active.Keys), p);
    MissingSide(x, active, p);
    assert p in IngressPicks(x) <==>
      p in ActivePicks(x, active, Sorted(active.Keys)) || p in MissingPicks(x, active, RootOrder(x.remote.rules));
  }

  lemma EveryPickIsThere(x: Inputs, h: string)
    requires PickFor(x, h).Some?
    ensures PickFor(x, h).value in IngressPicks(x)
  {
    PickHost(x, h);
    IngressPicksExactly(x, PickFor(x, h).value);
  }

  // ---------------------------------------------------------------- desired routes

  lemma {:induction false} IndexMembers(desired: seq<Rule>)
    requires forall d :: d in desired ==> d.hostname.Some?
    ensures forall h :: h in Index(desired) ==> Index(desired)[h] in desired && Index(desired)[h].hostname == Some(h)
    ensures forall d :: d in desired ==> d.hostname.value in Index(desired)
  {
    if desired != [] {
      var init := desired[..|desired| - 1];
      IndexMembers(init);
      assert desired == init + [desired[|desired| - 1]];
    }
  }

  lemma {:induction false} RulesOfMembers(picks: seq<IngressPick>)
    ensures forall r :: r in RulesOf(picks) <==> exists p :: p in picks && p.rule == Some(r)
  {
    if picks != [] {
      var p, init := picks[|picks| - 1], picks[..|picks| - 1];
      RulesOfMembers(init);
      assert picks == init + [p];
    }
  }

  /** The route wanted for a host, if any. */
  ghost function Wanted(x: Inputs, h: string): Option<Rule> {
    if PickFor(x, h).Some? then PickFor(x, h).value.rule else None
  }

  lemma WantedIsRoot(x: Inputs, h: string)
    ensures Wanted(x, h).Some? ==> IsRoot(Wanted(x, h).value) && Host(Wanted(x, h).value) == h
  {
    PickHost(x, h);
    ActiveNamed(x.snapshot.origins);
  }

  lemma DesiredExactly(x: Inputs, h: string)
    ensures h in Desired(x) <==> Wanted(x, h).Some?
    ensures h in Desired(x) ==> Wanted(x, h) == Some(Desired(x)[h])
  {
    var picks := IngressPicks(x);
    RulesNamed(x);
    RulesOfMembers(picks);
    IndexMembers(RulesOf(picks));
    if h in Desired(x) {
      var r := Desired(x)[h];
      var p :| p in picks && p.rule == Some(r);
      IngressPicksExactly(x, p);
      WantedIsRoot(x, p.host);
    }
    if Wanted(x, h).Some? {
      EveryPickIsThere(x, h);
      WantedIsRoot(x, h);
      assert Wanted(x, h).value in RulesOf(picks);
    }
  }

  lemma DesiredRoots(x: Inputs)
    ensures Roots(Desired(x))
  {
    forall h | h in Desired(x) ensures IsRoot(Desired(x)[h]) && Host(Desired(x)[h]) == h {
      DesiredExactly(x, h);
      WantedIsRoot(x, h);
    }
  }

  // ---------------------------------------------------------------- DNS picks

  lemma {:induction false} ActiveDnsPicksAre(x: Inputs, hosts: seq<string>)
    ensures forall p :: p in ActiveDnsPicks(x, hosts) <==>
            p.host in hosts && p == DnsPick(p.host, ActiveDns(x, p.host), Unmarked)
  {
    if hosts != [] {
      var init := hosts[..|hosts| - 1];
      ActiveDnsPicksAre(x, init);
      assert hosts == init + [hosts[|hosts| - 1]];
    }
  }

  lemma {:induction false} MissingDnsPicksAre(x: Inputs, active: map<string, Origin>, records: seq<Record>)
    ensures forall p :: p in MissingDnsPicks(x, active, records) <==>
              exists r :: r in records && Absent(x, active, r) && p == MissingDns(x, r)
  {
    if records != [] {
      var r, init := records[|records| - 1], records[..|records| - 1];
      MissingDnsPicksAre(x, active, init);
      assert records == init + [r];
    }
  }

  /** The record behind an absent DNS pick. */
  ghost predicate FromRecord(x: Inputs, p: DnsPick, r: Record) {
    r in x.remote.records && Absent(x, Active(x.snapshot.origins), r) && p == MissingDns(x, r)
  }

  lemma DnsPicksExactly(x: Inputs, p: DnsPick)
    ensures p in DnsPicks(x) <==>
            || (IsActive(x, p.host) && p == DnsPick(p.host, ActiveDns(x, p.host), Unmarked))
            || (exists r :: FromRecord(x, p, r))
  {
    var active := Active(x.snapshot.origins);
    SortedOrder(active.Keys);
    ActiveDnsPicksAre(x, Sorted(active.Keys));
    MissingDnsPicksAre(x, active, x.remote.records);
    if exists r :: r in x.remote.records && Absent(x, active, r) && p == MissingDns(x, r) {
      var r :| r in x.remote.records && Absent(x, active, r) && p == MissingDns(x, r);
      assert FromRecord(x, p, r);
    }
  }

  // ---------------------------------------------------------------- from picks to changes and marks

  lemma {:induction false} IngressChangeHasPick(picks: seq<IngressPick>, c: IngressChange)
    ensures c in IngressChanges(picks) <==> exists p :: p in picks && p.change == c
  {
    if picks != [] {
      var init := picks[..|picks| - 1];
      IngressChangeHasPick(init, c);
      assert picks == init + [picks[|picks| - 1]];
    }
  }

  lemma {:induction false} DnsChangeHasPick(picks: seq<DnsPick>, c: DnsChange)
    ensures c in DnsChanges(picks) <==> exists p :: p in picks && p.change == c
  {
    if picks != [] {
      var init := picks[..|picks| - 1];
      DnsChangeHasPick(init, c);
      assert picks == init + [picks[|picks| - 1]];
    }
  }

  lemma {:induction false} IngressMarkHasPick(picks: seq<IngressPick>, m: Mark, h: string)
    ensures h in IngressMarked(picks, m) <==> exists p :: p in picks && p.mark == m && p.host == h
  {
    if picks != [] {
      var init := picks[..|picks| - 1];
      IngressMarkHasPick(init, m, h);
      assert picks == init + [picks[|picks| - 1]];
    }
  }

  lemma {:induction false} DnsMarkHasPick(picks: seq<DnsPick>, m: Mark, h: string)
    ensures h in DnsMarked(picks, m) <==> exists p :: p in picks && p.mark == m && p.host == h
  {
    if picks != [] {
      var init := picks[..|picks| - 1];
      DnsMarkHasPick(init, m, h);
      assert picks == init + [picks[|picks| - 1]];
    }
  }

  // ---------------------------------------------------------------- tombstones a plan touches

  ghost predicate LingeringRecord(x: Inputs, h: string, r: Record) {
    r in x.remote.records && r.name == h && h != "" && Relevant(x, r) && Managed(x, r)
  }

  /** A host without a container that still has something of ours: an owned root or a managed record. */
  ghost predicate Lingers(x: Inputs, h: string) {
    && !IsActive(x, h)
    && (|| (FirstRoot(x.remote.rules, h).Some? && OwnsHost(x, h))
        || (exists r :: LingeringRecord(x, h, r)))
  }

  lemma MarkOfPick(x: Inputs, h: string, m: Mark)
    requires m != Unmarked
    ensures h in IngressMarked(IngressPicks(x), m) <==> PickFor(x, h).Some? && PickFor(x, h).value.mark == m
  {
    IngressMarkHasPick(IngressPicks(x), m, h);
    PickHost(x, h);
    if h in IngressMarked(IngressPicks(x), m) {
      var p :| p in IngressPicks(x) && p.mark == m && p.host == h;
      IngressPicksExactly(x, p);
    }
    if PickFor(x, h).Some? { EveryPickIsThere(x, h); }
  }

  lemma MarkOfHost(x: Inputs, h: string, m: Mark)
    requires m != Unmarked
    ensures PickFor(x, h).Some? && PickFor(x, h).value.mark == m <==>
            if IsActive(x, h) then ClearIfBuried(x, h) == m
            else FirstRoot(x.remote.rules, h).Some? && OwnsHost(x, h) && MarkOf(x, h) == m
  {
    PickHost(x, h);
  }

  lemma MarkOfActive(x: Inputs, p: DnsPick, m: Mark)
    requires p in DnsPicks(x) && p.mark == m && m != Unmarked
    ensures exists r :: FromRecord(x, p, r)
  {
    DnsPicksExactly(x, p);
  }

  lemma MissingMark(x: Inputs, r: Record)
    ensures MissingDns(x, r).host == r.name && MissingDns(x, r).mark == if Managed(x, r) then MarkOf(x, r.name)
            else Unmarked
  {
  }

  lemma MarkFromRecord(x: Inputs, h: string, m: Mark) returns (r: Record)
    requires m != Unmarked && h in DnsMarked(DnsPicks(x), m)
    ensures !IsActive(x, h) && MarkOf(x, h) == m && LingeringRecord(x, h, r)
  {
    DnsMarkHasPick(DnsPicks(x), m, h);
    var p :| p in DnsPicks(x) && p.mark == m && p.host == h;
    MarkOfActive(x, p, m);
    r :| FromRecord(x, p, r);
    MissingMark(x, r);
  }

  lemma RecordIsMarked(x: Inputs, h: string, m: Mark, r: Record)
    requires m != Unmarked && !IsActive(x, h) && MarkOf(x, h) == m && LingeringRecord(x, h, r)
    ensures h in DnsMarked(DnsPicks(x), m)
  {
    var p := MissingDns(x, r);
    MissingMark(x, r);
    assert FromRecord(x, p, r);
    DnsPicksExactly(x, p);
    DnsMarkHasPick(DnsPicks(x), m, h);
  }

  lemma MarkOfRecords(x: Inputs, h: string, m: Mark)
    requires m != Unmarked
    ensures h in DnsMarked(DnsPicks(x), m) <==>
            !IsActive(x, h) && MarkOf(x, h) == m && exists r :: LingeringRecord(x, h, r)
  {
    if h in DnsMarked(DnsPicks(x), m) { var r := MarkFromRecord(x, h, m); }
    if r :| !IsActive(x, h) && MarkOf(x, h) == m && LingeringRecord(x, h, r) { RecordIsMarked(x, h, m, r); }
  }

  lemma MarksOfHost(x: Inputs, h: string, m: Mark)
    requires m != Unmarked
    ensures h in IngressMarked(IngressPicks(x), m) + DnsMarked(DnsPicks(x), m) <==>
            || (Lingers(x, h) && MarkOf(x, h) == m)
            || (IsActive(x, h) && ClearIfBuried(x, h) == m)
  {
    MarkOfPick(x, h, m);
    MarkOfHost(x, h, m);
    MarkOfRecords(x, h, m);
  }

  /** Exactly which tombstones a plan sets: lingering hosts seen absent for the first time. */
  lemma SetExactly(x: Inputs, h: string)
    ensures h in ToSet(x) <==> Lingers(x, h) && FateOf(x, h) == Begin
    ensures h in ToSet(x) ==> h !in x.tombstones
  {
    MarksOfHost(x, h, SetMark);
  }

  /** Exactly which tombstones a plan clears: buried hosts that came back or are being removed. */
  lemma ClearExactly(x: Inputs, h: string)
    ensures h in ToClear(x) <==> h in x.tombstones && (IsActive(x, h) || (Lingers(x, h) && FateOf(x, h) == Remove))
  {
    MarksOfHost(x, h, ClearMark);
  }

  // ---------------------------------------------------------------- what a plan deletes

  lemma IngressChangeOf(x: Inputs, c: IngressChange)
    ensures c in IngressChanges(IngressPicks(x)) ==>
            PickFor(x, c.hostname).Some? && PickFor(x, c.hostname).value.change == c
    ensures PickFor(x, c.hostname).Some? && PickFor(x, c.hostname).value.change == c ==>
            c in IngressChanges(IngressPicks(x))
  {
    IngressChangeHasPick(IngressPicks(x), c);
    if c in IngressChanges(IngressPicks(x)) {
      var p :| p in IngressPicks(x) && p.change == c;
      IngressPicksExactly(x, p);
      PickNamesHost(x, p.host);
    }
    if PickFor(x, c.hostname).Some? { EveryPickIsThere(x, c.hostname); }
  }

  lemma PickNamesHost(x: Inputs, h: string)
    ensures PickFor(x, h).Some? ==> PickFor(x, h).value.change.hostname == h
  {
    PickHost(x, h);
  }

  /** A root is deleted exactly when its host is absent, its last record is ours, and its time is up. */
  lemma IngressDeleteExactly(x: Inputs, h: string)
    requires x.snapshot.dockerOk
    ensures (exists c :: c in PlanOf(x).ingress && c.action == IDelete && c.hostname == h) <==>
            !IsActive(x, h) && FirstRoot(x.remote.rules, h).Some? && OwnsHost(x, h) && FateOf(x, h) == Remove
  {
    PickHost(x, h);
    PickNamesHost(x, h);
    if c :| c in PlanOf(x).ingress && c.action == IDelete && c.hostname == h {
      IngressChangeOf(x, c);
    }
    if !IsActive(x, h) && FirstRoot(x.remote.rules, h).Some? && OwnsHost(x, h) && FateOf(x, h) == Remove {
      var c := PickFor(x, h).value.change;
      IngressChangeOf(x, c);
      assert c in PlanOf(x).ingress && c.action == IDelete && c.hostname == h;
    }
  }

  lemma MissingDnsIs(x: Inputs, r: Record)
    ensures var p := MissingDns(x, r);
            && p.host == r.name && p.change.hostname == r.name && p.change.recordId == Some(r.id)
            && p.change.action != DCreate && p.change.action != DUpdate
            && (p.change.action == DDelete <==> Managed(x, r) && FateOf(x, r.name) == Remove)
  {
  }

  lemma ActiveDnsIs(x: Inputs, h: string)
    ensures ActiveDns(x, h).hostname == h && ActiveDns(x, h).action != DDelete
  {
  }

  /** A DNS deletion in a plan comes from a managed record of an absent host whose time is up. */
  lemma DnsDeleteHasRecord(x: Inputs, c: DnsChange) returns (r: Record)
    requires x.snapshot.dockerOk && c in PlanOf(x).dns && c.action == DDelete
    ensures FromRecord(x, MissingDns(x, r), r) && c == MissingDns(x, r).change
    ensures c.recordId == Some(r.id) && c.hostname == r.name && Managed(x, r) && FateOf(x, r.name) == Remove
  {
    DnsChangeHasPick(DnsPicks(x), c);
    var p :| p in DnsPicks(x) && p.change == c;
    DnsPicksExactly(x, p);
    ActiveDnsIs(x, p.host);
    r :| FromRecord(x, p, r);
    MissingDnsIs(x, r);
  }

  lemma DnsDeletePlanned(x: Inputs, r: Record)
    requires x.snapshot.dockerOk && FromRecord(x, MissingDns(x, r), r)
    requires Managed(x, r) && FateOf(x, r.name) == Remove
    ensures MissingDns(x, r).change in PlanOf(x).dns && MissingDns(x, r).change.action == DDelete
  {
    DnsPicksExactly(x, MissingDns(x, r));
    DnsChangeHasPick(DnsPicks(x), MissingDns(x, r).change);
    MissingDnsIs(x, r);
  }
}
