/**
 * The planner's decisions in terms of its inputs alone: rules, records, tombstones, clock and settings, with none of
 * the notions the other modules build on.
 */
module Verdicts {
  import opened Text
  import opened Models
  import opened Ingress
  import opened MergeFacts
  import opened Planner
  import opened PlanFacts
  import opened PlanTheorems
  import opened Executor
  import opened Effects
  import opened Aftermath
  import opened Convergence
  import opened Runs
  import opened Sync

  // ---------------------------------------------------------------- lookups

  /** The last record of a name is the one after which no other bears it. */
  lemma {:induction false} LastRecordExactly(records: seq<Record>, h: string, i: nat)
    requires i < |records| && h != ""
    requires records[i].name == h && forall j :: i < j < |records| ==> records[j].name != h
    ensures LastRecord(records, h) == Some(records[i])
  {
    if i < |records| - 1 { LastRecordExactly(records[..|records| - 1], h, i); }
  }

  lemma {:induction false} NoRecordExactly(records: seq<Record>, h: string)
    ensures LastRecord(records, h) == None <==> h == "" || forall r :: r in records ==> r.name != h
  {
    LastRecordIsThere(records, h);
  }

  /** The first root of a host is the one before which there is no other. */
  lemma {:induction false} FirstRootExactly(rules: seq<Rule>, h: string, i: nat)
    requires i < |rules| && h != ""
    requires rules[i].hostname == Some(h) && (rules[i].path == None || rules[i].path == Some(""))
    requires forall j :: 0 <= j < i && rules[j].hostname == Some(h) ==>
               rules[j].path.Some? && rules[j].path.value != ""
    ensures FirstRoot(rules, h) == Some(rules[i])
  {
    if i > 0 { FirstRootExactly(rules[1..], h, i - 1); }
  }

  lemma {:induction false} NoRootExactly(rules: seq<Rule>, h: string)
    ensures FirstRoot(rules, h) == None <==>
            h == "" || forall r :: r in rules && r.hostname == Some(h) ==> r.path.Some? && r.path.value != ""
  {
    if rules != [] { NoRootExactly(rules[1..], h); }
  }

  /** Of several origins for one host the last one counts. */
  lemma {:induction false} LastOriginCounts(origins: seq<Origin>, i: nat)
    requires i < |origins| && origins[i].hostname != ""
    requires forall j :: i < j < |origins| ==> origins[j].hostname != origins[i].hostname
    ensures origins[i].hostname in Active(origins) && Active(origins)[origins[i].hostname] == origins[i]
  {
    if i < |origins| - 1 { LastOriginCounts(origins[..|origins| - 1], i); }
  }

  // ---------------------------------------------------------------- records, spelled out

  ghost predicate PointsHere(x: Inputs, r: Record) {
    (r.rtype == None || r.rtype == Some("CNAME")) && r.content == Some(x.remote.target)
  }

  /** The comment as the controller reads it, stripped; none reads as empty. */
  ghost predicate Says(r: Record, text: string) {
    (r.comment.NoComment? && text == "") || (r.comment.Written? && Strip(r.comment.text) == text)
  }

  /** It points here and bears this tunnel's tag. */
  ghost predicate Ours(x: Inputs, r: Record) {
    PointsHere(x, r) && Says(r, x.cfg.tagPrefix + x.remote.tunnelName)
  }

  /** It points here and bears no tag at all. */
  ghost predicate Nobodys(x: Inputs, r: Record) {
    PointsHere(x, r) && exists text :: Says(r, text) && !(x.cfg.tagPrefix <= text)
  }

  /** Time to remove what belongs to an absent host. */
  ghost predicate TimeIsUp(x: Inputs, h: string) {
    || x.cfg.immediate
    || x.cfg.grace <= 0.0
    || (h in x.tombstones && x.now - x.tombstones[h] >= x.cfg.grace)
  }

  lemma OursExactly(x: Inputs, r: Record, active: bool)
    ensures StatusOf(x, r, active) == Owned <==> Ours(x, r)
    ensures StatusOf(x, r, true) == Adopted <==> Nobodys(x, r)
  {
    StatusExactly(Tagger(x), r, x.remote.target, active);
    StatusExactly(Tagger(x), r, x.remote.target, true);
    assert Says(r, CommentText(r)) || r.comment.NotText?;
    assert forall text :: Says(r, text) ==> text == CommentText(r);
  }

  lemma TimeIsUpExactly(x: Inputs, h: string)
    ensures FateOf(x, h) == Planner.Remove <==> TimeIsUp(x, h)
    ensures FateOf(x, h) == Begin <==> !TimeIsUp(x, h) && h !in x.tombstones
  {
  }

  // ---------------------------------------------------------------- routes of active hosts

  /** With the flag on: a root and a last record exist, and the record is not both pointing here and tagged as ours. */
  ghost predicate ManualRoot(x: Inputs, h: string) {
    && x.cfg.preserveManualRoots
    && FirstRoot(x.remote.rules, h).Some? && LastRecord(x.remote.records, h).Some?
    && !Ours(x, LastRecord(x.remote.records, h).value)
  }

  lemma ManualRootExactly(x: Inputs, h: string)
    ensures KeepsManualRoot(x, h) <==> ManualRoot(x, h)
  {
    if LastRecord(x.remote.records, h).Some? { OursExactly(x, LastRecord(x.remote.records, h).value, false); }
  }

  /** The origin request a container asks for; none is an empty one. */
  ghost function AskedFor(o: Origin): OriginRequest {
    match o.originRequest case None => map[] case Some(q) => q
  }

  /**
   * Every active host is routed, before any catch-all: to what its container asks for, unless its root is a manual one
   * under the preserving flag, which keeps service and request.
   */
  lemma ActiveHostIsRouted(x: Inputs, h: string)
    requires x.snapshot.dockerOk && IsActive(x, h)
    ensures var o, was := Active(x.snapshot.origins)[h], FirstRoot(x.remote.rules, h);
            var root := FirstRoot(PlanOf(x).finalRules, h);
            && root.Some? && FirstRoot(BeforeFallback(PlanOf(x).finalRules), h) == root
            && root.value.hostname == Some(h) && !HasPath(root.value)
            && (if ManualRoot(x, h)
                then && root.value.service == Some(if was.value.service.Some? then was.value.service.value else "")
                     && RequestOf(root.value) == RequestOf(was.value)
                else root.value.service == Some(o.service) && RequestOf(root.value) == AskedFor(o))
  {
    ManualRootExactly(x, h);
    ActiveRootAfter(x, h);
    RequestOfKey(FirstRoot(PlanOf(x).finalRules, h).value, GivenRequest(x, h));
    FirstRootIsRoot(PlanOf(x).finalRules, h);
    ActiveNamed(x.snapshot.origins);
    RootHasHost(FirstRoot(PlanOf(x).finalRules, h).value, h);
  }

  lemma RootHasHost(root: Rule, h: string)
    requires IsRoot(root) && Host(root) == h
    ensures root.hostname == Some(h) && !HasPath(root)
  {
  }

  /** The unknown fields of a reachable root survive whatever happens to its service. */
  lemma UnknownFieldsSurvive(x: Inputs, h: string)
    requires x.snapshot.dockerOk && IsActive(x, h)
    ensures var was, root := FirstRoot(BeforeFallback(x.remote.rules), h), FirstRoot(PlanOf(x).finalRules, h);
            root.Some? && root.value.extra == if was.Some? then was.value.extra else map[]
  {
    DesiredRoots(x);
    DesiredExactly(x, h);
    WantedOfActive(x, h);
    MergedRootExactly(x.remote.rules, Desired(x), h);
  }

  /** By default, and for any host with no record or one of ours, the container decides. */
  lemma ContainerDecides(x: Inputs, h: string)
    requires x.snapshot.dockerOk && IsActive(x, h)
    requires !x.cfg.preserveManualRoots || LastRecord(x.remote.records, h).None?
             || Ours(x, LastRecord(x.remote.records, h).value)
    ensures var root := FirstRoot(PlanOf(x).finalRules, h);
            && root.Some? && root.value.service == Some(Active(x.snapshot.origins)[h].service)
            && RequestOf(root.value) == AskedFor(Active(x.snapshot.origins)[h])
  {
    ActiveHostIsRouted(x, h);
  }

  /** What the plan calls this: a creation without a root, an update if what was there differs, nothing otherwise. */
  lemma ActiveRouteIsAnnounced(x: Inputs, h: string, c: IngressChange)
    requires x.snapshot.dockerOk && IsActive(x, h) && c.hostname == h
    requires c in PlanOf(x).ingress
    ensures var o, was := Active(x.snapshot.origins)[h], FirstRoot(x.remote.rules, h);
            && (c.action == ICreate <==> was.None?)
            && (c.action == IUpdate <==>
                  && was.Some? && !ManualRoot(x, h)
                  && (was.value.service != Some(o.service) || RequestOf(was.value) != AskedFor(o)))
            && c.action != IDelete
  {
    ManualRootExactly(x, h);
    IngressChangeOf(x, c);
    RequestKeyRoundTrip(h, Active(x.snapshot.origins)[h].service, AskedFor(Active(x.snapshot.origins)[h]));
  }

  /** There is exactly such an announcement for every active host. */
  lemma ActiveHostIsAnnounced(x: Inputs, h: string) returns (c: IngressChange)
    requires x.snapshot.dockerOk && IsActive(x, h)
    ensures c in PlanOf(x).ingress && c.hostname == h
  {
    EveryPickIsThere(x, h);
    PickNamesHost(x, h);
    c := PickFor(x, h).value.change;
    IngressChangeOf(x, c);
  }

  // ---------------------------------------------------------------- records of active hosts

  lemma PickOfChange(x: Inputs, d: DnsChange) returns (p: DnsPick)
    requires x.snapshot.dockerOk && d in PlanOf(x).dns
    ensures p in DnsPicks(x) && p.change == d
  {
    DnsChangeHasPick(DnsPicks(x), d);
    p :| p in DnsPicks(x) && p.change == d;
  }

  lemma ActivePickIsVerdict(x: Inputs, p: DnsPick, h: string)
    requires p in DnsPicks(x) && p.change.hostname == h && IsActive(x, h)
    ensures p.change == ActiveDns(x, h)
  {
    DnsPicksExactly(x, p);
    ActiveDnsIs(x, p.host);
    if r :| FromRecord(x, p, r) { MissingDnsIs(x, r); }
  }

  lemma ActiveChangeIs(x: Inputs, h: string, d: DnsChange)
    requires x.snapshot.dockerOk && IsActive(x, h) && d in PlanOf(x).dns && d.hostname == h
    ensures d == ActiveDns(x, h)
  {
    var p := PickOfChange(x, d);
    ActivePickIsVerdict(x, p, h);
  }

  lemma ActiveDnsExactly(x: Inputs, h: string)
    ensures var d, last := ActiveDns(x, h), LastRecord(x.remote.records, h);
            && (d.action == DCreate <==> last.None?)
            && (d.action == DNoop <==> last.Some? && Ours(x, last.value) && last.value.proxied == Some(true))
            && (d.action == DUpdate <==>
                  && last.Some?
                  && (|| (Ours(x, last.value) && last.value.proxied != Some(true))
                      || (Nobodys(x, last.value) && !Ours(x, last.value) && x.cfg.policy != StrictTaggedOnly)))
            && d.action != DDelete
            && (last.Some? ==> d.recordId == Some(last.value.id))
  {
    var last := LastRecord(x.remote.records, h);
    if last.Some? { OursExactly(x, last.value, true); }
  }

  /** The one verdict on an active host's record. */
  lemma ActiveRecordVerdict(x: Inputs, h: string, d: DnsChange)
    requires x.snapshot.dockerOk && IsActive(x, h) && d in PlanOf(x).dns && d.hostname == h
    ensures var last := LastRecord(x.remote.records, h);
            && (d.action == DCreate <==> last.None?)
            && (d.action == DNoop <==> last.Some? && Ours(x, last.value) && last.value.proxied == Some(true))
            && (d.action == DUpdate <==>
                  && last.Some?
                  && (|| (Ours(x, last.value) && last.value.proxied != Some(true))
                      || (Nobodys(x, last.value) && !Ours(x, last.value) && x.cfg.policy != StrictTaggedOnly)))
            && d.action != DDelete
            && (last.Some? ==> d.recordId == Some(last.value.id))
  {
    ActiveChangeIs(x, h, d);
    ActiveDnsExactly(x, h);
  }

  /** There is one for every active host. */
  lemma ActiveHostHasVerdict(x: Inputs, h: string)
    requires x.snapshot.dockerOk && IsActive(x, h)
    ensures exists d :: d in PlanOf(x).dns && d.hostname == h
  {
    var p := DnsPick(h, ActiveDns(x, h), Unmarked);
    DnsPicksExactly(x, p);
    DnsChangeHasPick(DnsPicks(x), p.change);
    ActiveDnsIs(x, h);
    assert p.change in PlanOf(x).dns && p.change.hostname == h;
  }

  lemma WrittenExactly(x: Inputs, h: string)
    ensures var d := ActiveDns(x, h);
            d.action == DCreate || d.action == DUpdate ==>
              && d.targetContent == Some(x.remote.target) && d.proxied && d.ttl == 1
              && d.targetComment == Some(x.cfg.tagPrefix + x.remote.tunnelName)
  {
  }

  /** What is written for an active host: our tag, our target, proxied. */
  lemma ActiveRecordIsWritten(x: Inputs, h: string, d: DnsChange)
    requires x.snapshot.dockerOk && IsActive(x, h) && d in PlanOf(x).dns && d.hostname == h
    requires d.action == DCreate || d.action == DUpdate
    ensures d.targetContent == Some(x.remote.target) && d.proxied && d.ttl == 1
    ensures d.targetComment == Some(x.cfg.tagPrefix + x.remote.tunnelName)
  {
    ActiveChangeIs(x, h, d);
    WrittenExactly(x, h);
  }

  // ---------------------------------------------------------------- absent hosts

  /**
   * Managed, spelled out: ours; or, under the legacy policy, of a host with a root, a tombstone, or at once if it
   * points here.
   */
  ghost predicate InOurCare(x: Inputs, r: Record) {
    || Ours(x, r)
    || (&& x.cfg.policy == LegacyUnrestricted
        && (|| FirstRoot(x.remote.rules, r.name).Some?
            || r.name in x.tombstones
            || (x.cfg.immediate && r.content == Some(x.remote.target))))
  }

  /** An absent host's record the planner looks at: an alias, or anything bearing the tag prefix. */
  ghost predicate Considered(x: Inputs, r: Record) {
    && r.name != "" && !IsActive(x, r.name)
    && (|| r.rtype == None || r.rtype == Some("CNAME")
        || (exists text :: Says(r, text) && x.cfg.tagPrefix <= text)
        || (r.comment.NotText? && x.cfg.tagPrefix == ""))
  }

  lemma ConsideredExactly(x: Inputs, r: Record)
    ensures Absent(x, Active(x.snapshot.origins), r) <==> Considered(x, r)
  {
    assert Says(r, CommentText(r)) || r.comment.NotText?;
    assert forall text :: Says(r, text) ==> text == CommentText(r);
    assert r.comment.NotText? ==> CommentText(r) == "";
  }

  lemma InOurCareExactly(x: Inputs, r: Record)
    ensures Managed(x, r) <==> InOurCare(x, r)
  {
    OursExactly(x, r, false);
  }

  /** A plan deletes a record exactly if its host is absent, it is in our care, and its time is up. */
  lemma RecordIsDeletedExactly(x: Inputs, r: Record)
    requires x.snapshot.dockerOk && DistinctIds(x.remote.records) && r in x.remote.records
    ensures (exists d :: d in PlanOf(x).dns && d.action == DDelete && d.recordId == Some(r.id)) <==>
            Considered(x, r) && InOurCare(x, r) && TimeIsUp(x, r.name)
  {
    ConsideredExactly(x, r);
    InOurCareExactly(x, r);
    TimeIsUpExactly(x, r.name);
    if d :| d in PlanOf(x).dns && d.action == DDelete && d.recordId == Some(r.id) {
      var q := DnsDeleteHasRecord(x, d);
      assert q == r;
    }
    if Considered(x, r) && InOurCare(x, r) && TimeIsUp(x, r.name) {
      assert FromRecord(x, MissingDns(x, r), r);
      DnsDeletePlanned(x, r);
      MissingDnsIs(x, r);
    }
  }

  /** A plan deletes the root of a host exactly if the host is absent, its last record is ours, and its time is up. */
  lemma RootIsDeletedExactly(x: Inputs, h: string)
    requires x.snapshot.dockerOk
    ensures (exists c :: c in PlanOf(x).ingress && c.action == IDelete && c.hostname == h) <==>
            && !IsActive(x, h) && FirstRoot(x.remote.rules, h).Some?
            && LastRecord(x.remote.records, h).Some? && Ours(x, LastRecord(x.remote.records, h).value)
            && TimeIsUp(x, h)
  {
    IngressDeleteExactly(x, h);
    TimeIsUpExactly(x, h);
    if LastRecord(x.remote.records, h).Some? { OursExactly(x, LastRecord(x.remote.records, h).value, false); }
  }

  /** The root of an absent host the plan does not delete stays as it is. */
  lemma RootIsKeptExactly(x: Inputs, h: string)
    requires x.snapshot.dockerOk && !IsActive(x, h)
    ensures FirstRoot(PlanOf(x).finalRules, h) ==
            if LastRecord(x.remote.records, h).Some? && Ours(x, LastRecord(x.remote.records, h).value) && TimeIsUp(x, h)
            then FirstRoot(Kept(x.remote.rules, {}), h) else FirstRoot(x.remote.rules, h)
  {
    AbsentRootAfter(x, h);
    TimeIsUpExactly(x, h);
    if LastRecord(x.remote.records, h).Some? { OursExactly(x, LastRecord(x.remote.records, h).value, false); }
  }

  // ---------------------------------------------------------------- tombstones

  /** Something of an absent host is in our care: its root by its last record, or one of its records. */
  ghost predicate LeftBehind(x: Inputs, h: string) {
    && !IsActive(x, h)
    && (|| (&& FirstRoot(x.remote.rules, h).Some? && LastRecord(x.remote.records, h).Some?
            && Ours(x, LastRecord(x.remote.records, h).value))
        || (exists r :: r in x.remote.records && r.name == h && Considered(x, r) && InOurCare(x, r)))
  }

  lemma LeftBehindExactly(x: Inputs, h: string)
    ensures Lingers(x, h) <==> LeftBehind(x, h)
  {
    if LastRecord(x.remote.records, h).Some? { OursExactly(x, LastRecord(x.remote.records, h).value, false); }
    if r :| LingeringRecord(x, h, r) {
      InOurCareExactly(x, r);
      ConsideredExactly(x, r);
    }
    if r :| !IsActive(x, h) && r in x.remote.records && r.name == h && Considered(x, r) && InOurCare(x, r) {
      InOurCareExactly(x, r);
      ConsideredExactly(x, r);
      assert LingeringRecord(x, h, r);
    }
  }

  /** A plan sets a tombstone, at the present time, exactly where something is left behind, unburied and not yet due. */
  lemma TombstoneIsSetExactly(x: Inputs, h: string)
    requires x.snapshot.dockerOk
    ensures h in PlanOf(x).toSet <==> LeftBehind(x, h) && !TimeIsUp(x, h) && h !in x.tombstones
    ensures h in PlanOf(x).toSet ==> PlanOf(x).toSet[h] == x.now
  {
    SetExactly(x, h);
    TimeIsUpExactly(x, h);
    LeftBehindExactly(x, h);
  }

  /** It clears one exactly where the host is back, or something left behind is due. */
  lemma TombstoneIsClearedExactly(x: Inputs, h: string)
    requires x.snapshot.dockerOk
    ensures h in PlanOf(x).toClear <==>
            h in x.tombstones && (IsActive(x, h) || (LeftBehind(x, h) && TimeIsUp(x, h)))
  {
    ClearExactly(x, h);
    SortedOrder(ToClear(x));
    TimeIsUpExactly(x, h);
    LeftBehindExactly(x, h);
  }

  // ---------------------------------------------------------------- order and numbers

  /** The identifiers of the absent hosts' records the planner looks at, in order. */
  ghost function ConsideredIds(x: Inputs, records: seq<Record>): seq<string> {
    if records == [] then []
    else
      var r, before := records[|records| - 1], ConsideredIds(x, records[..|records| - 1]);
      if Considered(x, r) then before + [r.id] else before
  }

  lemma {:induction false} AbsentPicksAt(x: Inputs, records: seq<Record>)
    ensures var picks, ids := MissingDnsPicks(x, Active(x.snapshot.origins), records), ConsideredIds(x, records);
            && |picks| == |ids|
            && forall i :: 0 <= i < |ids| ==>
                 picks[i].change.recordId == Some(ids[i]) && !IsActive(x, picks[i].change.hostname)
  {
    if records != [] {
      var r := records[|records| - 1];
      AbsentPicksAt(x, records[..|records| - 1]);
      ConsideredExactly(x, r);
      MissingDnsIs(x, r);
    }
  }

  lemma {:induction false} ChangesAt(picks: seq<DnsPick>)
    ensures |DnsChanges(picks)| == |picks|
    ensures forall i :: 0 <= i < |picks| ==> DnsChanges(picks)[i] == picks[i].change
  {
    if picks != [] { ChangesAt(picks[..|picks| - 1]); }
  }

  lemma {:induction false} ActivePicksAt(x: Inputs, hosts: seq<string>)
    ensures |ActiveDnsPicks(x, hosts)| == |hosts|
    ensures forall i :: 0 <= i < |hosts| ==> ActiveDnsPicks(x, hosts)[i].change == ActiveDns(x, hosts[i])
  {
    if hosts != [] { ActivePicksAt(x, hosts[..|hosts| - 1]); }
  }

  lemma JoinedAt(a: seq<DnsPick>, m: seq<DnsPick>)
    ensures |DnsChanges(a + m)| == |a| + |m|
    ensures forall i :: 0 <= i < |a| ==> DnsChanges(a + m)[i] == a[i].change
    ensures forall i :: 0 <= i < |m| ==> DnsChanges(a + m)[|a| + i] == m[i].change
  {
    ChangesAt(a + m);
  }

  /** The two parts of a list of DNS changes. */
  ghost predicate InTwoParts(dns: seq<DnsChange>, a: seq<DnsPick>, m: seq<DnsPick>) {
    && |dns| == |a| + |m|
    && (forall i :: 0 <= i < |a| ==> dns[i] == a[i].change)
    && (forall i :: 0 <= i < |m| ==> dns[|a| + i] == m[i].change)
  }

  lemma PlanInTwoParts(x: Inputs, dns: seq<DnsChange>, hosts: seq<string>)
    requires dns == DnsChanges(DnsPicks(x)) && hosts == Sorted(Active(x.snapshot.origins).Keys)
    ensures InTwoParts(dns, ActiveDnsPicks(x, hosts), MissingDnsPicks(x, Active(x.snapshot.origins), x.remote.records))
  {
    JoinedAt(ActiveDnsPicks(x, hosts), MissingDnsPicks(x, Active(x.snapshot.origins), x.remote.records));
  }

  lemma ActivePart(x: Inputs, dns: seq<DnsChange>, hosts: seq<string>, m: seq<DnsPick>)
    requires InTwoParts(dns, ActiveDnsPicks(x, hosts), m)
    ensures |dns| == |hosts| + |m| && forall i :: 0 <= i < |hosts| ==> dns[i].hostname == hosts[i]
  {
    ActivePicksAt(x, hosts);
    forall i | 0 <= i < |hosts| ensures dns[i].hostname == hosts[i] { ActiveDnsIs(x, hosts[i]); }
  }

  /** From place n on, one change for each record looked at, in order. */
  ghost predicate AbsentInOrder(x: Inputs, dns: seq<DnsChange>, n: nat, ids: seq<string>) {
    && |dns| == n + |ids|
    && forall i :: 0 <= i < |ids| ==> dns[n + i].recordId == Some(ids[i]) && !IsActive(x, dns[n + i].hostname)
  }

  /** Before place n, one change for each active host, by increasing name. */
  ghost predicate ActiveInOrder(x: Inputs, dns: seq<DnsChange>, n: nat) {
    && n == |Active(x.snapshot.origins)| <= |dns|
    && (forall i :: 0 <= i < n ==> IsActive(x, dns[i].hostname))
    && (forall i, j :: 0 <= i < j < n ==>
          dns[i].hostname != dns[j].hostname && AtMost(dns[i].hostname, dns[j].hostname))
  }

  lemma AbsentPart(x: Inputs, dns: seq<DnsChange>, a: seq<DnsPick>, m: seq<DnsPick>, records: seq<Record>,
                   ids: seq<string>)
    requires InTwoParts(dns, a, m)
    requires m == MissingDnsPicks(x, Active(x.snapshot.origins), records) && ids == ConsideredIds(x, records)
    ensures AbsentInOrder(x, dns, |a|, ids)
  {
    AbsentPicksAt(x, records);
    forall i | 0 <= i < |ids|
      ensures dns[|a| + i].recordId == Some(ids[i]) && !IsActive(x, dns[|a| + i].hostname)
    {
      assert dns[|a| + i] == m[i].change;
    }
  }

  lemma HostsInOrder(x: Inputs, dns: seq<DnsChange>, hosts: seq<string>)
    requires hosts == Sorted(Active(x.snapshot.origins).Keys) && |dns| >= |hosts|
    requires forall i :: 0 <= i < |hosts| ==> dns[i].hostname == hosts[i]
    ensures ActiveInOrder(x, dns, |hosts|)
  {
    SortedOrder(Active(x.snapshot.origins).Keys);
    forall i | 0 <= i < |hosts| ensures IsActive(x, dns[i].hostname) { assert hosts[i] in hosts; }
  }

  lemma PicksInOrder(x: Inputs, dns: seq<DnsChange>, hosts: seq<string>, ids: seq<string>)
    requires dns == DnsChanges(DnsPicks(x)) && ids == ConsideredIds(x, x.remote.records)
    requires hosts == Sorted(Active(x.snapshot.origins).Keys)
    ensures ActiveInOrder(x, dns, |hosts|) && AbsentInOrder(x, dns, |hosts|, ids)
  {
    var active := Active(x.snapshot.origins);
    var a, m := ActiveDnsPicks(x, hosts), MissingDnsPicks(x, active, x.remote.records);
    PlanInTwoParts(x, dns, hosts);
    ActivePart(x, dns, hosts, m);
    ActivePicksAt(x, hosts);
    AbsentPart(x, dns, a, m, x.remote.records, ids);
    HostsInOrder(x, dns, hosts);
  }

  /** First the active hosts' changes by increasing name, one each; then one for each record looked at, in order. */
  lemma DnsChangesInOrder(x: Inputs)
    requires x.snapshot.dockerOk
    ensures var n := |Active(x.snapshot.origins)|;
            ActiveInOrder(x, PlanOf(x).dns, n) && AbsentInOrder(x, PlanOf(x).dns, n, ConsideredIds(x, x.remote.records))
  {
    var dns := DnsChanges(DnsPicks(x));
    PicksInOrder(x, dns, Sorted(Active(x.snapshot.origins).Keys), ConsideredIds(x, x.remote.records));
    assert PlanOf(x).dns == dns;
  }

  /** The places in a list where p holds. */
  ghost function Places<T>(s: seq<T>, p: T -> bool): set<int> {
    set i | 0 <= i < |s| && p(s[i])
  }

  lemma PlacesSnoc<T>(s: seq<T>, t: T, p: T -> bool)
    ensures |Places(s + [t], p)| == |Places(s, p)| + if p(t) then 1 else 0
  {
    assert Places(s + [t], p) == if p(t) then Places(s, p) + {|s|} else Places(s, p);
  }

  ghost function Is(a: DnsAction): DnsChange -> bool {
    (c: DnsChange) => c.action == a
  }

  ghost function IsRoute(a: IngressAction): IngressChange -> bool {
    (c: IngressChange) => c.action == a
  }

  ghost function IsSkipped(): DnsChange -> bool {
    (c: DnsChange) => c.action == DProtect || c.status == Unmanaged || c.status == ForeignTunnel
  }

  lemma {:induction false} CountedExactly(changes: seq<DnsChange>, a: DnsAction)
    ensures CountDns(changes, a) == |Places(changes, Is(a))|
  {
    if changes != [] {
      var init, c := changes[..|changes| - 1], changes[|changes| - 1];
      CountedExactly(init, a);
      PlacesSnoc(init, c, Is(a));
      assert changes == init + [c];
    }
  }

  lemma {:induction false} SkippedExactly(changes: seq<DnsChange>)
    ensures CountSkipped(changes) == |Places(changes, IsSkipped())|
  {
    if changes != [] {
      var init, c := changes[..|changes| - 1], changes[|changes| - 1];
      SkippedExactly(init);
      PlacesSnoc(init, c, IsSkipped());
      assert changes == init + [c];
    }
  }

  lemma {:induction false} RoutesCountedExactly(changes: seq<IngressChange>, a: IngressAction)
    ensures CountIngress(changes, a) == |Places(changes, IsRoute(a))|
  {
    if changes != [] {
      var init, c := changes[..|changes| - 1], changes[|changes| - 1];
      RoutesCountedExactly(init, a);
      PlacesSnoc(init, c, IsRoute(a));
      assert changes == init + [c];
    }
  }

  /** Every number of the summary is the number of places in the plan it speaks of. */
  lemma SummaryExactly(x: Inputs, plan: Plan)
    requires x.snapshot.dockerOk && plan == PlanOf(x)
    ensures var s := plan.summary;
            && s.discovered == |x.snapshot.origins|
            && s.ingressCreates == |Places(plan.ingress, IsRoute(ICreate))|
            && s.ingressUpdates == |Places(plan.ingress, IsRoute(IUpdate))|
            && s.ingressDeletes == |Places(plan.ingress, IsRoute(IDelete))|
            && s.dnsCreates == |Places(plan.dns, Is(DCreate))|
            && s.dnsUpdates == |Places(plan.dns, Is(DUpdate))|
            && s.dnsDeletes == |Places(plan.dns, Is(DDelete))|
            && s.dnsProtected == |Places(plan.dns, Is(DProtect))|
            && s.unmanagedSkipped == |Places(plan.dns, IsSkipped())|
  {
    RoutesCountedExactly(plan.ingress, ICreate);
    RoutesCountedExactly(plan.ingress, IUpdate);
    RoutesCountedExactly(plan.ingress, IDelete);
    CountedExactly(plan.dns, DCreate);
    CountedExactly(plan.dns, DUpdate);
    CountedExactly(plan.dns, DDelete);
    CountedExactly(plan.dns, DProtect);
    SkippedExactly(plan.dns);
  }

  // ---------------------------------------------------------------- an untrusted inventory

  lemma {:induction false} DegradedRecords(x: Inputs, records: seq<Record>)
    ensures forall d :: d in DegradedDns(x, records) ==> d.action == DProtect
    ensures forall r :: r in records && r.name != "" ==>
              exists d :: d in DegradedDns(x, records) && d.hostname == r.name && d.recordId == Some(r.id)
  {
    if records != [] {
      var r, init := records[|records| - 1], records[..|records| - 1];
      DegradedRecords(x, init);
      assert records == init + [r];
      if r.name != "" {
        var d := DegradedDns(x, records)[|DegradedDns(x, init)|];
        assert d in DegradedDns(x, records) && d.hostname == r.name && d.recordId == Some(r.id);
      }
      forall q | q in init && q.name != ""
        ensures exists d :: d in DegradedDns(x, records) && d.hostname == q.name && d.recordId == Some(q.id)
      {
        var d :| d in DegradedDns(x, init) && d.hostname == q.name && d.recordId == Some(q.id);
        assert d in DegradedDns(x, records);
      }
    }
  }

  /** Without a trusted inventory the plan keeps the rules, protects every named record, and marks nothing. */
  lemma BlindPlanExactly(x: Inputs)
    requires !x.snapshot.dockerOk
    ensures var plan := PlanOf(x);
            && plan.finalRules == x.remote.rules && plan.toSet == map[] && plan.toClear == []
            && !plan.summary.HasMutations()
            && (forall d :: d in plan.dns ==> d.action == DProtect)
            && (forall r :: r in x.remote.records && r.name != "" ==>
                  exists d :: d in plan.dns && d.hostname == r.name && d.recordId == Some(r.id))
  {
    DegradedRecords(x, x.remote.records);
  }

  // ---------------------------------------------------------------- the sudden-drop guard

  /** Whether a cycle is guarded, and what that means, in numbers. */
  ghost predicate Due(m: Memory, c: Cycle, h: string) {
    var buried := h in m.tombstones;
    if m.discovered >= 2 && c.services == []
    then buried && c.now - m.tombstones[h] >= 300.0 && c.now - m.tombstones[h] >= c.settings.grace
    else || c.settings.immediate || c.settings.grace <= 0.0
         || (buried && c.now - m.tombstones[h] >= c.settings.grace)
  }

  /** What a cycle plans from: its settings and readings as they are, but for the guard. */
  lemma PlannedFrom(m: Memory, c: Cycle)
    ensures var x, s := InputsOf(m, c), c.settings;
            && x.snapshot == Snapshot(true, c.services) && x.remote == c.remote
            && x.tombstones == m.tombstones && x.now == c.now
            && x.cfg.policy == s.policy && x.cfg.preserveManualRoots == s.preserveManualRoots
            && x.cfg.dryRun == s.dryRun
            && x.cfg.tagPrefix == "cf-tunnel-sync:"
            && (if m.discovered >= 2 && c.services == []
                then !x.cfg.immediate && x.cfg.grace >= 300.0 && x.cfg.grace >= s.grace
                     && (x.cfg.grace == 300.0 || x.cfg.grace == s.grace)
                else x.cfg.immediate == s.immediate && x.cfg.grace == s.grace)
  {
  }

  lemma DueExactly(m: Memory, c: Cycle, h: string)
    ensures FateOf(InputsOf(m, c), h) == Planner.Remove <==> Due(m, c, h)
  {
  }

  /**
   * A cycle plans to delete something of a host exactly if something of it lingers and is due; and due, once two or
   * more services have become none, is only what was buried at least 300 s ago and at least the grace period ago.
   * One service becoming none is not guarded.
   */
  lemma CycleDeletesExactly(m: Memory, c: Cycle, h: string)
    ensures PlansDelete(InputsOf(m, c), h) <==> Lingers(InputsOf(m, c), h) && Due(m, c, h)
  {
    PlansDeleteExactly(InputsOf(m, c), h);
    DueExactly(m, c, h);
  }

  // ---------------------------------------------------------------- requests

  /** The request a DNS change stands for, field by field. */
  ghost predicate Asks(c: Call, d: DnsChange) {
    match c
    case PutIngress(_) => false
    case DeleteDns(id) => d.action == DDelete && d.recordId == Some(id)
    case PutDns(id, b) => d.action == DUpdate && d.recordId == Some(id) && Carries(b, d)
    case PostDns(b) => d.action == DCreate && Carries(b, d)
  }

  ghost predicate Carries(b: Body, d: DnsChange) {
    && b.name == d.hostname && b.content == d.targetContent && b.proxied == d.proxied && b.ttl == d.ttl
    && b.comment == (if d.targetComment == Some("") then None else d.targetComment)
  }

  lemma AsksExactly(c: Call, d: DnsChange)
    requires d.action == DUpdate || d.action == DDelete ==> d.recordId.Some?
    ensures Asks(c, d) <==> CallOf(d) == Some(c)
  {
  }

  lemma PickHasId(x: Inputs, p: DnsPick)
    requires p in DnsPicks(x)
    ensures p.change.action == DUpdate || p.change.action == DDelete ==> p.change.recordId.Some?
  {
    DnsPicksExactly(x, p);
    ActiveDnsExactly(x, p.host);
    if r :| FromRecord(x, p, r) { MissingDnsIs(x, r); }
  }

  lemma ChangeHasId(x: Inputs, d: DnsChange)
    requires x.snapshot.dockerOk && d in PlanOf(x).dns
    ensures d.action == DUpdate || d.action == DDelete ==> d.recordId.Some?
  {
    var p := PickOfChange(x, d);
    PickHasId(x, p);
  }

  /** An execution requests exactly the PUT of the planned rules, if they differ, and what the DNS changes ask for. */
  lemma RequestsExactly(x: Inputs, w: World, outcome: nat -> Outcome, c: Call)
    requires x.snapshot.dockerOk
    ensures c in ProgressOf(x, w, outcome).calls <==>
            || (PlanOf(x).finalRules != x.remote.rules && c == PutIngress(PlanOf(x).finalRules))
            || (exists d :: d in PlanOf(x).dns && Asks(c, d))
  {
    RunMakesEveryCall(w, Steps(PlanOf(x), Some(x.remote.rules)), outcome);
    CallsExactly(PlanOf(x), Some(x.remote.rules), c);
    forall d | d in PlanOf(x).dns ensures Asks(c, d) <==> CallOf(d) == Some(c) {
      ChangeHasId(x, d);
      AsksExactly(c, d);
    }
  }

  /** What is done about a DNS change: nothing but a report for a protected record, and else its request. */
  ghost predicate Does(s: Step, d: DnsChange) {
    match s
    case Shield(target) => d.action == DProtect && target == d.hostname
    case Attempt(resource, verb, target, call) =>
      && resource == DnsResource && target == d.hostname && Asks(call, d)
      && (verb == CreateVerb <==> d.action == DCreate) && (verb == UpdateVerb <==> d.action == DUpdate)
      && (verb == DeleteVerb <==> d.action == DDelete)
  }

  /** Of these changes, exactly those that are not no-operations, in order. */
  ghost predicate Selects(at: seq<nat>, changes: seq<DnsChange>) {
    && (forall i :: 0 <= i < |at| ==> at[i] < |changes| && changes[at[i]].action != DNoop)
    && (forall i, j :: 0 <= i < j < |at| ==> at[i] < at[j])
    && (forall k: nat :: k < |changes| && changes[k].action != DNoop ==> k in at)
  }

  lemma DoesExactly(d: DnsChange)
    requires d.action == DUpdate || d.action == DDelete ==> d.recordId.Some?
    ensures if d.action == DNoop then DnsStep(d) == [] else |DnsStep(d)| == 1 && Does(DnsStep(d)[0], d)
  {
  }

  lemma NoneSelected(at: seq<nat>, changes: seq<DnsChange>, d: DnsChange)
    requires Selects(at, changes) && d.action == DNoop
    ensures Selects(at, changes + [d])
  {
    var more := changes + [d];
    assert forall i :: 0 <= i < |at| ==> more[at[i]] == changes[at[i]];
    forall k: nat | k < |more| && more[k].action != DNoop ensures k in at { assert more[k] == changes[k]; }
  }

  lemma OneSelected(at: seq<nat>, changes: seq<DnsChange>, d: DnsChange)
    requires Selects(at, changes) && d.action != DNoop
    ensures Selects(at + [|changes|], changes + [d])
  {
    var more, next := changes + [d], at + [|changes|];
    forall i | 0 <= i < |next| ensures next[i] < |more| && more[next[i]].action != DNoop {
      if i < |at| { assert more[at[i]] == changes[at[i]]; }
    }
    forall k: nat | k < |more| && more[k].action != DNoop ensures k in next {
      if k < |changes| {
        assert more[k] == changes[k] && k in at;
      } else {
        assert next[|at|] == k;
      }
    }
  }

  /** The steps do what the selected changes say, one by one. */
  ghost predicate DoesInOrder(steps: seq<Step>, at: seq<nat>, changes: seq<DnsChange>) {
    && |steps| == |at| && Selects(at, changes)
    && forall i :: 0 <= i < |at| ==> Does(steps[i], changes[at[i]])
  }

  lemma NothingMoreDone(steps: seq<Step>, at: seq<nat>, changes: seq<DnsChange>, d: DnsChange)
    requires DoesInOrder(steps, at, changes) && d.action == DNoop
    ensures DoesInOrder(steps, at, changes + [d])
  {
    NoneSelected(at, changes, d);
    assert forall i :: 0 <= i < |at| ==> (changes + [d])[at[i]] == changes[at[i]];
  }

  lemma OneMoreDone(steps: seq<Step>, at: seq<nat>, changes: seq<DnsChange>, s: Step, d: DnsChange)
    requires DoesInOrder(steps, at, changes) && d.action != DNoop && Does(s, d)
    ensures DoesInOrder(steps + [s], at + [|changes|], changes + [d])
  {
    OneSelected(at, changes, d);
    assert forall i :: 0 <= i < |at| ==> (changes + [d])[at[i]] == changes[at[i]];
  }

  lemma {:induction false} StepsInOrder(changes: seq<DnsChange>) returns (at: seq<nat>)
    requires forall d :: d in changes ==> d.recordId.Some? || (d.action != DUpdate && d.action != DDelete)
    ensures DoesInOrder(DnsSteps(changes), at, changes)
  {
    at := [];
    if changes != [] {
      var init, d := changes[..|changes| - 1], changes[|changes| - 1];
      at := StepsInOrder(init);
      assert changes == init + [d];
      DoesExactly(d);
      if d.action == DNoop {
        assert DnsSteps(init) + DnsStep(d) == DnsSteps(init);
        NothingMoreDone(DnsSteps(init), at, init, d);
      } else {
        assert DnsStep(d) == [DnsStep(d)[0]];
        OneMoreDone(DnsSteps(init), at, init, DnsStep(d)[0], d);
        at := at + [|init|];
      }
    }
  }

  lemma ChangesHaveIds(x: Inputs)
    requires x.snapshot.dockerOk
    ensures forall d :: d in PlanOf(x).dns ==> d.recordId.Some? || (d.action != DUpdate && d.action != DDelete)
  {
    forall d | d in PlanOf(x).dns ensures d.recordId.Some? || (d.action != DUpdate && d.action != DDelete) {
      ChangeHasId(x, d);
    }
  }

  /** The routes come first, if they differ; then the DNS changes in the order of the plan. */
  lemma PlanIsDoneInOrder(x: Inputs, plan: Plan, steps: seq<Step>) returns (at: seq<nat>)
    requires x.snapshot.dockerOk && plan == PlanOf(x) && steps == Steps(plan, Some(x.remote.rules))
    ensures if plan.finalRules == x.remote.rules then DoesInOrder(steps, at, plan.dns)
            else && |steps| > 0
                 && steps[0] == Attempt(IngressResource, UpdateVerb, "ingress", PutIngress(plan.finalRules))
                 && DoesInOrder(steps[1..], at, plan.dns)
  {
    ChangesHaveIds(x);
    at := StepsInOrder(plan.dns);
    var dns := DnsSteps(plan.dns);
    if plan.finalRules == x.remote.rules { assert steps == dns; } else { assert steps[1..] == dns; }
  }

  lemma PlacesWhere(changes: seq<IngressChange>, a: IngressAction)
    ensures |Places(changes, IsRoute(a))| > 0 <==> exists c :: c in changes && c.action == a
  {
    var places := Places(changes, IsRoute(a));
    if c :| c in changes && c.action == a {
      var i :| 0 <= i < |changes| && changes[i] == c;
      assert i in places;
    }
    if |places| > 0 {
      var i :| i in places;
      assert changes[i] in changes;
    }
  }

  /** Without a configuration to compare with, a PUT is due exactly if some route is to change. */
  lemma DueWithoutComparison(x: Inputs, plan: Plan)
    requires x.snapshot.dockerOk && plan == PlanOf(x)
    ensures IngressDue(plan, None) <==> exists c :: c in plan.ingress && c.action != INoop
  {
    SummaryExactly(x, plan);
    PlacesWhere(plan.ingress, ICreate);
    PlacesWhere(plan.ingress, IUpdate);
    PlacesWhere(plan.ingress, IDelete);
  }
}
