/** The ingress loop and the DNS loop judge an absent host separately; when do they agree? */
module Lockstep {
  import opened Text
  import opened Models
  import opened Ingress
  import opened MergeFacts
  import opened Planner
  import opened PlanFacts
  import opened PlanTheorems
  import opened Sync
  import opened Runs

  /** The two loops agree on an absent host: delete together, and leave the same mark. */
  ghost predicate InStep(x: Inputs, root: Rule, r: Record) {
    var i, d := MissingIngress(x, root), MissingDns(x, r);
    (i.change.action == IDelete <==> d.change.action == DDelete) && i.mark == d.mark
  }

  /** Both loops reach a verdict. */
  lemma BothLoopsJudge(x: Inputs, h: string, root: Rule, r: Record)
    requires !IsActive(x, h) && FirstRoot(x.remote.rules, h) == Some(root)
    requires r in x.remote.records && r.name == h && h != "" && Relevant(x, r)
    ensures Host(root) == h && MissingIngress(x, root) in IngressPicks(x) && MissingDns(x, r) in DnsPicks(x)
  {
    FirstRootIsRoot(x.remote.rules, h);
    EveryPickIsThere(x, h);
    assert FromRecord(x, MissingDns(x, r), r);
    DnsPicksExactly(x, MissingDns(x, r));
  }

  lemma InStepExactly(x: Inputs, h: string, root: Rule, r: Record)
    requires FirstRoot(x.remote.rules, h) == Some(root) && Host(root) == h && r.name == h
    ensures InStep(x, root, r) <==>
            FateOf(x, h) == Wait || (OwnsHost(x, h) <==>
                StatusOf(x, r, false) == Owned || x.cfg.policy == LegacyUnrestricted)
  {
  }

  /**
   * For an absent host with a root, and any relevant record of that name, the ingress loop and the DNS loop are in step
   * exactly while the host's wait is running, or when the host's last record is owned if and only if this one is owned
   * or the policy is the legacy one.
   */
  lemma LoopsInStep(x: Inputs, h: string, root: Rule, r: Record)
    requires !IsActive(x, h) && FirstRoot(x.remote.rules, h) == Some(root)
    requires r in x.remote.records && r.name == h && h != "" && Relevant(x, r)
    ensures MissingIngress(x, root) in IngressPicks(x) && MissingDns(x, r) in DnsPicks(x)
    ensures InStep(x, root, r) <==>
            FateOf(x, h) == Wait || (OwnsHost(x, h) <==>
                StatusOf(x, r, false) == Owned || x.cfg.policy == LegacyUnrestricted)
  {
    BothLoopsJudge(x, h, root, r);
    InStepExactly(x, h, root, r);
  }

  /** With one record of that name the loops are always in step, but for the legacy policy. */
  lemma OneRecordInStep(x: Inputs, h: string, root: Rule, r: Record)
    requires !IsActive(x, h) && FirstRoot(x.remote.rules, h) == Some(root)
    requires LastRecord(x.remote.records, h) == Some(r) && Relevant(x, r)
    ensures InStep(x, root, r) <==> FateOf(x, h) == Wait || OwnsHost(x, h) || x.cfg.policy != LegacyUnrestricted
  {
    LastRecordIsThere(x.remote.records, h);
    LoopsInStep(x, h, root, r);
  }

  // ---------------------------------------------------------------- where they part

  const ROUTE := Rule(Some(HOST), None, Some("http://app"), None, map[])

  const ANYBODYS := Record("2", HOST, None, Some(TARGET), NoComment, Some(true), Some(1))

  function Parted(policy: OwnershipPolicy, records: seq<Record>): Inputs {
    Inputs(Snapshot(true, []), Remote("t", TARGET, [ROUTE, NOT_FOUND], records), map[], 0.0,
           Config(policy, 0.0, false, false, TAG_PREFIX, false))
  }

  lemma AnybodysIsUntagged(x: Inputs)
    requires x.remote.target == TARGET && x.cfg.tagPrefix == TAG_PREFIX && x.remote.tunnelName == "t"
    ensures StatusOf(x, ANYBODYS, false) != Owned
  {
    assert CommentText(ANYBODYS) == "" && Tag(x) != "";
  }

  /** Under the legacy policy an untagged record is deleted while the route stays. */
  lemma LegacyLoopsPart()
    ensures var x := Parted(LegacyUnrestricted, [ANYBODYS]);
            && MissingIngress(x, ROUTE) in IngressPicks(x) && MissingIngress(x, ROUTE).change.action == INoop
            && MissingDns(x, ANYBODYS) in DnsPicks(x) && MissingDns(x, ANYBODYS).change.action == DDelete
  {
    var x := Parted(LegacyUnrestricted, [ANYBODYS]);
    assert IsRoot(ROUTE) && Host(ROUTE) == HOST;
    AnybodysIsUntagged(x);
    assert LastRecord(x.remote.records, HOST) == Some(ANYBODYS);
    LoopsInStep(x, HOST, ROUTE, ANYBODYS);
  }

  /** Under any policy an owned record is deleted while the route stays, if a later record of that name is not owned. */
  lemma RepeatedNamesPart(policy: OwnershipPolicy)
    ensures var x := Parted(policy, [ITS_RECORD, ANYBODYS]);
            && MissingIngress(x, ROUTE) in IngressPicks(x) && MissingIngress(x, ROUTE).change.action == INoop
            && MissingDns(x, ITS_RECORD) in DnsPicks(x) && MissingDns(x, ITS_RECORD).change.action == DDelete
  {
    var x := Parted(policy, [ITS_RECORD, ANYBODYS]);
    assert IsRoot(ROUTE) && Host(ROUTE) == HOST;
    AnybodysIsUntagged(x);
    ItsRecordIsOwned(x);
    assert LastRecord(x.remote.records, HOST) == Some(ANYBODYS);
    LoopsInStep(x, HOST, ROUTE, ITS_RECORD);
  }
}
