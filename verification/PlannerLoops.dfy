/** The four loops over hosts and records, computing the plan of module Planner. */
module PlannerLoops {
  import opened Text
  import opened Models
  import opened Ingress
  import opened Planner

  // ---------------------------------------------------------------- indexes

  method IndexOrigins(origins: seq<Origin>) returns (byHost: map<string, Origin>)
    ensures byHost == Active(origins)
  {
    byHost := map[];
    for i := 0 to |origins|
      invariant byHost == Active(origins[..i])
    {
      assert origins[..i + 1][..i] == origins[..i];
      if origins[i].hostname != "" {
        byHost := byHost[origins[i].hostname := origins[i]];
      }
    }
    assert origins[..|origins|] == origins;
  }

  lemma {:induction false} FirstRootSnoc(rules: seq<Rule>, o: Rule, h: string)
    ensures FirstRoot(rules + [o], h) ==
            if FirstRoot(rules, h).Some? then FirstRoot(rules, h) else if IsRoot(o) && Host(o) == h then Some(o)
                else None
  {
    if rules == [] {
      assert rules + [o] == [o];
    } else {
      assert (rules + [o])[1..] == rules[1..] + [o];
      FirstRootSnoc(rules[1..], o, h);
    }
  }

  ghost predicate IndexesRoots(byHost: map<string, Rule>, rules: seq<Rule>) {
    forall h :: if h in byHost then FirstRoot(rules, h) == Some(byHost[h]) else FirstRoot(rules, h).None?
  }

  method IndexRoots(rules: seq<Rule>) returns (byHost: map<string, Rule>, order: seq<Rule>)
    ensures IndexesRoots(byHost, rules)
    ensures order == RootOrder(rules)
  {
    byHost, order := map[], [];
    for i := 0 to |rules|
      invariant IndexesRoots(byHost, rules[..i])
      invariant order == RootOrder(rules[..i])
    {
      var rule := rules[i];
      var host := Host(rule);
      assert rules[..i + 1] == rules[..i] + [rule];
      forall h { FirstRootSnoc(rules[..i], rule, h); }
      if host != "" && !HasPath(rule) && host !in byHost {
        byHost := byHost[host := rule];
        order := order + [rule];
      }
    }
    assert rules[..|rules|] == rules;
  }

  ghost predicate IndexesRecords(byName: map<string, Record>, records: seq<Record>) {
    forall h :: if h in byName then LastRecord(records, h) == Some(byName[h]) else LastRecord(records, h).None?
  }

  method IndexRecords(records: seq<Record>) returns (byName: map<string, Record>)
    ensures IndexesRecords(byName, records)
  {
    byName := map[];
    for i := 0 to |records|
      invariant IndexesRecords(byName, records[..i])
    {
      assert records[..i + 1] == records[..i] + [records[i]];
      if records[i].name != "" {
        byName := byName[records[i].name := records[i]];
      }
    }
    assert records[..|records|] == records;
  }

  // ---------------------------------------------------------------- ingress

  method DecideActiveIngress(x: Inputs, host: string, origin: Origin, byHost: map<string, Rule>, byName: map<string,
      Record>)
    returns (pick: IngressPick)
    requires IndexesRoots(byHost, x.remote.rules) && IndexesRecords(byName, x.remote.records)
    ensures pick == ActiveIngress(x, host, origin)
  {
    var rule := DesiredRule(host, origin);
    var mark := if host in x.tombstones then ClearMark else Unmarked;
    if x.cfg.preserveManualRoots && host in byHost && host in byName && StatusOf(x, byName[host], false) != Owned {
      var existing := byHost[host];
      return IngressPick(host, IngressChange(INoop, host, None, ServiceText(existing), existing.originRequest),
                         Some(ManualRule(host, existing)), mark);
    }
    var action := ICreate;
    if host in byHost {
      var existing := byHost[host];
      if existing.service == rule.service && RequestOf(existing) == RequestOf(rule) {
        action := INoop;
      } else {
        action := IUpdate;
      }
    }
    pick := IngressPick(host, IngressChange(action, host, None, origin.service, rule.originRequest), Some(rule), mark);
  }

  method DecideMissingIngress(x: Inputs, rule: Rule, byName: map<string, Record>) returns (pick: IngressPick)
    requires IndexesRecords(byName, x.remote.records)
    ensures pick == MissingIngress(x, rule)
  {
    var host := Host(rule);
    if host !in byName || StatusOf(x, byName[host], false) != Owned {
      return IngressPick(host, IngressChange(INoop, host, rule.path, ServiceText(rule), rule.originRequest),
          Some(rule), Unmarked);
    }
    var delete := IngressChange(IDelete, host, None, ServiceText(rule), None);
    var keep := IngressChange(INoop, host, None, ServiceText(rule), None);
    if x.cfg.immediate || x.cfg.grace <= 0.0 {
      pick := IngressPick(host, delete, None, if host in x.tombstones then ClearMark else Unmarked);
    } else if host !in x.tombstones {
      pick := IngressPick(host, keep, Some(rule), SetMark);
    } else {
      var elapsed := x.now - x.tombstones[host];
      if elapsed >= x.cfg.grace {
        pick := IngressPick(host, delete, None, ClearMark);
      } else {
        pick := IngressPick(host, keep, Some(rule), Unmarked);
      }
    }
  }

  /** The changes, routes and tombstone marks gathered so far. */
  datatype IngressOut = IngressOut(changes: seq<IngressChange>, finals: seq<Rule>, toSet: set<string>,
      toClear: set<string>)

  ghost predicate Gathers(out: IngressOut, picks: seq<IngressPick>) {
    out == IngressOut(IngressChanges(picks), RulesOf(picks), IngressMarked(picks, SetMark),
        IngressMarked(picks, ClearMark))
  }

  method Gather(out: IngressOut, pick: IngressPick, ghost picks: seq<IngressPick>) returns (out': IngressOut)
    requires Gathers(out, picks)
    ensures Gathers(out', picks + [pick])
  {
    assert (picks + [pick])[..|picks|] == picks;
    out' := IngressOut(
      out.changes + [pick.change],
      out.finals + if pick.rule.Some? then [pick.rule.value] else [],
      out.toSet + if pick.mark == SetMark then {pick.host} else {},
      out.toClear + if pick.mark == ClearMark then {pick.host} else {});
  }

  method PlanActiveIngress(x: Inputs, active: map<string, Origin>, hosts: seq<string>, byHost: map<string, Rule>,
                           byName: map<string, Record>)
    returns (out: IngressOut)
    requires IndexesRoots(byHost, x.remote.rules) && IndexesRecords(byName, x.remote.records)
    requires forall h :: h in hosts ==> h in active
    ensures Gathers(out, ActivePicks(x, active, hosts))
  {
    out := IngressOut([], [], {}, {});
    for i := 0 to |hosts|
      invariant Gathers(out, ActivePicks(x, active, hosts[..i]))
    {
      var pick := DecideActiveIngress(x, hosts[i], active[hosts[i]], byHost, byName);
      assert hosts[..i + 1][..i] == hosts[..i];
      out := Gather(out, pick, ActivePicks(x, active, hosts[..i]));
    }
    assert hosts[..|hosts|] == hosts;
  }

  method PlanMissingIngress(x: Inputs, active: map<string, Origin>, order: seq<Rule>, byName: map<string, Record>)
    returns (out: IngressOut)
    requires IndexesRecords(byName, x.remote.records)
    ensures Gathers(out, MissingPicks(x, active, order))
  {
    out := IngressOut([], [], {}, {});
    for i := 0 to |order|
      invariant Gathers(out, MissingPicks(x, active, order[..i]))
    {
      assert order[..i + 1][..i] == order[..i];
      if Host(order[i]) !in active {
        var pick := DecideMissingIngress(x, order[i], byName);
        out := Gather(out, pick, MissingPicks(x, active, order[..i]));
      } else {
        assert MissingPicks(x, active, order[..i + 1]) == MissingPicks(x, active, order[..i]);
      }
    }
    assert order[..|order|] == order;
  }

  // ---------------------------------------------------------------- DNS

  method DecideActiveDns(x: Inputs, host: string, byName: map<string, Record>) returns (change: DnsChange)
    requires IndexesRecords(byName, x.remote.records)
    ensures change == ActiveDns(x, host)
  {
    var target, tag := x.remote.target, Tag(x);
    if host !in byName {
      return DnsChange(DCreate, host, None, Some(target), true, 1, Some(tag), Owned);
    }
    var rec := byName[host];
    var status := StatusOf(x, rec, true);
    change := DnsChange(DProtect, host, Some(rec.id), Some(target), Proxied(rec, false), Ttl(rec), None, status);
    match status {
      case Owned =>
        if rec.content == Some(target) && rec.proxied == Some(true) && CommentText(rec) == tag {
          change := DnsChange(DNoop, host, Some(rec.id), Some(target), true, 1, Some(tag), status);
        } else {
          change := DnsChange(DUpdate, host, Some(rec.id), Some(target), true, 1, Some(tag), status);
        }
      case Adopted =>
        if x.cfg.policy != StrictTaggedOnly {
          change := DnsChange(DUpdate, host, Some(rec.id), Some(target), true, 1, Some(tag), status);
        }
      case ForeignTunnel =>
      case Unmanaged =>
      case Unrelated =>
    }
  }

  method DecideMissingDns(x: Inputs, rec: Record, byHost: map<string, Rule>) returns (pick: DnsPick)
    requires IndexesRoots(byHost, x.remote.rules)
    ensures pick == MissingDns(x, rec)
  {
    var host := rec.name;
    var status := StatusOf(x, rec, false);
    var legacy := x.cfg.policy == LegacyUnrestricted;
    var known := || status == Owned
                 || (legacy && (|| host in byHost || host in x.tombstones
                                || (x.cfg.immediate && rec.content == Some(x.remote.target))));
    var keep := DnsChange(DNoop, host, Some(rec.id), rec.content, Proxied(rec, true), Ttl(rec), Some(CommentText(rec)),
        status);
    var delete := DnsChange(DDelete, host, Some(rec.id), None, Proxied(rec, true), Ttl(rec), None, status);
    if known && (status == Owned || legacy) {
      if x.cfg.immediate || x.cfg.grace <= 0.0 {
        pick := DnsPick(host, delete, if host in x.tombstones then ClearMark else Unmarked);
      } else if host !in x.tombstones {
        pick := DnsPick(host, keep, SetMark);
      } else {
        var elapsed := x.now - x.tombstones[host];
        if elapsed >= x.cfg.grace {
          pick := DnsPick(host, delete, ClearMark);
        } else {
          pick := DnsPick(host, keep, Unmarked);
        }
      }
    } else {
      pick := DnsPick(host, delete.(action := DProtect), Unmarked);
    }
  }

  datatype DnsOut = DnsOut(changes: seq<DnsChange>, toSet: set<string>, toClear: set<string>)

  ghost predicate GathersDns(out: DnsOut, picks: seq<DnsPick>) {
    out == DnsOut(DnsChanges(picks), DnsMarked(picks, SetMark), DnsMarked(picks, ClearMark))
  }

  method GatherDns(out: DnsOut, pick: DnsPick, ghost picks: seq<DnsPick>) returns (out': DnsOut)
    requires GathersDns(out, picks)
    ensures GathersDns(out', picks + [pick])
  {
    assert (picks + [pick])[..|picks|] == picks;
    out' := DnsOut(
      out.changes + [pick.change],
      out.toSet + if pick.mark == SetMark then {pick.host} else {},
      out.toClear + if pick.mark == ClearMark then {pick.host} else {});
  }

  method PlanActiveDns(x: Inputs, hosts: seq<string>, byName: map<string, Record>) returns (out: DnsOut)
    requires IndexesRecords(byName, x.remote.records)
    ensures GathersDns(out, ActiveDnsPicks(x, hosts))
  {
    out := DnsOut([], {}, {});
    for i := 0 to |hosts|
      invariant GathersDns(out, ActiveDnsPicks(x, hosts[..i]))
    {
      var change := DecideActiveDns(x, hosts[i], byName);
      assert hosts[..i + 1][..i] == hosts[..i];
      out := GatherDns(out, DnsPick(hosts[i], change, Unmarked), ActiveDnsPicks(x, hosts[..i]));
    }
    assert hosts[..|hosts|] == hosts;
  }

  method PlanMissingDns(x: Inputs, active: map<string, Origin>, byHost: map<string, Rule>) returns (out: DnsOut)
    requires IndexesRoots(byHost, x.remote.rules)
    ensures GathersDns(out, MissingDnsPicks(x, active, x.remote.records))
  {
    out := DnsOut([], {}, {});
    var records := x.remote.records;
    for i := 0 to |records|
      invariant GathersDns(out, MissingDnsPicks(x, active, records[..i]))
    {
      var rec := records[i];
      assert records[..i + 1][..i] == records[..i];
      if rec.name != "" && rec.name !in active && (TypeOf(rec) == "CNAME" || x.cfg.tagPrefix <= CommentText(rec)) {
        var pick := DecideMissingDns(x, rec, byHost);
        out := GatherDns(out, pick, MissingDnsPicks(x, active, records[..i]));
      } else {
        assert MissingDnsPicks(x, active, records[..i + 1]) == MissingDnsPicks(x, active, records[..i]);
      }
    }
    assert records[..|records|] == records;
  }

  // ---------------------------------------------------------------- summary

  method Summarize(discovered: nat, ingress: seq<IngressChange>, dns: seq<DnsChange>) returns (s: Summary)
    ensures s == SummaryOf(discovered, ingress, dns)
  {
    s := Summary(discovered, 0, 0, 0, 0, 0, 0, 0, 0);
    for i := 0 to |ingress|
      invariant s == SummaryOf(discovered, ingress[..i], [])
    {
      assert ingress[..i + 1][..i] == ingress[..i];
      match ingress[i].action {
        case ICreate => s := s.(ingressCreates := s.ingressCreates + 1);
        case IUpdate => s := s.(ingressUpdates := s.ingressUpdates + 1);
        case IDelete => s := s.(ingressDeletes := s.ingressDeletes + 1);
        case INoop =>
      }
    }
    assert ingress[..|ingress|] == ingress;
    for i := 0 to |dns|
      invariant s == SummaryOf(discovered, ingress, dns[..i])
    {
      assert dns[..i + 1][..i] == dns[..i];
      var c := dns[i];
      if c.action == DProtect || c.status == Unmanaged || c.status == ForeignTunnel {
        s := s.(unmanagedSkipped := s.unmanagedSkipped + 1);
      }
      match c.action {
        case DCreate => s := s.(dnsCreates := s.dnsCreates + 1);
        case DUpdate => s := s.(dnsUpdates := s.dnsUpdates + 1);
        case DDelete => s := s.(dnsDeletes := s.dnsDeletes + 1);
        case DProtect => s := s.(dnsProtected := s.dnsProtected + 1);
        case DNoop =>
      }
    }
    assert dns[..|dns|] == dns;
  }

  // ---------------------------------------------------------------- the whole

  method DegradedChangePlan(x: Inputs) returns (plan: Plan)
    ensures plan == DegradedPlan(x)
  {
    var ingress: seq<IngressChange> := [];
    var rules := x.remote.rules;
    for i := 0 to |rules|
      invariant ingress == DegradedIngress(rules[..i])
    {
      assert rules[..i + 1][..i] == rules[..i];
      if rules[i].service != Some("http_status:404") {
        ingress := ingress + [IngressChange(INoop, Host(rules[i]), None, ServiceText(rules[i]),
            rules[i].originRequest)];
      }
    }
    assert rules[..|rules|] == rules;
    var dns: seq<DnsChange> := [];
    var records := x.remote.records;
    for i := 0 to |records|
      invariant dns == DegradedDns(x, records[..i])
    {
      assert records[..i + 1][..i] == records[..i];
      var r := records[i];
      if r.name != "" {
        var comment := if r.comment.Written? then Some(r.comment.text) else None;
        dns := dns + [DnsChange(DProtect, r.name, Some(r.id), r.content, Proxied(r, true), Ttl(r), comment,
            StatusOf(x, r, false))];
      }
    }
    assert records[..|records|] == records;
    plan := Plan(x.cfg.dryRun, ingress, dns, rules, map[], [], Summary(0, 0, 0, 0, 0, 0, 0, |dns|, |dns|));
  }

  lemma {:induction false} IngressConcat(a: seq<IngressPick>, b: seq<IngressPick>)
    ensures IngressChanges(a + b) == IngressChanges(a) + IngressChanges(b)
    ensures RulesOf(a + b) == RulesOf(a) + RulesOf(b)
    ensures forall m :: IngressMarked(a + b, m) == IngressMarked(a, m) + IngressMarked(b, m)
  {
    if b == [] {
      assert a + b == a;
    } else {
      assert (a + b)[..|a + b| - 1] == a + b[..|b| - 1];
      IngressConcat(a, b[..|b| - 1]);
    }
  }

  lemma {:induction false} DnsConcat(a: seq<DnsPick>, b: seq<DnsPick>)
    ensures DnsChanges(a + b) == DnsChanges(a) + DnsChanges(b)
    ensures forall m :: DnsMarked(a + b, m) == DnsMarked(a, m) + DnsMarked(b, m)
  {
    if b == [] {
      assert a + b == a;
    } else {
      assert (a + b)[..|a + b| - 1] == a + b[..|b| - 1];
      DnsConcat(a, b[..|b| - 1]);
    }
  }

  method PlanIngress(x: Inputs, active: map<string, Origin>, byHost: map<string, Rule>, order: seq<Rule>,
      byName: map<string, Record>)
    returns (out: IngressOut)
    requires active == Active(x.snapshot.origins) && order == RootOrder(x.remote.rules)
    requires IndexesRoots(byHost, x.remote.rules) && IndexesRecords(byName, x.remote.records)
    ensures Gathers(out, IngressPicks(x))
  {
    var hosts := Sorted(active.Keys);
    SortedOrder(active.Keys);
    var present := PlanActiveIngress(x, active, hosts, byHost, byName);
    var missing := PlanMissingIngress(x, active, order, byName);
    IngressConcat(ActivePicks(x, active, hosts), MissingPicks(x, active, order));
    out := IngressOut(present.changes + missing.changes, present.finals + missing.finals,
                      present.toSet + missing.toSet, present.toClear + missing.toClear);
  }

  method PlanDns(x: Inputs, active: map<string, Origin>, byHost: map<string, Rule>, byName: map<string, Record>)
    returns (out: DnsOut)
    requires active == Active(x.snapshot.origins)
    requires IndexesRoots(byHost, x.remote.rules) && IndexesRecords(byName, x.remote.records)
    ensures GathersDns(out, DnsPicks(x))
  {
    var hosts := Sorted(active.Keys);
    var present := PlanActiveDns(x, hosts, byName);
    var missing := PlanMissingDns(x, active, byHost);
    DnsConcat(ActiveDnsPicks(x, hosts), MissingDnsPicks(x, active, x.remote.records));
    out := DnsOut(present.changes + missing.changes, present.toSet + missing.toSet, present.toClear + missing.toClear);
  }

  method ComputeChangePlan(x: Inputs) returns (plan: Plan)
    ensures plan == PlanOf(x)
  {
    if !x.snapshot.dockerOk {
      plan := DegradedChangePlan(x);
      return;
    }
    var active := IndexOrigins(x.snapshot.origins);
    var byHost, order := IndexRoots(x.remote.rules);
    var byName := IndexRecords(x.remote.records);
    var ingress := PlanIngress(x, active, byHost, order, byName);
    RulesNamed(x);
    var finalRules := MergeIngress(x.remote.rules, ingress.finals);
    var dns := PlanDns(x, active, byHost, byName);
    var summary := Summarize(|x.snapshot.origins|, ingress.changes, dns.changes);
    plan := Plan(x.cfg.dryRun, ingress.changes, dns.changes, finalRules,
                 map h | h in ingress.toSet + dns.toSet :: x.now, Sorted(ingress.toClear + dns.toClear), summary);
  }
}
