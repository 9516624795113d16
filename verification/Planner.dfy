/**
 * The reconciliation planner. The functions say what each host and each record deserves; the methods
 * are the four loops that build the plan, and compute exactly what the functions say.
 */
module Planner {
  import opened Text
  import opened Models
  import opened Ingress

  datatype Config = Config(
    policy: OwnershipPolicy,
    grace: real,
    dryRun: bool,
    immediate: bool,
    tagPrefix: string,
    preserveManualRoots: bool)

  datatype Inputs = Inputs(snapshot: Snapshot, remote: Remote, tombstones: map<string, real>, now: real, cfg: Config)

  function Tagger(x: Inputs): Tagging {
    Tagging(x.cfg.tagPrefix, x.remote.tunnelName)
  }

  function Tag(x: Inputs): string {
    Tagger(x).FormatComment()
  }

  function StatusOf(x: Inputs, r: Record, active: bool): OwnershipStatus {
    Tagger(x).ParseStatus(r, x.remote.target, active)
  }

  // ---------------------------------------------------------------- indexes

  /** The last origin of each non-empty host name. */
  function Active(origins: seq<Origin>): map<string, Origin> {
    if origins == [] then map[]
    else
      var o, m := origins[|origins| - 1], Active(origins[..|origins| - 1]);
      if o.hostname != "" then m[o.hostname := o] else m
  }

  /** The last record of each non-empty name. */
  function LastRecord(records: seq<Record>, name: string): Option<Record> {
    if records == [] || name == "" then None
    else
      var r := records[|records| - 1];
      if r.name == name then Some(r) else LastRecord(records[..|records| - 1], name)
  }

  /** The first root of each host, in order of appearance. */
  function RootOrder(rules: seq<Rule>): seq<Rule> {
    if rules == [] then []
    else
      var o, init := rules[|rules| - 1], rules[..|rules| - 1];
      RootOrder(init) + if IsRoot(o) && FirstRoot(init, Host(o)).None? then [o] else []
  }

  // ---------------------------------------------------------------- the fate of an absent host

  datatype Fate = Remove | Begin | Wait

  /** What happens to a managed resource of a host without a container. */
  function FateOf(x: Inputs, host: string): Fate {
    if x.cfg.immediate || x.cfg.grace <= 0.0 then Remove
    else if host !in x.tombstones then Begin
    else if x.now - x.tombstones[host] >= x.cfg.grace then Remove
    else Wait
  }

  datatype Mark = Unmarked | SetMark | ClearMark

  function MarkOf(x: Inputs, host: string): Mark {
    match FateOf(x, host)
    case Remove => ClearIfBuried(x, host)
    case Begin => SetMark
    case Wait => Unmarked
  }

  function ClearIfBuried(x: Inputs, host: string): Mark {
    if host in x.tombstones then ClearMark else Unmarked
  }

  // ---------------------------------------------------------------- ingress

  datatype IngressPick = IngressPick(host: string, change: IngressChange, rule: Option<Rule>, mark: Mark)

  function DesiredRule(host: string, o: Origin): Rule {
    Rule(Some(host), None, Some(o.service), RequestKey(if o.originRequest.Some? then o.originRequest.value else map[]),
        map[])
  }

  /** A manual root as the planner copies it: host, service and a non-empty origin request. */
  function ManualRule(host: string, root: Rule): Rule {
    Rule(Some(host), None, Some(ServiceText(root)), RequestKey(RequestOf(root)), map[])
  }

  /** ISS-08: an active host whose root is kept because its DNS record is not tagged as ours. */
  predicate KeepsManualRoot(x: Inputs, host: string) {
    && x.cfg.preserveManualRoots
    && FirstRoot(x.remote.rules, host).Some?
    && LastRecord(x.remote.records, host).Some?
    && StatusOf(x, LastRecord(x.remote.records, host).value, false) != Owned
  }

  function ActiveIngress(x: Inputs, host: string, o: Origin): IngressPick {
    var rule := DesiredRule(host, o);
    var root := FirstRoot(x.remote.rules, host);
    var mark := ClearIfBuried(x, host);
    if KeepsManualRoot(x, host) then
      IngressPick(host, IngressChange(INoop, host, None, ServiceText(root.value), root.value.originRequest),
                  Some(ManualRule(host, root.value)), mark)
    else
      var action :=
        if root.None? then ICreate
        else if root.value.service == rule.service && RequestOf(root.value) == RequestOf(rule) then INoop
        else IUpdate;
      IngressPick(host, IngressChange(action, host, None, o.service, rule.originRequest), Some(rule), mark)
  }

  /** The last record of the host carries this tunnel's tag. */
  predicate OwnsHost(x: Inputs, host: string) {
    var rec := LastRecord(x.remote.records, host);
    rec.Some? && StatusOf(x, rec.value, false) == Owned
  }

  function MissingIngress(x: Inputs, root: Rule): IngressPick {
    var host := Host(root);
    if !OwnsHost(x, host) then
      IngressPick(host, IngressChange(INoop, host, root.path, ServiceText(root), root.originRequest), Some(root),
          Unmarked)
    else if FateOf(x, host) == Remove then
      IngressPick(host, IngressChange(IDelete, host, None, ServiceText(root), None), None, MarkOf(x, host))
    else
      IngressPick(host, IngressChange(INoop, host, None, ServiceText(root), None), Some(root), MarkOf(x, host))
  }

  function ActivePicks(x: Inputs, active: map<string, Origin>, hosts: seq<string>): seq<IngressPick>
    requires forall h :: h in hosts ==> h in active
  {
    if hosts == [] then []
    else
      var h := hosts[|hosts| - 1];
      ActivePicks(x, active, hosts[..|hosts| - 1]) + [ActiveIngress(x, h, active[h])]
  }

  function MissingPicks(x: Inputs, active: map<string, Origin>, roots: seq<Rule>): seq<IngressPick> {
    if roots == [] then []
    else
      var r := roots[|roots| - 1];
      MissingPicks(x, active, roots[..|roots| - 1]) + if Host(r) in active then [] else [MissingIngress(x, r)]
  }

  function IngressPicks(x: Inputs): seq<IngressPick> {
    var active := Active(x.snapshot.origins);
    SortedOrder(active.Keys);
    ActivePicks(x, active, Sorted(active.Keys)) + MissingPicks(x, active, RootOrder(x.remote.rules))
  }

  function IngressChanges(picks: seq<IngressPick>): seq<IngressChange> {
    if picks == [] then [] else IngressChanges(picks[..|picks| - 1]) + [picks[|picks| - 1].change]
  }

  /** The routes the picks ask for, in order. */
  function RulesOf(picks: seq<IngressPick>): seq<Rule> {
    if picks == [] then []
    else
      var p := picks[|picks| - 1];
      RulesOf(picks[..|picks| - 1]) + if p.rule.Some? then [p.rule.value] else []
  }

  function IngressMarked(picks: seq<IngressPick>, m: Mark): set<string> {
    if picks == [] then {}
    else
      var p := picks[|picks| - 1];
      IngressMarked(picks[..|picks| - 1], m) + if p.mark == m then {p.host} else {}
  }

  // ---------------------------------------------------------------- DNS

  datatype DnsPick = DnsPick(host: string, change: DnsChange, mark: Mark)

  function Proxied(r: Record, default: bool): bool {
    if r.proxied.Some? then r.proxied.value else default
  }

  function Ttl(r: Record): int {
    if r.ttl.Some? then r.ttl.value else 1
  }

  function ActiveDns(x: Inputs, host: string): DnsChange {
    var target, tag := x.remote.target, Tag(x);
    match LastRecord(x.remote.records, host)
    case None => DnsChange(DCreate, host, None, Some(target), true, 1, Some(tag), Owned)
    case Some(r) =>
      var status := StatusOf(x, r, true);
      var claim := DnsChange(DUpdate, host, Some(r.id), Some(target), true, 1, Some(tag), status);
      var protect := DnsChange(DProtect, host, Some(r.id), Some(target), Proxied(r, false), Ttl(r), None, status);
      if status == Owned then
        if r.content == Some(target) && r.proxied == Some(true) && CommentText(r) == tag
        then claim.(action := DNoop)
        else claim
      else if status == Adopted && x.cfg.policy != StrictTaggedOnly then claim
      else protect
  }

  predicate Relevant(x: Inputs, r: Record) {
    TypeOf(r) == "CNAME" || x.cfg.tagPrefix <= CommentText(r)
  }

  /** SAFE-01: owned records, and under the legacy policy whatever seems to have been managed. */
  predicate Managed(x: Inputs, r: Record) {
    || StatusOf(x, r, false) == Owned
    || (&& x.cfg.policy == LegacyUnrestricted
        && (|| FirstRoot(x.remote.rules, r.name).Some?
            || r.name in x.tombstones
            || (x.cfg.immediate && r.content == Some(x.remote.target))))
  }

  function MissingDns(x: Inputs, r: Record): DnsPick {
    var status := StatusOf(x, r, false);
    var keep := DnsChange(DNoop, r.name, Some(r.id), r.content, Proxied(r, true), Ttl(r), Some(CommentText(r)), status);
    var drop := keep.(targetContent := None, targetComment := None);
    if !Managed(x, r) then DnsPick(r.name, drop.(action := DProtect), Unmarked)
    else if FateOf(x, r.name) == Remove then DnsPick(r.name, drop.(action := DDelete), MarkOf(x, r.name))
    else DnsPick(r.name, keep, MarkOf(x, r.name))
  }

  function ActiveDnsPicks(x: Inputs, hosts: seq<string>): seq<DnsPick> {
    if hosts == [] then []
    else
      var h := hosts[|hosts| - 1];
      ActiveDnsPicks(x, hosts[..|hosts| - 1]) + [DnsPick(h, ActiveDns(x, h), Unmarked)]
  }

  /** An absent record the planner looks at. */
  predicate Absent(x: Inputs, active: map<string, Origin>, r: Record) {
    r.name != "" && r.name !in active && Relevant(x, r)
  }

  function MissingDnsPicks(x: Inputs, active: map<string, Origin>, records: seq<Record>): seq<DnsPick> {
    if records == [] then []
    else
      var r := records[|records| - 1];
      MissingDnsPicks(x, active, records[..|records| - 1]) + if Absent(x, active, r) then [MissingDns(x, r)] else []
  }

  function DnsPicks(x: Inputs): seq<DnsPick> {
    var active := Active(x.snapshot.origins);
    ActiveDnsPicks(x, Sorted(active.Keys)) + MissingDnsPicks(x, active, x.remote.records)
  }

  function DnsChanges(picks: seq<DnsPick>): seq<DnsChange> {
    if picks == [] then [] else DnsChanges(picks[..|picks| - 1]) + [picks[|picks| - 1].change]
  }

  function DnsMarked(picks: seq<DnsPick>, m: Mark): set<string> {
    if picks == [] then {}
    else
      var p := picks[|picks| - 1];
      DnsMarked(picks[..|picks| - 1], m) + if p.mark == m then {p.host} else {}
  }

  // ---------------------------------------------------------------- the plan

  function CountIngress(changes: seq<IngressChange>, a: IngressAction): nat {
    if changes == [] then 0
    else CountIngress(changes[..|changes| - 1], a) + if changes[|changes| - 1].action == a then 1 else 0
  }

  function CountDns(changes: seq<DnsChange>, a: DnsAction): nat {
    if changes == [] then 0
    else CountDns(changes[..|changes| - 1], a) + if changes[|changes| - 1].action == a then 1 else 0
  }

  function CountSkipped(changes: seq<DnsChange>): nat {
    if changes == [] then 0
    else
      var c := changes[|changes| - 1];
      CountSkipped(changes[..|changes| - 1]) +
      if c.action == DProtect || c.status == Unmanaged || c.status == ForeignTunnel then 1 else 0
  }

  function SummaryOf(discovered: nat, ingress: seq<IngressChange>, dns: seq<DnsChange>): Summary {
    Summary(discovered,
            CountIngress(ingress, ICreate), CountIngress(ingress, IUpdate), CountIngress(ingress, IDelete),
            CountDns(dns, DCreate), CountDns(dns, DUpdate), CountDns(dns, DDelete), CountDns(dns, DProtect),
            CountSkipped(dns))
  }

  /** The routes the plan asks the merge for, by host. */
  function Desired(x: Inputs): map<string, Rule> {
    RulesNamed(x);
    Index(RulesOf(IngressPicks(x)))
  }

  function ToSet(x: Inputs): set<string> {
    IngressMarked(IngressPicks(x), SetMark) + DnsMarked(DnsPicks(x), SetMark)
  }

  function ToClear(x: Inputs): set<string> {
    IngressMarked(IngressPicks(x), ClearMark) + DnsMarked(DnsPicks(x), ClearMark)
  }

  function NormalPlan(x: Inputs): Plan {
    var ingress, dns := IngressChanges(IngressPicks(x)), DnsChanges(DnsPicks(x));
    Plan(x.cfg.dryRun, ingress, dns,
         Merge(x.remote.rules, Desired(x)),
         map h | h in ToSet(x) :: x.now,
         Sorted(ToClear(x)),
         SummaryOf(|x.snapshot.origins|, ingress, dns))
  }

  // Fail-closed plan for an untrusted Docker inventory (SAFE-02).

  function DegradedIngress(rules: seq<Rule>): seq<IngressChange> {
    if rules == [] then []
    else
      var r := rules[|rules| - 1];
      DegradedIngress(rules[..|rules| - 1]) +
      if r.service != NOT_FOUND.service
      then [IngressChange(INoop, Host(r), None, ServiceText(r), r.originRequest)] else []
  }

  function DegradedDns(x: Inputs, records: seq<Record>): seq<DnsChange> {
    if records == [] then []
    else
      var r := records[|records| - 1];
      DegradedDns(x, records[..|records| - 1]) +
      if r.name == "" then []
      else [DnsChange(DProtect, r.name, Some(r.id), r.content, Proxied(r, true), Ttl(r),
                      if r.comment.Written? then Some(r.comment.text) else None, StatusOf(x, r, false))]
  }

  function DegradedPlan(x: Inputs): Plan {
    var dns := DegradedDns(x, x.remote.records);
    Plan(x.cfg.dryRun, DegradedIngress(x.remote.rules), dns, x.remote.rules, map[], [],
         Summary(0, 0, 0, 0, 0, 0, 0, |dns|, |dns|))
  }

  function PlanOf(x: Inputs): Plan {
    if x.snapshot.dockerOk then NormalPlan(x) else DegradedPlan(x)
  }

  // ---------------------------------------------------------------- facts the definitions need

  lemma {:induction false} ActiveNamed(origins: seq<Origin>)
    ensures forall h :: h in Active(origins) ==>
            h != "" && Active(origins)[h].hostname == h && Active(origins)[h] in origins
    ensures forall o :: o in origins && o.hostname != "" ==> o.hostname in Active(origins)
  {
    if origins != [] {
      var init := origins[..|origins| - 1];
      ActiveNamed(init);
      assert origins == init + [origins[|origins| - 1]];
    }
  }

  lemma {:induction false} RootOrderRoots(rules: seq<Rule>)
    ensures forall r :: r in RootOrder(rules) ==> IsRoot(r)
  {
    if rules != [] { RootOrderRoots(rules[..|rules| - 1]); }
  }

  lemma {:induction false} RulesOfNamed(picks: seq<IngressPick>)
    requires forall p :: p in picks && p.rule.Some? ==> p.rule.value.hostname == Some(p.host)
    ensures forall r :: r in RulesOf(picks) ==> r.hostname.Some?
    ensures forall r :: r in RulesOf(picks) ==> exists p :: p in picks && p.rule == Some(r)
  {
    if picks != [] {
      var init := picks[..|picks| - 1];
      assert forall p :: p in init ==> p in picks;
      RulesOfNamed(init);
      assert picks[|picks| - 1] in picks;
    }
  }

  lemma {:induction false} ActivePicksAre(x: Inputs, active: map<string, Origin>, hosts: seq<string>)
    requires forall h :: h in hosts ==> h in active
    ensures |ActivePicks(x, active, hosts)| == |hosts|
    ensures forall i :: 0 <= i < |hosts| ==>
            ActivePicks(x, active, hosts)[i] == ActiveIngress(x, hosts[i], active[hosts[i]])
  {
    if hosts != [] { ActivePicksAre(x, active, hosts[..|hosts| - 1]); }
  }

  lemma {:induction false} MissingPicksAre(x: Inputs, active: map<string, Origin>, roots: seq<Rule>)
    ensures forall p :: p in MissingPicks(x, active, roots) ==>
              exists r :: r in roots && Host(r) !in active && p == MissingIngress(x, r)
    ensures forall r :: r in roots && Host(r) !in active ==> MissingIngress(x, r) in MissingPicks(x, active, roots)
  {
    if roots != [] {
      var init := roots[..|roots| - 1];
      MissingPicksAre(x, active, init);
      assert roots == init + [roots[|roots| - 1]];
    }
  }

  lemma RulesNamed(x: Inputs)
    ensures forall r :: r in RulesOf(IngressPicks(x)) ==> r.hostname.Some?
  {
    var active, roots := Active(x.snapshot.origins), RootOrder(x.remote.rules);
    var hosts := Sorted(active.Keys);
    SortedOrder(active.Keys);
    ActivePicksAre(x, active, hosts);
    MissingPicksAre(x, active, roots);
    RootOrderRoots(x.remote.rules);
    forall p | p in IngressPicks(x) && p.rule.Some? ensures p.rule.value.hostname == Some(p.host) {
      if p in MissingPicks(x, active, roots) {
        var r :| r in roots && Host(r) !in active && p == MissingIngress(x, r);
      } else {
        var i :| 0 <= i < |hosts| && p == ActivePicks(x, active, hosts)[i];
      }
    }
    RulesOfNamed(IngressPicks(x));
  }
}
