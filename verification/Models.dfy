/** Values exchanged by the planner and the executor, and the ownership classifier. */
module Models {
  import opened Text

  datatype Option<+T> = None | Some(value: T)

  /** A JSON value the controller carries around without looking inside. */
  datatype Json = Null | Bool(b: bool) | Number(n: int) | Text(s: string) | Array(items: seq<Json>)
      | Object(fields: map<string, Json>)

  /** The `originRequest` object of a route; `map[]` is the empty object. */
  type OriginRequest = map<string, Json>

  /** One ingress rule: a dictionary with four known keys, each possibly absent, and any others. */
  datatype Rule = Rule(
    hostname: Option<string>,
    path: Option<string>,
    service: Option<string>,
    originRequest: Option<OriginRequest>,
    extra: map<string, Json>)

  /** The raw `comment` of a DNS record: absent or null, a string, or some other JSON value. */
  datatype Comment = NoComment | Written(text: string) | NotText

  /** One DNS record. An absent, null or empty `name` is ""; the other options are absent keys. */
  datatype Record = Record(
    id: string,
    name: string,
    rtype: Option<string>,
    content: Option<string>,
    comment: Comment,
    proxied: Option<bool>,
    ttl: Option<int>)

  function TypeOf(r: Record): string {
    match r.rtype case None => "CNAME" case Some(t) => t
  }

  function CommentText(r: Record): string {
    match r.comment case Written(t) => Strip(t) case _ => ""
  }

  datatype OwnershipStatus = Owned | Adopted | Unmanaged | ForeignTunnel | Unrelated

  datatype OwnershipPolicy = AdoptAndManage | StrictTaggedOnly | LegacyUnrestricted

  datatype Tagging = Tagging(prefix: string, tunnelName: string) {

    function FormatComment(): string {
      prefix + tunnelName
    }

    function ParseStatus(r: Record, target: string, activeLocal: bool): OwnershipStatus {
      if TypeOf(r) != "CNAME" || r.content != Some(target) then Unrelated
      else if r.comment.NotText? then Unmanaged
      else
        var comment := CommentText(r);
        if comment == FormatComment() then Owned
        else if prefix <= comment then ForeignTunnel
        else if activeLocal then Adopted
        else Unmanaged
    }

    /** A record this controller may claim when adoption is allowed: it points here and bears no tag. */
    predicate Untagged(r: Record, target: string) {
      && TypeOf(r) == "CNAME" && r.content == Some(target)
      && !r.comment.NotText? && !(prefix <= CommentText(r))
    }
  }

  /** The five classes partition the records; only an untagged record depends on local activity. */
  lemma StatusExactly(t: Tagging, r: Record, target: string, active: bool)
    ensures var points := TypeOf(r) == "CNAME" && r.content == Some(target);
            var s := t.ParseStatus(r, target, active);
            && (s == Owned <==> points && !r.comment.NotText? && CommentText(r) == t.FormatComment())
            && (s == Unrelated <==> !points)
            && (s == ForeignTunnel <==>
                points && t.prefix <= CommentText(r) && CommentText(r) != t.FormatComment() && !r.comment.NotText?)
            && (s == Adopted <==> active && t.Untagged(r, target))
            && (s == Unmanaged <==> points && (r.comment.NotText? || (!active && t.Untagged(r, target))))
  {
    assert t.prefix <= t.FormatComment();
  }

  /** The tag written by one tunnel is foreign to every tunnel of another name. */
  lemma TagsSeparateTunnels(a: Tagging, b: Tagging, r: Record, target: string, active: bool)
    requires a.prefix == b.prefix && a.tunnelName != b.tunnelName
    requires a.ParseStatus(r, target, active) == Owned
    ensures b.ParseStatus(r, target, active) == ForeignTunnel
  {
    assert a.FormatComment()[|a.prefix|..] == a.tunnelName;
    assert b.FormatComment()[|b.prefix|..] == b.tunnelName;
  }

  /** A record rewritten with this tunnel's tag is recognised as owned, provided the tag survives stripping. */
  lemma WrittenTagIsOwned(t: Tagging, r: Record, target: string, active: bool)
    requires r.rtype == Some("CNAME") && r.content == Some(target)
    requires r.comment == Written(t.FormatComment())
    ensures t.ParseStatus(r, target, active) == Owned <==> Trimmed(t.FormatComment())
  {
    StripFixesTrimmed(t.FormatComment());
  }

  predicate HasHost(rule: Rule) {
    rule.hostname.Some? && rule.hostname.value != ""
  }

  predicate HasPath(rule: Rule) {
    rule.path.Some? && rule.path.value != ""
  }

  function Host(rule: Rule): string {
    if rule.hostname.Some? then rule.hostname.value else ""
  }

  /** A root route: a host name and no path. */
  predicate IsRoot(rule: Rule) {
    HasHost(rule) && !HasPath(rule)
  }

  function ServiceText(rule: Rule): string {
    if rule.service.Some? then rule.service.value else ""
  }

  /** The origin request of a rule; absent means empty. */
  function RequestOf(rule: Rule): OriginRequest {
    if rule.originRequest.Some? then rule.originRequest.value else map[]
  }

  /** The `originRequest` key as written by the controller: present only when it says something. */
  function RequestKey(q: OriginRequest): Option<OriginRequest> {
    if q == map[] then None else Some(q)
  }

  datatype Origin = Origin(hostname: string, service: string, originRequest: Option<OriginRequest>)

  datatype Snapshot = Snapshot(dockerOk: bool, origins: seq<Origin>)

  datatype Remote = Remote(tunnelName: string, target: string, rules: seq<Rule>, records: seq<Record>)

  datatype IngressAction = INoop | ICreate | IUpdate | IDelete

  datatype DnsAction = DNoop | DCreate | DUpdate | DDelete | DProtect

  datatype IngressChange = IngressChange(
    action: IngressAction, hostname: string, path: Option<string>, service: string,
        originRequest: Option<OriginRequest>)

  datatype DnsChange = DnsChange(
    action: DnsAction,
    hostname: string,
    recordId: Option<string>,
    targetContent: Option<string>,
    proxied: bool,
    ttl: int,
    targetComment: Option<string>,
    status: OwnershipStatus)

  datatype Summary = Summary(
    discovered: nat,
    ingressCreates: nat,
    ingressUpdates: nat,
    ingressDeletes: nat,
    dnsCreates: nat,
    dnsUpdates: nat,
    dnsDeletes: nat,
    dnsProtected: nat,
    unmanagedSkipped: nat)
  {
    predicate HasMutations() {
      ingressCreates + ingressUpdates + ingressDeletes + dnsCreates + dnsUpdates + dnsDeletes > 0
    }
  }

  datatype Plan = Plan(
    dryRun: bool,
    ingress: seq<IngressChange>,
    dns: seq<DnsChange>,
    finalRules: seq<Rule>,
    toSet: map<string, real>,
    toClear: seq<string>,
    summary: Summary)
}
