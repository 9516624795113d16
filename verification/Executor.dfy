/** The mutation workflow: the blast-radius guard, then one API call per planned change, surviving failures. */
module Executor {
  import opened Text
  import opened Models
  import opened Ingress

  // ---------------------------------------------------------------- the server

  datatype World = World(ingress: seq<Rule>, records: seq<Record>)

  datatype Body = Body(name: string, content: Option<string>, proxied: bool, ttl: int, comment: Option<string>)

  datatype Call =
    | PutIngress(rules: seq<Rule>)
    | PostDns(body: Body)
    | PutDns(id: string, body: Body)
    | DeleteDns(id: string)

  /** How an API call ends. A lost reply is an error for the caller although the server did the work. */
  datatype Outcome = Done(newId: string) | LostReply(newId: string) | Refused

  function Stored(id: string, b: Body): Record {
    Record(id, b.name, Some("CNAME"), b.content, if b.comment.Some? then Written(b.comment.value) else NoComment,
           Some(b.proxied), Some(b.ttl))
  }

  function Replace(records: seq<Record>, id: string, b: Body): seq<Record> {
    if records == [] then []
    else
      var r := records[|records| - 1];
      Replace(records[..|records| - 1], id, b) + [if r.id == id then Stored(id, b) else r]
  }

  function Remove(records: seq<Record>, id: string): seq<Record> {
    if records == [] then []
    else
      var r := records[|records| - 1];
      var rest := Remove(records[..|records| - 1], id);
      if r.id == id then rest else rest + [r]
  }

  function Effect(w: World, call: Call, newId: string): World {
    match call
    case PutIngress(rules) => w.(ingress := rules)
    case PostDns(b) => w.(records := w.records + [Stored(newId, b)])
    case PutDns(id, b) => w.(records := Replace(w.records, id, b))
    case DeleteDns(id) => w.(records := Remove(w.records, id))
  }

  function Apply(w: World, call: Call, outcome: Outcome): World {
    if outcome.Refused? then w else Effect(w, call, outcome.newId)
  }

  // ---------------------------------------------------------------- the guard

  datatype DeletionPolicy = DeletionPolicy(maximum: int, ratio: Option<real>, allowMass: bool) {

    function Planned(s: Summary): nat {
      if s.ingressDeletes > s.dnsDeletes then s.ingressDeletes else s.dnsDeletes
    }

    predicate TooMany(s: Summary) {
      Planned(s) > maximum
    }

    predicate TooLargeAShare(s: Summary) {
      var total := s.discovered + Planned(s);
      ratio.Some? && ratio.value > 0.0 && total != 0 && Planned(s) as real / total as real > ratio.value
    }

    /** The guard trips. */
    predicate Blocks(s: Summary) {
      !allowMass && (TooMany(s) || TooLargeAShare(s))
    }
  }

  /** The share limit without the division: deletions times (1 - r) at most r times the discovered services. */
  lemma ShareWithoutDivision(p: DeletionPolicy, s: Summary)
    ensures p.TooLargeAShare(s) <==>
            p.ratio.Some? && p.ratio.value > 0.0
                && p.Planned(s) as real * (1.0 - p.ratio.value) > p.ratio.value * s.discovered as real
  {
    if p.ratio.Some? && p.ratio.value > 0.0 {
      var r, n, d := p.ratio.value, p.Planned(s) as real, s.discovered as real;
      var total := n + d;
      assert total == (s.discovered + p.Planned(s)) as real;
      assert n * (1.0 - r) > r * d <==> n > r * total;
      if total > 0.0 {
        DivideBoth(n, r, total);
      }
    }
  }

  lemma DivideBoth(n: real, r: real, total: real)
    requires total > 0.0
    ensures n / total > r <==> n > r * total
  {
    assert n == n / total * total;
    if n / total > r { assert n / total * total > r * total; }
    if n / total <= r { assert n / total * total <= r * total; }
  }

  // ---------------------------------------------------------------- what will be attempted

  datatype Resource = IngressResource | DnsResource

  datatype Verb = UpdateVerb | CreateVerb | DeleteVerb | ProtectVerb | NoopVerb

  datatype Status = Succeeded | Failed | Skipped

  datatype Operation = Operation(resource: Resource, verb: Verb, target: string, status: Status)

  datatype Step =
    | Attempt(resource: Resource, verb: Verb, target: string, call: Call)
    | Shield(target: string)

  function BodyOf(c: DnsChange): Body {
    Body(c.hostname, c.targetContent, c.proxied, c.ttl,
         if c.targetComment.Some? && c.targetComment.value != "" then c.targetComment else None)
  }

  function IdOf(c: DnsChange): string {
    if c.recordId.Some? then c.recordId.value else ""
  }

  function DnsStep(c: DnsChange): seq<Step> {
    match c.action
    case DProtect => [Shield(c.hostname)]
    case DNoop => []
    case DDelete => [Attempt(DnsResource, DeleteVerb, c.hostname, DeleteDns(IdOf(c)))]
    case DUpdate => [Attempt(DnsResource, UpdateVerb, c.hostname, PutDns(IdOf(c), BodyOf(c)))]
    case DCreate => [Attempt(DnsResource, CreateVerb, c.hostname, PostDns(BodyOf(c)))]
  }

  function DnsSteps(changes: seq<DnsChange>): seq<Step> {
    if changes == [] then []
    else DnsSteps(changes[..|changes| - 1]) + DnsStep(changes[|changes| - 1])
  }

  /** Whether a PUT is due: compare with the configuration just read, or trust the summary without one. */
  predicate IngressDue(plan: Plan, current: Option<seq<Rule>>) {
    match current
    case Some(rules) => rules != plan.finalRules
    case None => plan.summary.ingressCreates + plan.summary.ingressUpdates + plan.summary.ingressDeletes > 0
  }

  function IngressSteps(plan: Plan, current: Option<seq<Rule>>): seq<Step> {
    if IngressDue(plan, current)
    then [Attempt(IngressResource, UpdateVerb, "ingress", PutIngress(plan.finalRules))] else []
  }

  function Steps(plan: Plan, current: Option<seq<Rule>>): seq<Step> {
    IngressSteps(plan, current) + DnsSteps(plan.dns)
  }

  // ---------------------------------------------------------------- running the steps

  /** Where a run stands: the server, the calls made, the recorded operations, and whether fail-fast stopped it. */
  datatype Progress = Progress(world: World, calls: seq<Call>, ops: seq<Operation>, stopped: bool)

  function StepFrom(p: Progress, s: Step, outcome: Outcome, failFast: bool): Progress {
    if p.stopped then p
    else
      match s
      case Shield(target) => p.(ops := p.ops + [Operation(DnsResource, ProtectVerb, target, Skipped)])
      case Attempt(resource, verb, target, call) =>
        Progress(Apply(p.world, call, outcome),
                 p.calls + [call],
                 p.ops + [Operation(resource, verb, target, if outcome.Done? then Succeeded else Failed)],
                 failFast && !outcome.Done?)
  }

  /** The outcome of step k is whatever the environment chooses. */
  function Run(w: World, steps: seq<Step>, outcome: nat -> Outcome, failFast: bool): Progress {
    if steps == [] then Progress(w, [], [], false)
    else StepFrom(Run(w, steps[..|steps| - 1], outcome, failFast), steps[|steps| - 1], outcome(|steps| - 1), failFast)
  }

  lemma RunSnoc(w: World, steps: seq<Step>, s: Step, outcome: nat -> Outcome, failFast: bool)
    ensures Run(w, steps + [s], outcome, failFast) ==
            StepFrom(Run(w, steps, outcome, failFast), s, outcome(|steps|), failFast)
  {
    assert (steps + [s])[..|steps|] == steps;
  }

  function DnsStepFrom(p: Progress, c: DnsChange, outcome: Outcome, failFast: bool): Progress {
    if c.action == DNoop then p else StepFrom(p, DnsStep(c)[0], outcome, failFast)
  }

  lemma RunDnsStep(w: World, steps: seq<Step>, c: DnsChange, outcome: nat -> Outcome, failFast: bool)
    ensures Run(w, steps + DnsStep(c), outcome, failFast) ==
            DnsStepFrom(Run(w, steps, outcome, failFast), c, outcome(|steps|), failFast)
  {
    if c.action == DNoop {
      assert steps + DnsStep(c) == steps;
    } else {
      RunSnoc(w, steps, DnsStep(c)[0], outcome, failFast);
      assert DnsStep(c) == [DnsStep(c)[0]];
    }
  }

  function DryIngress(changes: seq<IngressChange>): seq<Operation> {
    if changes == [] then []
    else
      var c := changes[|changes| - 1];
      var verb := match c.action case INoop => NoopVerb case ICreate => CreateVerb case IUpdate => UpdateVerb
          case IDelete => DeleteVerb;
      DryIngress(changes[..|changes| - 1]) + [Operation(IngressResource, verb, c.hostname, Skipped)]
  }

  function DryDns(changes: seq<DnsChange>): seq<Operation> {
    if changes == [] then []
    else
      var c := changes[|changes| - 1];
      var verb :=
        match c.action
        case DNoop => NoopVerb case DCreate => CreateVerb case DUpdate => UpdateVerb case DDelete => DeleteVerb
            case DProtect => ProtectVerb;
      DryDns(changes[..|changes| - 1]) + [Operation(DnsResource, verb, c.hostname, Skipped)]
  }

  datatype Execution = GuardTripped | Finished(ops: seq<Operation>, stopped: bool)

  /** Some attempted operation on this kind of resource was reported as failed. */
  predicate AnyFailed(ops: seq<Operation>, resource: Resource) {
    exists op :: op in ops && op.resource == resource && op.status == Failed
  }

  class ChangeExecutor {
    /** The server as the writer leaves it, and the calls and operations of the current execution. */
    var world: World
    var calls: seq<Call>
    var ops: seq<Operation>

    constructor (w: World)
      ensures world == w && calls == [] && ops == []
    {
      world, calls, ops := w, [], [];
    }

    ghost function Now(stopped: bool): Progress
      reads this
    {
      Progress(world, calls, ops, stopped)
    }

    /** One HTTP request through the writer, and its recorded result. */
    method Try(resource: Resource, verb: Verb, target: string, call: Call, outcome: Outcome, failFast: bool)
        returns (stop: bool)
      modifies this
      ensures Now(stop) == StepFrom(old(Now(false)), Attempt(resource, verb, target, call), outcome, failFast)
    {
      calls := calls + [call];
      if !outcome.Refused? {
        world := Effect(world, call, outcome.newId);
      }
      ops := ops + [Operation(resource, verb, target, if outcome.Done? then Succeeded else Failed)];
      stop := failFast && !outcome.Done?;
    }

    /** One planned DNS change. */
    method Perform(change: DnsChange, outcome: Outcome, failFast: bool) returns (stop: bool)
      modifies this
      ensures Now(stop) == DnsStepFrom(old(Now(false)), change, outcome, failFast)
    {
      stop := false;
      match change.action {
        case DNoop =>
        case DProtect =>
          ops := ops + [Operation(DnsResource, ProtectVerb, change.hostname, Skipped)];
        case DDelete =>
          stop := Try(DnsResource, DeleteVerb, change.hostname, DeleteDns(IdOf(change)), outcome, failFast);
        case DUpdate =>
          stop := Try(DnsResource, UpdateVerb, change.hostname, PutDns(IdOf(change), BodyOf(change)), outcome,
              failFast);
        case DCreate =>
          stop := Try(DnsResource, CreateVerb, change.hostname, PostDns(BodyOf(change)), outcome, failFast);
      }
    }

    /** The loop over the planned DNS changes, continuing a run that has made its first steps. */
    method PerformAll(changes: seq<DnsChange>, outcome: nat -> Outcome, failFast: bool, stopped: bool, start: nat,
                      ghost w: World, ghost first: seq<Step>)
      returns (stop: bool)
      requires start == |first| && Now(stopped) == Run(w, first, outcome, failFast)
      modifies this
      ensures Now(stop) == Run(w, first + DnsSteps(changes), outcome, failFast)
    {
      stop := stopped;
      var k := start;
      assert first + DnsSteps(changes[..0]) == first;
      for i := 0 to |changes|
        invariant k == |first + DnsSteps(changes[..i])|
        invariant Now(stop) == Run(w, first + DnsSteps(changes[..i]), outcome, failFast)
      {
        var change := changes[i];
        assert changes[..i + 1][..i] == changes[..i];
        Regroup(first, DnsSteps(changes[..i]), DnsStep(change));
        RunDnsStep(w, first + DnsSteps(changes[..i]), change, outcome, failFast);
        if !stop {
          stop := Perform(change, outcome(k), failFast);
        }
        if change.action != DNoop { k := k + 1; }
      }
      assert changes[..|changes|] == changes;
    }

    method Execute(plan: Plan, policy: DeletionPolicy, current: Option<seq<Rule>>, dryRun: bool, failFast: bool,
                   outcome: nat -> Outcome)
      returns (result: Execution)
      modifies this
      ensures dryRun || plan.dryRun ==>
                && result == Finished(DryIngress(plan.ingress) + DryDns(plan.dns), false)
                && world == old(world) && calls == []
      ensures !(dryRun || plan.dryRun) && policy.Blocks(plan.summary) ==>
                result == GuardTripped && world == old(world) && calls == []
      ensures !(dryRun || plan.dryRun) && !policy.Blocks(plan.summary) ==>
                var end := Run(old(world), Steps(plan, current), outcome, failFast);
                result == Finished(end.ops, end.stopped) && world == end.world && calls == end.calls
    {
      calls, ops := [], [];
      if dryRun || plan.dryRun {
        var skipped := SkipAll(plan);
        return Finished(skipped, false);
      }
      if policy.Blocks(plan.summary) {
        return GuardTripped;
      }
      var stopped := false;
      ghost var first := IngressSteps(plan, current);
      ghost var start := world;
      if IngressDue(plan, current) {
        RunSnoc(world, [], first[0], outcome, failFast);
        assert [] + [first[0]] == first;
        stopped := Try(IngressResource, UpdateVerb, "ingress", PutIngress(plan.finalRules), outcome(0), failFast);
      }
      var k := if IngressDue(plan, current) then 1 else 0;
      stopped := PerformAll(plan.dns, outcome, failFast, stopped, k, start, first);
      result := Finished(ops, stopped);
    }

    static method SkipAll(plan: Plan) returns (ops: seq<Operation>)
      ensures ops == DryIngress(plan.ingress) + DryDns(plan.dns)
    {
      ops := [];
      for i := 0 to |plan.ingress|
        invariant ops == DryIngress(plan.ingress[..i])
      {
        assert plan.ingress[..i + 1][..i] == plan.ingress[..i];
        var verb := match plan.ingress[i].action case INoop => NoopVerb case ICreate => CreateVerb
            case IUpdate => UpdateVerb case IDelete => DeleteVerb;
        ops := ops + [Operation(IngressResource, verb, plan.ingress[i].hostname, Skipped)];
      }
      assert plan.ingress[..|plan.ingress|] == plan.ingress;
      var dns: seq<Operation> := [];
      for i := 0 to |plan.dns|
        invariant dns == DryDns(plan.dns[..i])
      {
        assert plan.dns[..i + 1][..i] == plan.dns[..i];
        var verb :=
          match plan.dns[i].action
          case DNoop => NoopVerb case DCreate => CreateVerb case DUpdate => UpdateVerb case DDelete => DeleteVerb
              case DProtect => ProtectVerb;
        dns := dns + [Operation(DnsResource, verb, plan.dns[i].hostname, Skipped)];
      }
      assert plan.dns[..|plan.dns|] == plan.dns;
      ops := ops + dns;
    }
  }
}
