/** One synchronization cycle: guard against sudden drops, plan, keep tombstones, execute, clear tombstones. */
module Sync {
  import opened Text
  import opened Models
  import opened Ingress
  import opened Planner
  import opened PlannerLoops
  import opened Executor

  const TAG_PREFIX := "cf-tunnel-sync:"

  datatype Settings = Settings(
    policy: OwnershipPolicy,
    grace: real,
    immediate: bool,
    dryRun: bool,
    preserveManualRoots: bool,
    deletion: DeletionPolicy)

  /** What one cycle is given: settings, discovered services, remote state as read, clock, and API outcomes. */
  datatype Cycle = Cycle(settings: Settings, services: seq<Origin>, remote: Remote, now: real, outcome: nat -> Outcome)

  /** What the controller remembers between cycles: tombstones, and how many services it last discovered. */
  datatype Memory = Memory(tombstones: map<string, real>, discovered: nat)

  /** SAFE-02: at least two services became none. */
  predicate SuddenDrop(m: Memory, c: Cycle) {
    m.discovered >= 2 && |c.services| == 0
  }

  function Longer(a: real, b: real): real {
    if a > b then a else b
  }

  function ConfigOf(m: Memory, c: Cycle): Config {
    var s := c.settings;
    if SuddenDrop(m, c)
    then Config(s.policy, Longer(s.grace, 300.0), s.dryRun, false, TAG_PREFIX, s.preserveManualRoots)
    else Config(s.policy, s.grace, s.dryRun, s.immediate, TAG_PREFIX, s.preserveManualRoots)
  }

  function InputsOf(m: Memory, c: Cycle): Inputs {
    Inputs(Snapshot(true, c.services), c.remote, m.tombstones, c.now, ConfigOf(m, c))
  }

  /** The host names discovered. */
  function Hostnames(origins: seq<Origin>): set<string> {
    set o | o in origins :: o.hostname
  }

  /** Tombstones after planning: recovered hosts leave, newly absent ones enter. */
  function Buried(x: Inputs): map<string, real> {
    var plan := PlanOf(x);
    var cleared := set h | h in plan.toClear && h in Hostnames(x.snapshot.origins);
    plan.toSet + (x.tombstones - cleared)
  }

  /** The execution ended with every attempted operation reported as done. */
  predicate Clean(result: Execution) {
    result.Finished? && !AnyFailed(result.ops, IngressResource) && !AnyFailed(result.ops, DnsResource)
  }

  function ResultOf(plan: Plan, policy: DeletionPolicy, end: Progress): Execution {
    if policy.Blocks(plan.summary) then GuardTripped else Finished(end.ops, end.stopped)
  }

  function ProgressOf(x: Inputs, w: World, outcome: nat -> Outcome): Progress {
    Run(w, Steps(PlanOf(x), Some(x.remote.rules)), outcome, false)
  }

  /** The cycle got through: no dry run, no guard, no failed operation. */
  predicate Completes(m: Memory, w: World, c: Cycle) {
    var x := InputsOf(m, c);
    !c.settings.dryRun && Clean(ResultOf(PlanOf(x), c.settings.deletion, ProgressOf(x, w, c.outcome)))
  }

  function MemoryAfter(m: Memory, w: World, c: Cycle): Memory {
    var x := InputsOf(m, c);
    var kept := if Completes(m, w, c) then Buried(x) - Elements(PlanOf(x).toClear) else Buried(x);
    Memory(kept, |c.services|)
  }

  function Elements(hosts: seq<string>): set<string> {
    set h | h in hosts
  }

  function WorldAfter(m: Memory, w: World, c: Cycle): World {
    var x := InputsOf(m, c);
    if c.settings.dryRun || c.settings.deletion.Blocks(PlanOf(x).summary) then w
    else ProgressOf(x, w, c.outcome).world
  }

  lemma PlanKeepsDryRun(x: Inputs)
    ensures PlanOf(x).dryRun == x.cfg.dryRun
  {
  }

  lemma DryCycle(m: Memory, w: World, c: Cycle)
    requires c.settings.dryRun
    ensures MemoryAfter(m, w, c) == Memory(Buried(InputsOf(m, c)), |c.services|) && WorldAfter(m, w, c) == w
  {
  }

  lemma LiveCycle(m: Memory, w: World, c: Cycle, x: Inputs, result: Execution)
    requires !c.settings.dryRun && x == InputsOf(m, c)
    requires result == ResultOf(PlanOf(x), c.settings.deletion, ProgressOf(x, w, c.outcome))
    ensures MemoryAfter(m, w, c) ==
            Memory(if Clean(result) then Buried(x) - Elements(PlanOf(x).toClear) else Buried(x), |c.services|)
    ensures WorldAfter(m, w, c) == if result.GuardTripped? then w else ProgressOf(x, w, c.outcome).world
  {
  }

  class SyncService {
    var tombstones: map<string, real>
    var discovered: nat
    const executor: ChangeExecutor

    constructor (executor: ChangeExecutor)
      ensures this.executor == executor && Recall() == Memory(map[], 0)
    {
      this.executor := executor;
      tombstones, discovered := map[], 0;
    }

    ghost function Recall(): Memory
      reads this
    {
      Memory(tombstones, discovered)
    }

    /** Discovery succeeded but reading Cloudflare failed: only the service list is remembered. */
    method AbandonAfterDiscovery(services: seq<Origin>)
      modifies this
      ensures Recall() == old(Recall()).(discovered := |services|)
    {
      discovered := |services|;
    }

    /** A cycle, from planning to its end. */
    method RunOnce(c: Cycle)
      modifies this, executor
      ensures Recall() == MemoryAfter(old(Recall()), old(executor.world), c)
      ensures executor.world == WorldAfter(old(Recall()), old(executor.world), c)
    {
      ghost var before, start := Recall(), executor.world;
      var previous := discovered;
      discovered := |c.services|;
      var s := c.settings;
      var immediate, grace := s.immediate, s.grace;
      if previous >= 2 && |c.services| == 0 {
        immediate := false;
        grace := if grace > 300.0 then grace else 300.0;
      }
      var cfg := Config(s.policy, grace, s.dryRun, immediate, TAG_PREFIX, s.preserveManualRoots);
      var x := Inputs(Snapshot(true, c.services), c.remote, tombstones, c.now, cfg);
      assert x == InputsOf(before, c);
      var plan := ComputeChangePlan(x);
      PlanKeepsDryRun(x);
      BuryAndRecover(plan, c.services);
      assert tombstones == Buried(x);
      if s.dryRun {
        DryCycle(before, start, c);
        return;
      }
      var result := executor.Execute(plan, s.deletion, Some(c.remote.rules), false, false, c.outcome);
      LiveCycle(before, start, c, x, result);
      if result.Finished? && !AnyFailed(result.ops, IngressResource) && !AnyFailed(result.ops, DnsResource) {
        Forget(plan.toClear);
      }
    }

    method BuryAndRecover(plan: Plan, services: seq<Origin>)
      modifies this`tombstones
      ensures tombstones ==
              plan.toSet + (old(tombstones) - set h | h in plan.toClear && h in Hostnames(services))
    {
      ghost var start := tombstones;
      for i := 0 to |plan.toClear|
        invariant tombstones == start - set h | h in plan.toClear[..i] && h in Hostnames(services)
      {
        var host := plan.toClear[i];
        assert plan.toClear[..i + 1] == plan.toClear[..i] + [host];
        if host in tombstones && host in Hostnames(services) {
          tombstones := tombstones - {host};
        }
      }
      assert plan.toClear[..|plan.toClear|] == plan.toClear;
      ghost var base := tombstones;
      var todo := plan.toSet.Keys;
      while todo != {}
        invariant todo <= plan.toSet.Keys
        invariant tombstones == (plan.toSet - todo) + base
      {
        var host :| host in todo;
        todo := todo - {host};
        if host !in tombstones {
          tombstones := tombstones[host := plan.toSet[host]];
        }
      }
    }

    /** Drop the tombstones of these hosts, if they have any. */
    method Forget(hosts: seq<string>)
      modifies this`tombstones
      ensures tombstones == old(tombstones) - Elements(hosts)
    {
      ghost var start := tombstones;
      for i := 0 to |hosts|
        invariant tombstones == start - Elements(hosts[..i])
      {
        assert hosts[..i + 1] == hosts[..i] + [hosts[i]];
        tombstones := tombstones - {hosts[i]};
      }
      assert hosts[..|hosts|] == hosts;
    }
  }
}
