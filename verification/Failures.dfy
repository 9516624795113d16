/** What an execution reports: every attempt under its own name, failed exactly if its request was not reported done. */
module Failures {
  import opened Text
  import opened Models
  import opened Ingress
  import opened Planner
  import opened PlanFacts
  import opened Executor
  import opened Effects
  import opened Sync
  import opened Runs

  // ---------------------------------------------------------------- the log of a run

  /** What is logged for a step whose request, if it makes one, ends like this. */
  ghost predicate Reports(op: Operation, s: Step, outcome: Outcome) {
    match s
    case Shield(target) =>
      op.resource == DnsResource && op.verb == ProtectVerb && op.target == target && op.status == Skipped
    case Attempt(resource, verb, target, _) =>
      && op.resource == resource && op.verb == verb && op.target == target
      && (op.status == Succeeded <==> outcome.Done?)
      && (op.status == Failed <==> outcome.LostReply? || outcome.Refused?)
  }

  /** Without fail-fast there is one entry a step, in order. */
  lemma {:induction false} EveryStepIsReported(w: World, steps: seq<Step>, outcome: nat -> Outcome)
    ensures var ops := Run(w, steps, outcome, false).ops;
            |ops| == |steps| && forall k :: 0 <= k < |steps| ==> Reports(ops[k], steps[k], outcome(k))
  {
    if steps != [] {
      EveryStepIsReported(w, steps[..|steps| - 1], outcome);
      RunMakesEveryCall(w, steps[..|steps| - 1], outcome);
    }
  }

  /** Step k makes a request for this kind of resource, and the request is not reported done. */
  ghost predicate Fails(steps: seq<Step>, outcome: nat -> Outcome, resource: Resource, k: nat) {
    k < |steps| && steps[k].Attempt? && steps[k].resource == resource && !outcome(k).Done?
  }

  /** The log shows a failure for a kind of resource exactly if some request for it was not reported done. */
  lemma FailedExactly(w: World, steps: seq<Step>, outcome: nat -> Outcome, resource: Resource)
    ensures AnyFailed(Run(w, steps, outcome, false).ops, resource) <==>
            exists k: nat :: Fails(steps, outcome, resource, k)
  {
    var ops := Run(w, steps, outcome, false).ops;
    EveryStepIsReported(w, steps, outcome);
    if op :| op in ops && op.resource == resource && op.status == Failed {
      var k :| 0 <= k < |ops| && ops[k] == op;
      assert Reports(ops[k], steps[k], outcome(k));
      assert Fails(steps, outcome, resource, k);
    }
    if k: nat :| Fails(steps, outcome, resource, k) {
      assert Reports(ops[k], steps[k], outcome(k));
      assert ops[k] in ops;
    }
  }

  // ---------------------------------------------------------------- fail-fast

  /** The number of steps up to and including the first request that is not reported done. */
  ghost function UntilFailure(steps: seq<Step>, outcome: nat -> Outcome): (n: nat)
    ensures n <= |steps|
  {
    if steps == [] then 0
    else
      var k := |steps| - 1;
      var n := UntilFailure(steps[..k], outcome);
      if n < k || (k > 0 && steps[k - 1].Attempt? && !outcome(k - 1).Done?) then n else k + 1
  }

  lemma {:induction false} UntilFailureExactly(steps: seq<Step>, outcome: nat -> Outcome)
    ensures var n := UntilFailure(steps, outcome);
            && (forall k: nat :: k + 1 < n ==> !(steps[k].Attempt? && !outcome(k).Done?))
            && (n < |steps| ==> n > 0 && steps[n - 1].Attempt? && !outcome(n - 1).Done?)
  {
    if steps != [] {
      UntilFailureExactly(steps[..|steps| - 1], outcome);
    }
  }

  lemma {:induction false} StoppedExactly(w: World, steps: seq<Step>, outcome: nat -> Outcome)
    ensures Run(w, steps, outcome, true).stopped <==>
            exists k: nat :: k < |steps| && steps[k].Attempt? && !outcome(k).Done?
  {
    if steps != [] {
      var k, init := |steps| - 1, steps[..|steps| - 1];
      StoppedExactly(w, init, outcome);
      if i: nat :| i < |init| && init[i].Attempt? && !outcome(i).Done? { assert steps[i] == init[i]; }
      if i: nat :| i < |steps| && steps[i].Attempt? && !outcome(i).Done? {
        if i < k { assert init[i] == steps[i]; }
      }
    }
  }

  /** The report of a run, without its fail-fast mark. */
  ghost predicate SameReport(p: Progress, q: Progress) {
    p.world == q.world && p.calls == q.calls && p.ops == q.ops
  }

  lemma StopIsBefore(w: World, init: seq<Step>, outcome: nat -> Outcome)
    ensures var n, k := UntilFailure(init, outcome), |init|;
            Run(w, init, outcome, true).stopped <==> n < k || (k > 0 && init[k - 1].Attempt? && !outcome(k - 1).Done?)
  {
    UntilFailureExactly(init, outcome);
    StoppedExactly(w, init, outcome);
  }

  lemma StepAlike(p: Progress, q: Progress, s: Step, outcome: Outcome)
    requires SameReport(p, q) && !p.stopped && !q.stopped
    ensures SameReport(StepFrom(p, s, outcome, true), StepFrom(q, s, outcome, false))
  {
  }

  /** With fail-fast the run is the same up to the first request not reported done, and nothing after it. */
  lemma {:induction false} FailFastExactly(w: World, steps: seq<Step>, outcome: nat -> Outcome)
    ensures SameReport(Run(w, steps, outcome, true), Run(w, steps[..UntilFailure(steps, outcome)], outcome, false))
  {
    if steps == [] {
      assert steps[..0] == [];
    } else {
      var k, init := |steps| - 1, steps[..|steps| - 1];
      var n := UntilFailure(init, outcome);
      FailFastExactly(w, init, outcome);
      StopIsBefore(w, init, outcome);
      assert init[..n] == steps[..n];
      if UntilFailure(steps, outcome) == k + 1 {
        assert steps[..k + 1] == steps && init[..k] == init && n == k;
        RunMakesEveryCall(w, init, outcome);
        StepAlike(Run(w, init, outcome, true), Run(w, init, outcome, false), steps[k], outcome(k));
      }
    }
  }

  // ---------------------------------------------------------------- dry runs

  /** A dry run reports every planned change as skipped, under its own resource, name and verb, in order. */
  lemma {:induction false} DryIngressExactly(changes: seq<IngressChange>)
    ensures |DryIngress(changes)| == |changes|
    ensures forall i :: 0 <= i < |changes| ==>
              var op, c := DryIngress(changes)[i], changes[i];
              && op.resource == IngressResource && op.target == c.hostname && op.status == Skipped
              && (op.verb == NoopVerb <==> c.action == INoop) && (op.verb == CreateVerb <==> c.action == ICreate)
              && (op.verb == UpdateVerb <==> c.action == IUpdate) && (op.verb == DeleteVerb <==> c.action == IDelete)
  {
    if changes != [] { DryIngressExactly(changes[..|changes| - 1]); }
  }

  lemma {:induction false} DryDnsExactly(changes: seq<DnsChange>)
    ensures |DryDns(changes)| == |changes|
    ensures forall i :: 0 <= i < |changes| ==>
              var op, c := DryDns(changes)[i], changes[i];
              && op.resource == DnsResource && op.target == c.hostname && op.status == Skipped
              && (op.verb == NoopVerb <==> c.action == DNoop) && (op.verb == CreateVerb <==> c.action == DCreate)
              && (op.verb == UpdateVerb <==> c.action == DUpdate) && (op.verb == DeleteVerb <==> c.action == DDelete)
              && (op.verb == ProtectVerb <==> c.action == DProtect)
  {
    if changes != [] { DryDnsExactly(changes[..|changes| - 1]); }
  }

  // ---------------------------------------------------------------- cycles with failures

  /** Some request of the cycle is not reported done. */
  ghost predicate SomethingFails(x: Inputs, outcome: nat -> Outcome) {
    var steps := Steps(PlanOf(x), Some(x.remote.rules));
    exists k: nat :: k < |steps| && steps[k].Attempt? && !outcome(k).Done?
  }

  lemma NoFailureInLog(w: World, steps: seq<Step>, outcome: nat -> Outcome)
    ensures var ops := Run(w, steps, outcome, false).ops;
            AnyFailed(ops, IngressResource) || AnyFailed(ops, DnsResource) <==>
            exists k: nat :: k < |steps| && steps[k].Attempt? && !outcome(k).Done?
  {
    FailedExactly(w, steps, outcome, IngressResource);
    FailedExactly(w, steps, outcome, DnsResource);
    if k: nat :| k < |steps| && steps[k].Attempt? && !outcome(k).Done? {
      assert Fails(steps, outcome, IngressResource, k) || Fails(steps, outcome, DnsResource, k);
    }
    if k: nat :| Fails(steps, outcome, IngressResource, k) || Fails(steps, outcome, DnsResource, k) {}
  }

  /** A cycle goes through exactly if it is no dry run, the guard lets it pass, and every request is reported done. */
  lemma CompletesExactly(m: Memory, w: World, c: Cycle)
    ensures Completes(m, w, c) <==>
            && !c.settings.dryRun && !c.settings.deletion.Blocks(PlanOf(InputsOf(m, c)).summary)
            && !SomethingFails(InputsOf(m, c), c.outcome)
  {
    var x := InputsOf(m, c);
    NoFailureInLog(w, Steps(PlanOf(x), Some(x.remote.rules)), c.outcome);
  }

  /** Whatever fails in a cycle, no absent host loses its tombstone or its timestamp. */
  lemma FailureKeepsTombstones(m: Memory, w: World, c: Cycle, h: string)
    requires c.settings.dryRun || c.settings.deletion.Blocks(PlanOf(InputsOf(m, c)).summary)
             || SomethingFails(InputsOf(m, c), c.outcome)
    requires !IsActive(InputsOf(m, c), h) && h in m.tombstones
    ensures h in MemoryAfter(m, w, c).tombstones && MemoryAfter(m, w, c).tombstones[h] == m.tombstones[h]
  {
    CompletesExactly(m, w, c);
    TombstoneStep(m, w, c, h);
  }

  /** And if nothing fails, what was removed leaves no tombstone. */
  lemma SuccessClearsTombstones(m: Memory, w: World, c: Cycle, h: string)
    requires !c.settings.dryRun && !c.settings.deletion.Blocks(PlanOf(InputsOf(m, c)).summary)
    requires !SomethingFails(InputsOf(m, c), c.outcome)
    requires PlansDelete(InputsOf(m, c), h)
    ensures h !in MemoryAfter(m, w, c).tombstones
  {
    CompletesExactly(m, w, c);
    TombstoneStep(m, w, c, h);
    PlansDeleteExactly(InputsOf(m, c), h);
    SetExactly(InputsOf(m, c), h);
  }
}
