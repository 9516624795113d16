/** The deletion guard bounds what a normal execution can remove; a tripped guard or a blind plan removes nothing. */
module BlastRadius {
  import opened Text
  import opened Models
  import opened Ingress
  import opened MergeFacts
  import opened Planner
  import opened PlanFacts
  import opened PlanTheorems
  import opened Executor
  import opened Effects
  import opened Aftermath
  import opened Sync

  ghost function Deletes(calls: seq<Call>): nat {
    if calls == [] then 0
    else Deletes(calls[..|calls| - 1]) + if calls[|calls| - 1].DeleteDns? then 1 else 0
  }

  ghost function DeleteSteps(steps: seq<Step>): nat {
    if steps == [] then 0
    else
      var s := steps[|steps| - 1];
      DeleteSteps(steps[..|steps| - 1]) + if s.Attempt? && s.call.DeleteDns? then 1 else 0
  }

  lemma DeletesSnoc(calls: seq<Call>, c: Call)
    ensures Deletes(calls + [c]) == Deletes(calls) + if c.DeleteDns? then 1 else 0
  {
    assert (calls + [c])[..|calls|] == calls;
  }

  lemma {:induction false} DeletesWithinSteps(w: World, steps: seq<Step>, outcome: nat -> Outcome, failFast: bool)
    ensures Deletes(Run(w, steps, outcome, failFast).calls) <= DeleteSteps(steps)
    ensures !failFast ==> Deletes(Run(w, steps, outcome, failFast).calls) == DeleteSteps(steps)
    ensures !failFast ==> !Run(w, steps, outcome, failFast).stopped
  {
    if steps != [] {
      var s, init := steps[|steps| - 1], steps[..|steps| - 1];
      DeletesWithinSteps(w, init, outcome, failFast);
      if s.Attempt? { DeletesSnoc(Run(w, init, outcome, failFast).calls, s.call); }
    }
  }

  lemma DeleteStepsSnoc(steps: seq<Step>, s: Step)
    ensures DeleteSteps(steps + [s]) == DeleteSteps(steps) + if s.Attempt? && s.call.DeleteDns? then 1 else 0
  {
    assert (steps + [s])[..|steps|] == steps;
  }

  lemma {:induction false} StepsDeleteAsCounted(first: seq<Step>, changes: seq<DnsChange>)
    ensures DeleteSteps(first + DnsSteps(changes)) == DeleteSteps(first) + CountDns(changes, DDelete)
  {
    if changes == [] {
      assert first + DnsSteps(changes) == first;
    } else {
      var c, init := changes[|changes| - 1], changes[..|changes| - 1];
      StepsDeleteAsCounted(first, init);
      Regroup(first, DnsSteps(init), DnsStep(c));
      if c.action == DNoop {
        assert (first + DnsSteps(init)) + DnsStep(c) == first + DnsSteps(init);
      } else {
        assert DnsStep(c) == [DnsStep(c)[0]];
        DeleteStepsSnoc(first + DnsSteps(init), DnsStep(c)[0]);
      }
    }
  }

  /** The number of DELETE requests is the number announced (at most that many when fail-fast stops early). */
  lemma DeleteRequestsAsAnnounced(x: Inputs, w: World, current: Option<seq<Rule>>, outcome: nat -> Outcome,
      failFast: bool)
    requires x.snapshot.dockerOk
    ensures var n := Deletes(Run(w, Steps(PlanOf(x), current), outcome, failFast).calls);
            n <= PlanOf(x).summary.dnsDeletes && (!failFast ==> n == PlanOf(x).summary.dnsDeletes)
  {
    var plan := PlanOf(x);
    var first := IngressSteps(plan, current);
    DeletesWithinSteps(w, Steps(plan, current), outcome, failFast);
    StepsDeleteAsCounted(first, plan.dns);
    if first != [] {
      assert first == [] + [first[0]];
      DeleteStepsSnoc([], first[0]);
    }
  }

  /**
   * Blast radius: when the guard lets a planner's plan through without the mass-deletion override, at most
   * `maximum` records are deleted and at most `maximum` roots leave the rule list; with a share limit r,
   * deletions * (1 - r) <= r * discovered, so nothing at all is deleted when nothing was discovered and r < 1.
   */
  lemma NormalReturnIsBounded(x: Inputs, plan: Plan, policy: DeletionPolicy, end: Progress,
                              w: World, current: Option<seq<Rule>>, outcome: nat -> Outcome, failFast: bool)
    requires x.snapshot.dockerOk && plan == PlanOf(x)
    requires !policy.allowMass && !policy.Blocks(plan.summary)
    requires end == Run(w, Steps(plan, current), outcome, failFast)
    ensures Deletes(end.calls) <= policy.maximum
    ensures |RootHosts(x.remote.rules) - Desired(x).Keys| <= policy.maximum
    ensures |plan.finalRules| >= |x.remote.rules| - policy.maximum
    ensures WithinShare(policy, |x.snapshot.origins|, Deletes(end.calls))
    ensures WithinShare(policy, |x.snapshot.origins|, |RootHosts(x.remote.rules) - Desired(x).Keys|)
  {
    DeleteRequestsAsAnnounced(x, w, current, outcome, failFast);
    AnnouncedRoots(x, plan);
    assert plan.summary.discovered == |x.snapshot.origins|;
    ShareBounds(policy, plan.summary, Deletes(end.calls));
    ShareBounds(policy, plan.summary, plan.summary.ingressDeletes);
  }

  lemma AnnouncedRoots(x: Inputs, plan: Plan)
    requires x.snapshot.dockerOk && plan == PlanOf(x)
    ensures plan.summary.ingressDeletes == |RootHosts(x.remote.rules) - Desired(x).Keys|
    ensures |plan.finalRules| >= |x.remote.rules| - plan.summary.ingressDeletes
  {
    CreatesAndDeletes(x);
    RulesAreConserved(x);
  }

  ghost predicate WithinShare(policy: DeletionPolicy, discovered: nat, n: nat) {
    policy.ratio.Some? && 0.0 < policy.ratio.value < 1.0 ==>
      && n as real * (1.0 - policy.ratio.value) <= policy.ratio.value * discovered as real
      && (discovered == 0 ==> n == 0)
  }

  lemma ShareBounds(policy: DeletionPolicy, s: Summary, n: nat)
    requires n <= policy.Planned(s) && !policy.TooLargeAShare(s)
    ensures WithinShare(policy, s.discovered, n)
  {
    if policy.ratio.Some? && 0.0 < policy.ratio.value < 1.0 {
      var r := policy.ratio.value;
      ShareWithoutDivision(policy, s);
      SmallerShare(n as real, policy.Planned(s) as real, 1.0 - r, r * s.discovered as real);
    }
  }

  lemma SmallerShare(n: real, m: real, c: real, bound: real)
    requires 0.0 <= n <= m && 0.0 < c && m * c <= bound
    ensures n * c <= bound
    ensures bound == 0.0 ==> n == 0.0
  {
    Monotone(n, m, c);
    if n > 0.0 { Positive(n, c); }
  }

  lemma Monotone(a: real, b: real, c: real)
    requires a <= b && c >= 0.0
    ensures a * c <= b * c
  {
  }

  lemma Positive(a: real, b: real)
    requires a > 0.0 && b > 0.0
    ensures a * b > 0.0
  {
  }

  // ---------------------------------------------------------------- exactly when the guard trips

  lemma LargerShare(a: real, b: real, r: real, d: real)
    requires 0.0 <= a <= b && 0.0 < r && 0.0 <= d && a * (1.0 - r) > r * d
    ensures b * (1.0 - r) > r * d
  {
    Positives(r, d);
    if r >= 1.0 {
      Monotone(1.0 - r, 0.0, a);
    } else {
      Monotone(a, b, 1.0 - r);
    }
  }

  lemma Positives(a: real, b: real)
    requires a >= 0.0 && b >= 0.0
    ensures a * b >= 0.0
  {
  }

  /** One of the two announced numbers of deletions is too large a share of what they and the services add up to. */
  ghost predicate ShareExceeded(p: DeletionPolicy, s: Summary) {
    && p.ratio.Some? && p.ratio.value > 0.0
    && (|| s.ingressDeletes as real * (1.0 - p.ratio.value) > p.ratio.value * s.discovered as real
        || s.dnsDeletes as real * (1.0 - p.ratio.value) > p.ratio.value * s.discovered as real)
  }

  /**
   * The guard trips exactly if mass deletion is off and one of the two numbers of deletions exceeds the maximum or
   * the share.
   */
  lemma GuardTripsExactly(p: DeletionPolicy, s: Summary)
    ensures p.Blocks(s) <==>
            !p.allowMass && (s.ingressDeletes > p.maximum || s.dnsDeletes > p.maximum || ShareExceeded(p, s))
  {
    ShareWithoutDivision(p, s);
    if p.ratio.Some? && p.ratio.value > 0.0 {
      var i, n, r, d := s.ingressDeletes as real, s.dnsDeletes as real, p.ratio.value, s.discovered as real;
      if i <= n && i * (1.0 - r) > r * d { LargerShare(i, n, r, d); }
      if n <= i && n * (1.0 - r) > r * d { LargerShare(n, i, r, d); }
    }
  }

  // ---------------------------------------------------------------- requests as announced

  /** The requests of one kind: POST, PUT or DELETE of a record. */
  ghost function Requests(calls: seq<Call>, a: DnsAction): nat {
    if calls == [] then 0
    else
      var c := calls[|calls| - 1];
      Requests(calls[..|calls| - 1], a) +
      if (a == DCreate && c.PostDns?) || (a == DUpdate && c.PutDns?) || (a == DDelete && c.DeleteDns?) then 1 else 0
  }

  lemma RequestsSnoc(calls: seq<Call>, c: Call, a: DnsAction)
    ensures Requests(calls + [c], a) == Requests(calls, a) + Requests([c], a)
  {
    assert (calls + [c])[..|calls|] == calls && [c][..0] == [];
  }

  ghost predicate IsRequest(c: Call, a: DnsAction) {
    (a == DCreate && c.PostDns?) || (a == DUpdate && c.PutDns?) || (a == DDelete && c.DeleteDns?)
  }

  lemma OneRequest(c: Call, a: DnsAction)
    ensures Requests([c], a) == if IsRequest(c, a) then 1 else 0
  {
    assert [c][..0] == [];
  }

  lemma RequestOfChange(d: DnsChange, a: DnsAction)
    requires a == DCreate || a == DUpdate || a == DDelete
    ensures CallOf(d).Some? && IsRequest(CallOf(d).value, a) <==> d.action == a
  {
  }

  lemma CallsOfOne(before: seq<Step>, d: DnsChange)
    ensures CallsIn(before + DnsStep(d)) ==
            if CallOf(d).Some? then CallsIn(before) + [CallOf(d).value] else CallsIn(before)
  {
    if d.action == DNoop {
      assert before + DnsStep(d) == before;
    } else {
      assert DnsStep(d) == [DnsStep(d)[0]];
      StepCall(d);
      CallsInSnoc(before, DnsStep(d)[0]);
    }
  }

  lemma OneStepRequests(before: seq<Step>, d: DnsChange, a: DnsAction)
    requires a == DCreate || a == DUpdate || a == DDelete
    ensures Requests(CallsIn(before + DnsStep(d)), a) == Requests(CallsIn(before), a) + if d.action == a then 1 else 0
  {
    CallsOfOne(before, d);
    RequestOfChange(d, a);
    if CallOf(d).Some? {
      RequestsSnoc(CallsIn(before), CallOf(d).value, a);
      OneRequest(CallOf(d).value, a);
    }
  }

  lemma OneMoreChange(first: seq<Step>, changes: seq<DnsChange>)
    requires changes != []
    ensures first + DnsSteps(changes) ==
            (first + DnsSteps(changes[..|changes| - 1])) + DnsStep(changes[|changes| - 1])
  {
    Regroup(first, DnsSteps(changes[..|changes| - 1]), DnsStep(changes[|changes| - 1]));
  }

  lemma OneMoreCounted(changes: seq<DnsChange>, a: DnsAction)
    requires changes != []
    ensures CountDns(changes, a) ==
            CountDns(changes[..|changes| - 1], a) + if changes[|changes| - 1].action == a then 1 else 0
  {
  }

  lemma {:induction false} StepsRequestAsCounted(first: seq<Step>, changes: seq<DnsChange>, a: DnsAction)
    requires a == DCreate || a == DUpdate || a == DDelete
    ensures Requests(CallsIn(first + DnsSteps(changes)), a) == Requests(CallsIn(first), a) + CountDns(changes, a)
  {
    if changes == [] {
      assert first + DnsSteps(changes) == first;
    } else {
      var d, init := changes[|changes| - 1], changes[..|changes| - 1];
      var before := first + DnsSteps(init);
      StepsRequestAsCounted(first, init, a);
      OneMoreChange(first, changes);
      OneMoreCounted(changes, a);
      OneStepRequests(before, d, a);
    }
  }

  lemma CallOfPut(put: Step)
    requires put.Attempt?
    ensures CallsIn([put]) == [put.call]
  {
    CallsInSnoc([], put);
    assert [] + [put] == [put] && [] + [put.call] == [put.call];
  }

  lemma NoRecordFirst(plan: Plan, rules: seq<Rule>, a: DnsAction)
    ensures Requests(CallsIn(IngressSteps(plan, Some(rules))), a) == 0
  {
    if IngressDue(plan, Some(rules)) {
      CallOfPut(IngressSteps(plan, Some(rules))[0]);
      OneRequest(PutIngress(plan.finalRules), a);
    }
  }

  /** As many POST, PUT and DELETE requests for records as creations, updates and deletions were announced. */
  lemma RequestsAsAnnounced(x: Inputs, w: World, outcome: nat -> Outcome)
    requires x.snapshot.dockerOk
    ensures var calls, s := Run(w, Steps(PlanOf(x), Some(x.remote.rules)), outcome, false).calls, PlanOf(x).summary;
            && Requests(calls, DCreate) == s.dnsCreates
            && Requests(calls, DUpdate) == s.dnsUpdates
            && Requests(calls, DDelete) == s.dnsDeletes
  {
    var plan, rules := PlanOf(x), x.remote.rules;
    RunMakesEveryCall(w, Steps(plan, Some(rules)), outcome);
    forall a | a == DCreate || a == DUpdate || a == DDelete
      ensures Requests(CallsIn(Steps(plan, Some(rules))), a) == CountDns(plan.dns, a)
    {
      StepsRequestAsCounted(IngressSteps(plan, Some(rules)), plan.dns, a);
      NoRecordFirst(plan, rules, a);
    }
  }

  /** A live cycle within both limits makes every request of its plan, whatever becomes of each. */
  lemma WithinLimitsEverythingIsTried(m: Memory, w: World, c: Cycle)
    requires !c.settings.dryRun
    requires var p, s := c.settings.deletion, PlanOf(InputsOf(m, c)).summary;
             p.allowMass || (s.ingressDeletes <= p.maximum && s.dnsDeletes <= p.maximum && !ShareExceeded(p, s))
    ensures var x := InputsOf(m, c);
            var end := Run(w, Steps(PlanOf(x), Some(x.remote.rules)), c.outcome, false);
            && end.calls == CallsIn(Steps(PlanOf(x), Some(x.remote.rules)))
            && WorldAfter(m, w, c) == end.world
  {
    var x := InputsOf(m, c);
    GuardTripsExactly(c.settings.deletion, PlanOf(x).summary);
    RunMakesEveryCall(w, Steps(PlanOf(x), Some(x.remote.rules)), c.outcome);
  }

  // ---------------------------------------------------------------- plans that cannot touch anything

  lemma {:induction false} NoAttemptNoEffect(w: World, steps: seq<Step>, outcome: nat -> Outcome, failFast: bool)
    requires forall s :: s in steps ==> s.Shield?
    ensures var end := Run(w, steps, outcome, failFast); end.world == w && end.calls == []
  {
    if steps != [] {
      assert steps[|steps| - 1] in steps;
      NoAttemptNoEffect(w, steps[..|steps| - 1], outcome, failFast);
    }
  }

  lemma {:induction false} OnlyProtectionShields(changes: seq<DnsChange>)
    requires forall c :: c in changes ==> c.action == DProtect || c.action == DNoop
    ensures forall s :: s in DnsSteps(changes) ==> s.Shield?
  {
    if changes != [] {
      assert changes[|changes| - 1] in changes;
      OnlyProtectionShields(changes[..|changes| - 1]);
    }
  }

  lemma {:induction false} DegradedOnlyProtects(x: Inputs, records: seq<Record>)
    ensures forall c :: c in DegradedDns(x, records) ==> c.action == DProtect
  {
    if records != [] { DegradedOnlyProtects(x, records[..|records| - 1]); }
  }

  /** Fail-closed: with a degraded Docker inventory the plan makes no request at all. */
  lemma BlindPlanIsInert(x: Inputs, w: World, outcome: nat -> Outcome, failFast: bool)
    requires !x.snapshot.dockerOk
    ensures var end := Run(w, Steps(PlanOf(x), Some(x.remote.rules)), outcome, failFast);
            end.world == w && end.calls == []
  {
    DegradedOnlyProtects(x, x.remote.records);
    OnlyProtectionShields(PlanOf(x).dns);
    assert IngressSteps(PlanOf(x), Some(x.remote.rules)) == [];
    assert Steps(PlanOf(x), Some(x.remote.rules)) == DnsSteps(PlanOf(x).dns);
    NoAttemptNoEffect(w, DnsSteps(PlanOf(x).dns), outcome, failFast);
  }
}
