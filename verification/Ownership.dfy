/**
 * Ownership: which records a controller can touch, over whole runs in which several controllers share a zone,
 * first with whole cycles taking turns, then with their requests interleaved one by one from stale plans.
 */
module Ownership {
  import opened Text
  import opened Models
  import opened Ingress
  import opened Planner
  import opened PlanFacts
  import opened Executor
  import opened Effects
  import opened Aftermath
  import opened Fixpoint
  import opened Sync
  import opened MergeFacts
  import opened Convergence

  // ---------------------------------------------------------------- what one plan can touch

  /**
   * This plan's controller must leave the record alone: it points elsewhere, its comment cannot be read, it bears
   * another tunnel's tag, or it bears none and the policy is strict or the host is not served here.
   */
  ghost predicate OffLimits(x: Inputs, r: Record) {
    || !(TypeOf(r) == "CNAME" && r.content == Some(x.remote.target))
    || r.comment.NotText?
    || (x.cfg.tagPrefix <= CommentText(r) && CommentText(r) != Tag(x))
    || (Tagger(x).Untagged(r, x.remote.target) && (x.cfg.policy == StrictTaggedOnly || !IsActive(x, r.name)))
  }

  /** In terms of the classifier. */
  lemma OffLimitsExactly(x: Inputs, r: Record)
    ensures OffLimits(x, r) <==>
            && StatusOf(x, r, true) != Owned
            && (StatusOf(x, r, true) == Adopted && IsActive(x, r.name) ==> x.cfg.policy == StrictTaggedOnly)
  {
    StatusExactly(Tagger(x), r, x.remote.target, true);
    assert Tagger(x).prefix <= Tag(x);
  }

  lemma ClaimsWithinLimits(x: Inputs, r: Record)
    requires Claimed(x, r)
    ensures !OffLimits(x, r)
  {
    OffLimitsExactly(x, r);
  }

  lemma DropsWithinLimits(x: Inputs, r: Record)
    requires x.cfg.policy != LegacyUnrestricted && Dropped(x, r)
    ensures !OffLimits(x, r)
  {
    OffLimitsExactly(x, r);
    StatusExactly(Tagger(x), r, x.remote.target, true);
    StatusExactly(Tagger(x), r, x.remote.target, false);
  }

  /** A plan made from (part of) the zone: tagging is on, and the legacy policy is not used. */
  ghost predicate Reads(x: Inputs, zone: seq<Record>) {
    && x.snapshot.dockerOk && x.cfg.tagPrefix == TAG_PREFIX && x.cfg.policy != LegacyUnrestricted
    && forall r :: r in x.remote.records ==> r in zone
  }

  function CallsOf(x: Inputs): seq<Call> {
    CallsIn(Steps(PlanOf(x), Some(x.remote.rules)))
  }

  /** The record behind any rewrite or deletion was fetched, and was within limits. */
  lemma MentionsWithinLimits(x: Inputs, zone: seq<Record>, c: Call, r: Record)
    requires DistinctIds(zone) && Reads(x, zone)
    requires c in CallsOf(x) && Mentions(c, r.id) && r in zone
    ensures !OffLimits(x, r) && r in x.remote.records
    ensures c.PutDns? ==> c.body.content == Some(x.remote.target)
  {
    MentionedIsFetched(x, c);
    var q :| q in x.remote.records && q.id == c.id;
    MentionIsItsVerdict(x, r, c);
    if Claimed(x, r) { ClaimsWithinLimits(x, r); } else { DropsWithinLimits(x, r); }
  }

  // ---------------------------------------------------------------- what one call can touch

  /** The identifier a call brings into the zone, if it creates a record. */
  ghost predicate FreshFor(c: Call, newId: string, used: set<string>) {
    c.PostDns? ==> newId !in used
  }

  /** The identifiers in the zone are all known, and name one record each. */
  ghost predicate Sound(zone: seq<Record>, used: set<string>) {
    DistinctIds(zone) && forall r :: r in zone ==> r.id in used
  }

  ghost function UsedAfter(used: set<string>, c: Call, outcome: Outcome): set<string> {
    if c.PostDns? && !outcome.Refused? then used + {outcome.newId} else used
  }

  lemma CallKeepsSound(w: World, c: Call, outcome: Outcome, used: set<string>)
    requires Sound(w.records, used) && (!outcome.Refused? ==> FreshFor(c, outcome.newId, used))
    ensures Sound(Apply(w, c, outcome).records, UsedAfter(used, c, outcome))
  {
    var after := Apply(w, c, outcome).records;
    forall r | r in after ensures r.id in UsedAfter(used, c, outcome) { CallOrigins(w, c, outcome, r); }
    forall a, b | a in after && b in after && a.id == b.id ensures a == b {
      CallOrigins(w, c, outcome, a);
      CallOrigins(w, c, outcome, b);
    }
  }

  // ---------------------------------------------------------------- cycles taking turns

  /** Every creation in this run gets an identifier the zone does not hold at that moment. */
  ghost predicate NewIds(w: World, steps: seq<Step>, outcome: nat -> Outcome) {
    forall k: nat :: k < |steps| && steps[k].Attempt? && !outcome(k).Refused? ==>
      FreshFor(steps[k].call, outcome(k).newId, Ids(Run(w, steps[..k], outcome, false).world.records))
  }

  ghost function Ids(zone: seq<Record>): set<string> {
    set r | r in zone :: r.id
  }

  lemma {:induction false} RunKeepsOthers(w: World, steps: seq<Step>, outcome: nat -> Outcome, r: Record)
    requires r in w.records && forall c :: c in CallsIn(steps) ==> !Mentions(c, r.id)
    ensures r in Run(w, steps, outcome, false).world.records
  {
    if steps != [] {
      var s, init := steps[|steps| - 1], steps[..|steps| - 1];
      CallsInPrefix(steps);
      RunKeepsOthers(w, init, outcome, r);
      if s.Attempt? {
        assert s.call in CallsIn(steps);
        CallKeepsOthers(Run(w, init, outcome, false).world, s.call, outcome(|init|), r);
      }
    }
  }

  lemma {:induction false} RunKeepsDistinct(w: World, steps: seq<Step>, outcome: nat -> Outcome)
    requires DistinctIds(w.records) && NewIds(w, steps, outcome)
    ensures DistinctIds(Run(w, steps, outcome, false).world.records)
  {
    if steps != [] {
      var k := |steps| - 1;
      var s, init := steps[k], steps[..k];
      forall i: nat | i < k ensures steps[..i] == init[..i] {}
      assert NewIds(w, init, outcome);
      RunKeepsDistinct(w, init, outcome);
      RunMakesEveryCall(w, init, outcome);
      if s.Attempt? {
        var before := Run(w, init, outcome, false).world;
        CallKeepsSound(before, s.call, outcome(k), Ids(before.records));
      }
    }
  }

  /** One controller's turn: any memory, any cycle, any API outcomes. */
  datatype Turn = Turn(memory: Memory, cycle: Cycle)

  ghost function TurnInputs(t: Turn): Inputs {
    InputsOf(t.memory, t.cycle)
  }

  ghost function ZoneAfter(w: World, turns: seq<Turn>): World {
    if turns == [] then w
    else
      var t := turns[|turns| - 1];
      WorldAfter(t.memory, ZoneAfter(w, turns[..|turns| - 1]), t.cycle)
  }

  /** Each turn reads part of the zone as it then is; the server hands out new identifiers. */
  ghost predicate Fair(w: World, turns: seq<Turn>) {
    turns == [] ||
    var before, t := ZoneAfter(w, turns[..|turns| - 1]), turns[|turns| - 1];
    && Fair(w, turns[..|turns| - 1])
    && Reads(TurnInputs(t), before.records)
    && NewIds(before, Steps(PlanOf(TurnInputs(t)), Some(t.cycle.remote.rules)), t.cycle.outcome)
  }

  lemma TurnKeepsDistinct(t: Turn, w: World)
    requires DistinctIds(w.records) && Reads(TurnInputs(t), w.records)
    requires NewIds(w, Steps(PlanOf(TurnInputs(t)), Some(t.cycle.remote.rules)), t.cycle.outcome)
    ensures DistinctIds(WorldAfter(t.memory, w, t.cycle).records)
  {
    RunKeepsDistinct(w, Steps(PlanOf(TurnInputs(t)), Some(t.cycle.remote.rules)), t.cycle.outcome);
  }

  lemma TurnKeepsOffLimits(t: Turn, w: World, r: Record)
    requires DistinctIds(w.records) && Reads(TurnInputs(t), w.records)
    requires r in w.records && OffLimits(TurnInputs(t), r)
    ensures r in WorldAfter(t.memory, w, t.cycle).records
  {
    var x := TurnInputs(t);
    forall c | c in CallsOf(x) ensures !Mentions(c, r.id) {
      if Mentions(c, r.id) { MentionsWithinLimits(x, w.records, c, r); }
    }
    RunKeepsOthers(w, Steps(PlanOf(x), Some(x.remote.rules)), t.cycle.outcome, r);
  }

  /**
   * Ownership safety over every run: under the adopt and strict policies, for any snapshots, clocks, memories
   * and failures, a record that is off limits to every turn's controller is still there, unchanged and alone
   * under its identifier.
   */
  lemma {:induction false} OffLimitsIsNeverTouched(w: World, turns: seq<Turn>, r: Record)
    requires DistinctIds(w.records) && Fair(w, turns) && r in w.records
    requires forall t :: t in turns ==> OffLimits(TurnInputs(t), r)
    ensures r in ZoneAfter(w, turns).records && DistinctIds(ZoneAfter(w, turns).records)
  {
    if turns != [] {
      var t, init := turns[|turns| - 1], turns[..|turns| - 1];
      assert t in turns;
      OffLimitsIsNeverTouched(w, init, r);
      TurnKeepsOffLimits(t, ZoneAfter(w, init), r);
      TurnKeepsDistinct(t, ZoneAfter(w, init));
    }
  }

  /**
   * Controllers of differently named tunnels never modify each other's records, even when both names
   * stand for the same tunnel target.
   */
  lemma OthersLeaveOurRecords(w: World, turns: seq<Turn>, owner: Tagging, target: string, r: Record)
    requires DistinctIds(w.records) && Fair(w, turns) && r in w.records
    requires owner.prefix == TAG_PREFIX && owner.ParseStatus(r, target, false) == Owned
    requires forall t :: t in turns ==> t.cycle.remote.tunnelName != owner.tunnelName
    ensures r in ZoneAfter(w, turns).records
  {
    forall t | t in turns ensures OffLimits(TurnInputs(t), r) {
      StatusExactly(owner, r, target, false);
      StatusExactly(owner, r, target, true);
      if t.cycle.remote.target == target { TagsSeparateTunnels(owner, Tagger(TurnInputs(t)), r, target, true); }
      OffLimitsExactly(TurnInputs(t), r);
    }
    OffLimitsIsNeverTouched(w, turns, r);
  }

  // ---------------------------------------------------------------- requests interleaved, plans stale

  /** The zone, the requests each controller (by tunnel name) has yet to send, and every identifier ever used. */
  datatype Shared = Shared(world: World, queues: map<string, seq<Call>>, used: set<string>)

  datatype Move =
    | Plans(x: Inputs)
    | Sends(who: string, outcome: Outcome)
    | GivesUp(who: string)

  /** Controller `who` works for the tunnel at `targets[who]`. */
  ghost predicate Enabled(s: Shared, m: Move, targets: map<string, string>) {
    match m
    case Plans(x) => x.remote.tunnelName in targets && x.remote.target == targets[x.remote.tunnelName]
        && Reads(x, s.world.records)
    case Sends(who, outcome) =>
      && who in s.queues && s.queues[who] != []
      && (!outcome.Refused? ==> FreshFor(s.queues[who][0], outcome.newId, s.used))
    case GivesUp(who) => true
  }

  ghost function Moved(s: Shared, m: Move): Shared {
    match m
    case Plans(x) => s.(queues := s.queues[x.remote.tunnelName := CallsOf(x)])
    case Sends(who, outcome) =>
      if who in s.queues && s.queues[who] != [] then
        var c := s.queues[who][0];
        Shared(Apply(s.world, c, outcome), s.queues[who := s.queues[who][1..]], UsedAfter(s.used, c, outcome))
      else s
    case GivesUp(who) => s.(queues := s.queues - {who})
  }

  ghost function Reached(s: Shared, moves: seq<Move>): Shared {
    if moves == [] then s else Moved(Reached(s, moves[..|moves| - 1]), moves[|moves| - 1])
  }

  ghost predicate Possible(s: Shared, moves: seq<Move>, targets: map<string, string>) {
    moves == [] ||
    (Possible(s, moves[..|moves| - 1], targets)
     && Enabled(Reached(s, moves[..|moves| - 1]), moves[|moves| - 1], targets))
  }

  /** A queued request stays at home: it rewrites, deletes or creates only records of its own tunnel. */
  ghost predicate AtHome(c: Call, target: string, zone: seq<Record>, used: set<string>) {
    && (c.PutDns? || c.PostDns? ==> c.body.content == Some(target))
    && (c.PutDns? || c.DeleteDns? ==> c.id in used && forall r :: r in zone && r.id == c.id ==>
        r.content == Some(target))
  }

  ghost predicate Orderly(s: Shared, targets: map<string, string>) {
    && Sound(s.world.records, s.used)
    && forall who, c :: who in s.queues && c in s.queues[who] ==>
         who in targets && AtHome(c, targets[who], s.world.records, s.used)
  }

  ghost predicate TunnelsDiffer(targets: map<string, string>) {
    forall a, b :: a in targets && b in targets && a != b ==> targets[a] != targets[b]
  }

  lemma CreationsAtHome(x: Inputs, c: Call)
    requires x.snapshot.dockerOk && Tag(x) != "" && c in CallsOf(x) && c.PostDns?
    ensures c.body.content == Some(x.remote.target)
  {
    CallsExactly(PlanOf(x), Some(x.remote.rules), c);
    var d :| d in PlanOf(x).dns && CallOf(d) == Some(c);
    CreationOf(x, d);
  }

  lemma PlannedAtHome(x: Inputs, zone: seq<Record>, used: set<string>, c: Call)
    requires Sound(zone, used) && Reads(x, zone) && c in CallsOf(x)
    ensures AtHome(c, x.remote.target, zone, used)
  {
    if c.PostDns? { CreationsAtHome(x, c); }
    if c.PutDns? || c.DeleteDns? {
      MentionedIsFetched(x, c);
      var q :| q in x.remote.records && q.id == c.id;
      MentionsWithinLimits(x, zone, c, q);
    }
  }

  /** A request of one tunnel does not disturb what another's queued request relies on. */
  lemma StillAtHome(w: World, c: Call, home: string, outcome: Outcome, used: set<string>, d: Call, away: string)
    requires AtHome(c, home, w.records, used) && AtHome(d, away, w.records, used)
    requires !outcome.Refused? ==> FreshFor(c, outcome.newId, used)
    requires Sound(w.records, used)
    ensures AtHome(d, away, Apply(w, c, outcome).records, UsedAfter(used, c, outcome))
  {
    if d.PutDns? || d.DeleteDns? {
      forall r | r in Apply(w, c, outcome).records && r.id == d.id ensures r.content == Some(away) {
        CallOrigins(w, c, outcome, r);
      }
    }
  }

  lemma SendKeepsOrder(s: Shared, who: string, outcome: Outcome, targets: map<string, string>)
    requires Orderly(s, targets) && Enabled(s, Sends(who, outcome), targets)
    ensures Orderly(Moved(s, Sends(who, outcome)), targets)
  {
    var c, s' := s.queues[who][0], Moved(s, Sends(who, outcome));
    assert c in s.queues[who];
    CallKeepsSound(s.world, c, outcome, s.used);
    forall other, d | other in s'.queues && d in s'.queues[other]
      ensures other in targets && AtHome(d, targets[other], s'.world.records, s'.used)
    {
      assert d in s.queues[other];
      StillAtHome(s.world, c, targets[who], outcome, s.used, d, targets[other]);
    }
  }

  lemma MoveKeepsOrder(s: Shared, m: Move, targets: map<string, string>)
    requires Orderly(s, targets) && Enabled(s, m, targets)
    ensures Orderly(Moved(s, m), targets)
  {
    match m
    case Plans(x) =>
      forall c | c in CallsOf(x) ensures AtHome(c, x.remote.target, s.world.records, s.used) {
        PlannedAtHome(x, s.world.records, s.used, c);
      }
    case Sends(who, outcome) => SendKeepsOrder(s, who, outcome, targets);
    case GivesUp(_) =>
  }

  /** Through any interleaving of plans, requests and failures, queued requests stay at home. */
  lemma {:induction false} AlwaysOrderly(s: Shared, moves: seq<Move>, targets: map<string, string>)
    requires Orderly(s, targets) && Possible(s, moves, targets)
    ensures Orderly(Reached(s, moves), targets)
  {
    if moves != [] {
      AlwaysOrderly(s, moves[..|moves| - 1], targets);
      MoveKeepsOrder(Reached(s, moves[..|moves| - 1]), moves[|moves| - 1], targets);
    }
  }

  /** Only the controller of its own tunnel, sending a request, moves a record. */
  lemma MoveStaysHome(s: Shared, m: Move, targets: map<string, string>, r: Record)
    requires Orderly(s, targets) && Enabled(s, m, targets) && r in s.world.records
    requires m.Sends? ==> m.who in targets && r.content != Some(targets[m.who])
    ensures r in Moved(s, m).world.records
  {
    if m.Sends? {
      var c := s.queues[m.who][0];
      assert c in s.queues[m.who];
      CallKeepsOthers(s.world, c, m.outcome, r);
    }
  }

  /**
   * Ownership without turns: controllers of distinct tunnels plan from arbitrarily old readings and send their
   * requests in any interleaving, with any failures; whatever happened before, a record pointing to one tunnel
   * is not rewritten or deleted by the next request of another's controller.
   */
  lemma StalePlansStayHome(s: Shared, moves: seq<Move>, m: Move, targets: map<string, string>, owner: string, r: Record)
    requires Orderly(s, targets) && Possible(s, moves + [m], targets) && TunnelsDiffer(targets)
    requires owner in targets && r in Reached(s, moves).world.records && r.content == Some(targets[owner])
    requires m.Sends? ==> m.who != owner
    ensures r in Reached(s, moves + [m]).world.records
  {
    var now := Reached(s, moves);
    assert (moves + [m])[..|moves|] == moves;
    AlwaysOrderly(s, moves, targets);
    if m.Sends? { assert now.queues[m.who][0] in now.queues[m.who]; }
    MoveStaysHome(now, m, targets, r);
  }

  // ---------------------------------------------------------------- two names for one tunnel

  /** A record that points to the tunnel and bears no tag. */
  function Unclaimed(h: string, target: string): Record {
    Record("1", h, None, Some(target), NoComment, Some(true), Some(1))
  }

  /** A controller of this name that discovers the host and reads the unclaimed record. */
  function Rival(name: string, h: string, target: string): Inputs {
    Inputs(Snapshot(true, [Origin(h, "http://app", None)]), Remote(name, target, [NOT_FOUND], [Unclaimed(h, target)]),
           map[], 0.0, Config(AdoptAndManage, 300.0, false, false, TAG_PREFIX, false))
  }

  /** One active host with one record: one DNS change. */
  lemma OneChange(x: Inputs, h: string, r: Record)
    requires Active(x.snapshot.origins).Keys == {h} && x.remote.records == [r] && r.name == h
    ensures DnsChanges(DnsPicks(x)) == [ActiveDns(x, h)]
  {
    var active := Active(x.snapshot.origins);
    var p := DnsPick(h, ActiveDns(x, h), Unmarked);
    SortedOrder({h});
    assert Sorted({h}) == [h];
    assert ActiveDnsPicks(x, [h]) == ActiveDnsPicks(x, [h][..0]) + [p];
    assert MissingDnsPicks(x, active, [r]) == MissingDnsPicks(x, active, [r][..0]);
    assert DnsPicks(x) == [p];
    assert DnsChanges([p]) == DnsChanges([p][..0]) + [p.change];
  }

  lemma TwoCalls(plan: Plan, rules: seq<Rule>, d: DnsChange)
    requires plan.dns == [d] && d.action == DUpdate && plan.finalRules != rules
    ensures CallsIn(Steps(plan, Some(rules))) == [PutIngress(plan.finalRules), PutDns(IdOf(d), BodyOf(d))]
  {
    var put := IngressSteps(plan, Some(rules))[0];
    assert DnsSteps([d]) == DnsSteps([d][..0]) + DnsStep(d);
    assert Steps(plan, Some(rules)) == ([] + [put]) + [DnsStep(d)[0]];
    CallsInSnoc([], put);
    CallsInSnoc([] + [put], DnsStep(d)[0]);
  }

  lemma RivalIsActive(name: string, h: string, target: string)
    requires h != ""
    ensures Active(Rival(name, h, target).snapshot.origins).Keys == {h}
  {
    var origins := Rival(name, h, target).snapshot.origins;
    ActiveNamed(origins);
    assert origins[0].hostname in Active(origins);
  }

  function Claim(name: string, h: string, target: string): Body {
    Body(h, Some(target), true, 1, Some(TAG_PREFIX + name))
  }

  lemma RivalClaims(name: string, h: string, target: string)
    requires h != ""
    ensures var d := ActiveDns(Rival(name, h, target), h);
            d.action == DUpdate && IdOf(d) == "1" && BodyOf(d) == Claim(name, h, target)
  {
    var r := Unclaimed(h, target);
    assert CommentText(r) == "";
    assert LastRecord([r], h) == Some(r);
  }

  lemma RivalRoutes(x: Inputs, h: string)
    requires x.snapshot.dockerOk && x.remote.rules == [NOT_FOUND] && IsActive(x, h)
    ensures PlanOf(x).finalRules != [NOT_FOUND]
  {
    DesiredRoots(x);
    DesiredExactly(x, h);
    MergeReaches(x.remote.rules, Desired(x), h);
    assert FirstRoot([NOT_FOUND], h) == FirstRoot([NOT_FOUND][1..], h) == None;
  }

  lemma RivalCalls(name: string, h: string, target: string)
    requires h != ""
    ensures exists rules :: CallsOf(Rival(name, h, target)) == [PutIngress(rules), PutDns("1", Claim(name, h, target))]
  {
    var x := Rival(name, h, target);
    RivalIsActive(name, h, target);
    RivalClaims(name, h, target);
    RivalRoutes(x, h);
    OneChange(x, h, Unclaimed(h, target));
    TwoCalls(PlanOf(x), [NOT_FOUND], ActiveDns(x, h));
  }

  lemma OneMove(s: Shared, moves: seq<Move>, m: Move, targets: map<string, string>)
    requires Possible(s, moves, targets) && Enabled(Reached(s, moves), m, targets)
    ensures Possible(s, moves + [m], targets) && Reached(s, moves + [m]) == Moved(Reached(s, moves), m)
  {
    assert (moves + [m])[..|moves|] == moves;
  }

  /** This controller's PUT and its claim of the record are still to be sent. */
  ghost predicate Waits(s: Shared, who: string, b: Body) {
    who in s.queues && exists rules :: s.queues[who] == [PutIngress(rules), PutDns("1", b)]
  }

  ghost predicate AboutToClaim(s: Shared, who: string, b: Body) {
    who in s.queues && s.queues[who] == [PutDns("1", b)]
  }

  /** Planning afresh leaves the other controllers' requests waiting. */
  lemma PlanKeepsWaiting(s: Shared, x: Inputs, o: string, d: Body)
    requires o != x.remote.tunnelName
    ensures Waits(s, o, d) ==> Waits(Moved(s, Plans(x)), o, d)
  {
  }

  lemma RivalPlans(s: Shared, moves: seq<Move>, name: string, h: string, targets: map<string, string>)
    requires name in targets && h != "" && Possible(s, moves, targets)
    requires Reached(s, moves).world.records == [Unclaimed(h, targets[name])]
    ensures var x := Rival(name, h, targets[name]);
            && Possible(s, moves + [Plans(x)], targets)
            && Reached(s, moves + [Plans(x)]) == Moved(Reached(s, moves), Plans(x))
            && Waits(Reached(s, moves + [Plans(x)]), name, Claim(name, h, targets[name]))
  {
    var x := Rival(name, h, targets[name]);
    RivalCalls(name, h, targets[name]);
    OneMove(s, moves, Plans(x), targets);
  }

  /** The rules of the waiting PUT reach the server; the other controllers' requests keep waiting. */
  lemma PutSent(s: Shared, moves: seq<Move>, who: string, b: Body, o: string, d: Body, targets: map<string, string>)
    returns (moves': seq<Move>)
    requires Possible(s, moves, targets) && Waits(Reached(s, moves), who, b)
    ensures Possible(s, moves', targets) && AboutToClaim(Reached(s, moves'), who, b)
    ensures Reached(s, moves').world.records == Reached(s, moves).world.records
    ensures o != who && Waits(Reached(s, moves), o, d) ==> Waits(Reached(s, moves'), o, d)
  {
    var m := Sends(who, Done("2"));
    OneMove(s, moves, m, targets);
    moves' := moves + [m];
  }

  lemma ClaimSent(s: Shared, moves: seq<Move>, who: string, b: Body, r: Record, o: string, d: Body,
      targets: map<string, string>)
    requires Possible(s, moves, targets) && AboutToClaim(Reached(s, moves), who, b)
    requires Reached(s, moves).world.records == [r] && r.id == "1"
    ensures var moves' := moves + [Sends(who, Done("2"))];
            && Possible(s, moves', targets) && Reached(s, moves').world.records == [Stored("1", b)]
            && (o != who && Waits(Reached(s, moves), o, d) ==> Waits(Reached(s, moves'), o, d))
  {
    OneMove(s, moves, Sends(who, Done("2")), targets);
    assert Replace([r], "1", b) == Replace([r][..0], "1", b) + [Stored("1", b)];
  }

  lemma ClaimOwned(name: string, h: string, target: string)
    requires Trimmed(name)
    ensures Tagging(TAG_PREFIX, name).ParseStatus(Stored("1", Claim(name, h, target)), target, false) == Owned
  {
    TrimmedAfterPrefix(name);
    WrittenTagIsOwned(Tagging(TAG_PREFIX, name), Stored("1", Claim(name, h, target)), target, false);
  }

  /** A request of another controller takes away a record its owner's tag was on. */
  ghost predicate Takeover(s: Shared, moves: seq<Move>, m: Move, targets: map<string, string>, owner: string,
      r: Record) {
    && Orderly(s, targets) && Possible(s, moves + [m], targets) && m.Sends? && m.who != owner
    && owner in targets && r in Reached(s, moves).world.records
    && Tagging(TAG_PREFIX, owner).ParseStatus(r, targets[owner], false) == Owned
    && r !in Reached(s, moves + [m]).world.records
  }

  lemma ClaimsDiffer(a: string, b: string, h: string, target: string)
    requires a != b
    ensures Stored("1", Claim(a, h, target)) != Stored("1", Claim(b, h, target))
  {
    assert (TAG_PREFIX + a)[|TAG_PREFIX|..] == a && (TAG_PREFIX + b)[|TAG_PREFIX|..] == b;
  }

  /** Before either controller has planned. */
  function BeforeRace(h: string, target: string): Shared {
    Shared(World([NOT_FOUND], [Unclaimed(h, target)]), map[], {"1"})
  }

  lemma RaceStartsOrderly(h: string, target: string, targets: map<string, string>)
    ensures Orderly(BeforeRace(h, target), targets)
  {
  }

  lemma BothPlan(s: Shared, targets: map<string, string>, a: string, b: string, h: string) returns (moves: seq<Move>)
    requires a in targets && b in targets && a != b && targets[a] == targets[b] && h != ""
    requires s == BeforeRace(h, targets[a])
    ensures Possible(s, moves, targets) && Reached(s, moves).world.records == [Unclaimed(h, targets[a])]
    ensures Waits(Reached(s, moves), a, Claim(a, h, targets[a])) && Waits(Reached(s, moves), b, Claim(b, h, targets[a]))
  {
    var x, y := Rival(a, h, targets[a]), Rival(b, h, targets[b]);
    RivalPlans(s, [], a, h, targets);
    RivalPlans(s, [] + [Plans(x)], b, h, targets);
    PlanKeepsWaiting(Reached(s, [] + [Plans(x)]), y, a, Claim(a, h, targets[a]));
    moves := [] + [Plans(x)] + [Plans(y)];
  }

  /** The first controller claims the record while the second waits. */
  lemma FirstClaims(s: Shared, moves: seq<Move>, a: string, c: Body, b: string, d: Body, r: Record,
      targets: map<string, string>)
    returns (moves': seq<Move>)
    requires Possible(s, moves, targets) && a != b && Waits(Reached(s, moves), a, c) && Waits(Reached(s, moves), b, d)
    requires Reached(s, moves).world.records == [r] && r.id == "1"
    ensures Possible(s, moves', targets) && Waits(Reached(s, moves'), b, d)
    ensures Reached(s, moves').world.records == [Stored("1", c)]
  {
    moves' := PutSent(s, moves, a, c, b, d, targets);
    ClaimSent(s, moves', a, c, r, b, d, targets);
    moves' := moves' + [Sends(a, Done("2"))];
  }

  /** The second sends its PUT and is about to claim the record as well. */
  lemma SecondClaims(s: Shared, moves: seq<Move>, b: string, d: Body, r: Record, targets: map<string, string>)
      returns (moves': seq<Move>)
    requires Possible(s, moves, targets) && Waits(Reached(s, moves), b, d)
    requires Reached(s, moves).world.records == [r] && r.id == "1"
    ensures Reached(s, moves').world.records == [r]
    ensures Possible(s, moves' + [Sends(b, Done("2"))], targets)
    ensures Reached(s, moves' + [Sends(b, Done("2"))]).world.records == [Stored("1", d)]
  {
    moves' := PutSent(s, moves, b, d, b, d, targets);
    ClaimSent(s, moves', b, d, r, b, d, targets);
  }

  /**
   * Any two distinct names for one tunnel can race, over any host: both plan before either writes, and the second
   * takes over the record the first has just come to own.
   */
  lemma TwoNamesRace(targets: map<string, string>, a: string, b: string, h: string)
    returns (s: Shared, moves: seq<Move>, m: Move, r: Record)
    requires a in targets && b in targets && a != b && targets[a] == targets[b]
    requires Trimmed(a) && h != ""
    ensures Takeover(s, moves, m, targets, a, r) && m.who == b
  {
    s, r, m := BeforeRace(h, targets[a]), Stored("1", Claim(a, h, targets[a])), Sends(b, Done("2"));
    RaceStartsOrderly(h, targets[a], targets);
    moves := BothPlan(s, targets, a, b, h);
    moves := FirstClaims(s, moves, a, Claim(a, h, targets[a]), b, Claim(b, h, targets[a]), Unclaimed(h, targets[a]),
        targets);
    moves := SecondClaims(s, moves, b, Claim(b, h, targets[a]), r, targets);
    ClaimOwned(a, h, targets[a]);
    ClaimsDiffer(a, b, h, targets[a]);
  }

  /**
   * Interleaving is safe, exactly: no interleaving lets one controller take a record from another if and only if the
   * controllers' tunnels differ.
   */
  lemma InterleavingIsSafeExactly(targets: map<string, string>)
    requires forall name :: name in targets ==> Trimmed(name)
    ensures TunnelsDiffer(targets) <==>
            forall s, moves, m, owner, r :: !Takeover(s, moves, m, targets, owner, r)
  {
    if TunnelsDiffer(targets) {
      forall s, moves, m, owner, r ensures !Takeover(s, moves, m, targets, owner, r) {
        if Takeover(s, moves, m, targets, owner, r) { StalePlansStayHome(s, moves, m, targets, owner, r); }
      }
    } else {
      var a, b :| a in targets && b in targets && a != b && targets[a] == targets[b];
      var s, moves, m, r := TwoNamesRace(targets, a, b, "app.example");
    }
  }
}
