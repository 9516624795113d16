/** Merging the routes this controller wants into the tunnel's rule list without losing anybody else's rules. */
module Ingress {
  import opened Text
  import opened Models

  const NOTHING: map<string, Rule> := map[]

  const NOT_FOUND := Rule(None, None, Some("http_status:404"), None, map[])

  /** The original rule under the desired one; the original origin request goes even if none is desired. */
  function Overlay(original: Rule, desired: Rule): Rule {
    Rule(
      if desired.hostname.Some? then desired.hostname else original.hostname,
      if desired.path.Some? then desired.path else original.path,
      if desired.service.Some? then desired.service else original.service,
      desired.originRequest,
      original.extra + desired.extra)
  }

  /** The pending rules in the order of their sorted host names. */
  function Flush(pending: map<string, Rule>): seq<Rule> {
    Lookup(pending, Sorted(pending.Keys))
  }

  function Lookup(pending: map<string, Rule>, hosts: seq<string>): seq<Rule> {
    if hosts == [] then []
    else (if hosts[0] in pending then [pending[hosts[0]]] else []) + Lookup(pending, hosts[1..])
  }

  /** Rules by host name; the last one of a name counts. */
  function Index(desired: seq<Rule>): map<string, Rule>
    requires forall d :: d in desired ==> d.hostname.Some?
  {
    if desired == [] then map[]
    else Index(desired[..|desired| - 1])[desired[|desired| - 1].hostname.value := desired[|desired| - 1]]
  }

  function MergeFrom(existing: seq<Rule>, pending: map<string, Rule>, seen: set<string>): seq<Rule> {
    if existing == [] then Flush(pending)
    else
      var o, rest := existing[0], existing[1..];
      var h := Host(o);
      if !HasHost(o) then Flush(pending) + [o] + MergeFrom(rest, map[], seen)
      else if HasPath(o) || h in seen then [o] + MergeFrom(rest, pending, seen)
      else if h in pending then [Overlay(o, pending[h])] + MergeFrom(rest, pending - {h}, seen + {h})
      else MergeFrom(rest, pending, seen + {h})
  }

  /** Some rule has no host name. */
  predicate HasFallback(rules: seq<Rule>) {
    rules != [] && (!HasHost(rules[0]) || HasFallback(rules[1..]))
  }

  function WithFallback(rules: seq<Rule>): seq<Rule> {
    if HasFallback(rules) then rules else rules + [NOT_FOUND]
  }

  function Merge(existing: seq<Rule>, desired: map<string, Rule>): seq<Rule> {
    WithFallback(MergeFrom(existing, desired, {}))
  }

  /** Append the pending rules of these hosts, in their order. */
  method Extend(result: seq<Rule>, pending: map<string, Rule>, hosts: seq<string>) returns (extended: seq<Rule>)
    requires forall x :: x in hosts ==> x in pending
    ensures extended == result + Lookup(pending, hosts)
  {
    extended := result;
    for i := 0 to |hosts|
      invariant extended + Lookup(pending, hosts[i..]) == result + Lookup(pending, hosts)
    {
      assert hosts[i..][0] == hosts[i] && hosts[i..][1..] == hosts[i + 1..];
      extended := extended + [pending[hosts[i]]];
    }
  }

  method IndexByHost(desiredRoots: seq<Rule>) returns (pending: map<string, Rule>)
    requires forall d :: d in desiredRoots ==> d.hostname.Some?
    ensures pending == Index(desiredRoots)
  {
    pending := map[];
    for i := 0 to |desiredRoots|
      invariant pending == Index(desiredRoots[..i])
    {
      assert desiredRoots[..i + 1][..i] == desiredRoots[..i];
      pending := pending[desiredRoots[i].hostname.value := desiredRoots[i]];
    }
    assert desiredRoots[..|desiredRoots|] == desiredRoots;
  }

  method MergeIngress(existing: seq<Rule>, desiredRoots: seq<Rule>) returns (result: seq<Rule>)
    requires forall d :: d in desiredRoots ==> d.hostname.Some?
    ensures result == Merge(existing, Index(desiredRoots))
  {
    var pending := IndexByHost(desiredRoots);
    ghost var whole := MergeFrom(existing, pending, {});
    result := [];
    var seen: set<string> := {};
    for i := 0 to |existing|
      invariant result + MergeFrom(existing[i..], pending, seen) == whole
    {
      var original := existing[i];
      var host := Host(original);
      ghost var rest := existing[i + 1..];
      MergeOne(existing, i, pending, seen);
      if !HasHost(original) {
        Regroup(result, Flush(pending) + [original], MergeFrom(rest, map[], seen));
        Regroup(result, Flush(pending), [original]);
        SortedOrder(pending.Keys);
        result := Extend(result, pending, Sorted(pending.Keys));
        pending := map[];
        result := result + [original];
      } else if HasPath(original) || host in seen {
        Regroup(result, [original], MergeFrom(rest, pending, seen));
        result := result + [original];
      } else {
        seen := seen + {host};
        if host in pending {
          var replacement := Overlay(original, pending[host]);
          pending := pending - {host};
          Regroup(result, [replacement], MergeFrom(rest, pending, seen));
          result := result + [replacement];
        } else {
          assert [] + MergeFrom(rest, pending, seen) == MergeFrom(rest, pending, seen);
        }
      }
    }
    SortedOrder(pending.Keys);
    result := Extend(result, pending, Sorted(pending.Keys));
    if !HasFallback(result) {
      result := result + [NOT_FOUND];
    }
  }

  /** One iteration: what the rule at position i contributes, and the state it leaves. */
  lemma MergeOne(existing: seq<Rule>, i: nat, pending: map<string, Rule>, seen: set<string>)
    requires i < |existing|
    ensures var o, rest := existing[i], existing[i + 1..];
            var h := Host(o);
            MergeFrom(existing[i..], pending, seen) ==
            if !HasHost(o) then (Flush(pending) + [o]) + MergeFrom(rest, map[], seen)
            else if HasPath(o) || h in seen then [o] + MergeFrom(rest, pending, seen)
            else if h in pending then [Overlay(o, pending[h])] + MergeFrom(rest, pending - {h}, seen + {h})
            else [] + MergeFrom(rest, pending, seen + {h})
  {
    assert existing[i..][0] == existing[i] && existing[i..][1..] == existing[i + 1..];
  }

  // ---------------------------------------------------------------- what a merge keeps

  /** Every desired rule is a root filed under its own host name. */
  ghost predicate Roots(pending: map<string, Rule>) {
    forall h :: h in pending ==> IsRoot(pending[h]) && Host(pending[h]) == h
  }

  /** What the merge must not lose: path rules, fallbacks, and all but the first root of each host. */
  ghost function Kept(rules: seq<Rule>, seen: set<string>): seq<Rule> {
    if rules == [] then []
    else if IsRoot(rules[0]) && Host(rules[0]) !in seen then Kept(rules[1..], seen + {Host(rules[0])})
    else [rules[0]] + Kept(rules[1..], seen)
  }

  /** `rules` without the first root of each of the given hosts. */
  ghost function Without(rules: seq<Rule>, hosts: set<string>): seq<Rule> {
    if rules == [] then []
    else if IsRoot(rules[0]) && Host(rules[0]) in hosts then Without(rules[1..], hosts - {Host(rules[0])})
    else [rules[0]] + Without(rules[1..], hosts)
  }

  lemma {:induction false} WithoutNothing(rules: seq<Rule>)
    ensures Without(rules, {}) == rules
  {
    if rules != [] { WithoutNothing(rules[1..]); }
  }

  /** A list of roots for distinct hosts. */
  ghost predicate DistinctRoots(block: seq<Rule>) {
    && (forall r :: r in block ==> IsRoot(r))
    && (forall i, j :: 0 <= i < j < |block| ==> Host(block[i]) != Host(block[j]))
  }


  ghost function HostsOf(block: seq<Rule>): set<string> {
    if block == [] then {} else {Host(block[0])} + HostsOf(block[1..])
  }

  lemma {:induction false} HostsOfMembers(block: seq<Rule>)
    ensures forall r :: r in block ==> Host(r) in HostsOf(block)
    ensures forall h :: h in HostsOf(block) ==> exists r :: r in block && Host(r) == h
  {
    if block != [] { HostsOfMembers(block[1..]); }
  }

  lemma WithoutCons(o: Rule, rest: seq<Rule>, hosts: set<string>)
    ensures Without([o] + rest, hosts) ==
            if IsRoot(o) && Host(o) in hosts then Without(rest, hosts - {Host(o)}) else [o] + Without(rest, hosts)
  {
    assert ([o] + rest)[1..] == rest;
  }

  /** Roots for distinct hosts vanish as a block. */
  lemma {:induction false} WithoutBlock(block: seq<Rule>, rest: seq<Rule>, hosts: set<string>)
    requires DistinctRoots(block) && HostsOf(block) <= hosts
    ensures Without(block + rest, hosts) == Without(rest, hosts - HostsOf(block))
  {
    if block == [] {
      assert block + rest == rest;
      assert hosts - HostsOf(block) == hosts;
    } else {
      var b, tail := block[0], block[1..];
      assert block + rest == [b] + (tail + rest);
      WithoutCons(b, tail + rest, hosts);
      HostsOfMembers(tail);
      WithoutBlock(tail, rest, hosts - {Host(b)});
      assert hosts - {Host(b)} - HostsOf(tail) == hosts - HostsOf(block);
    }
  }

  lemma {:induction false} LookupIsBlock(pending: map<string, Rule>, hosts: seq<string>)
    requires Roots(pending)
    requires forall x :: x in hosts ==> x in pending
    requires forall i, j :: 0 <= i < j < |hosts| ==> hosts[i] != hosts[j]
    ensures var block := Lookup(pending, hosts);
            && |block| == |hosts|
            && DistinctRoots(block)
            && (forall h :: h in HostsOf(block) <==> h in hosts)
            && (forall r :: r in block ==> Host(r) in hosts && r == pending[Host(r)])
            && (forall h :: h in hosts ==> pending[h] in block)
  {
    if hosts != [] {
      LookupIsBlock(pending, hosts[1..]);
    }
  }

  lemma LookupHosts(pending: map<string, Rule>, hosts: seq<string>)
    requires Roots(pending)
    requires forall x :: x in hosts <==> x in pending
    requires forall i, j :: 0 <= i < j < |hosts| ==> hosts[i] != hosts[j]
    ensures HostsOf(Lookup(pending, hosts)) == pending.Keys
  {
    LookupIsBlock(pending, hosts);
    assert forall h :: h in HostsOf(Lookup(pending, hosts)) <==> h in pending.Keys;
  }

  lemma FlushIsBlock(pending: map<string, Rule>)
    requires Roots(pending)
    ensures var block := Flush(pending);
            && |block| == |pending|
            && DistinctRoots(block)
            && HostsOf(block) == pending.Keys
            && (forall r :: r in block ==> Host(r) in pending && r == pending[Host(r)])
            && (forall h :: h in pending ==> pending[h] in block)
  {
    var hosts := Sorted(pending.Keys);
    SortedOrder(pending.Keys);
    LookupIsBlock(pending, hosts);
    LookupHosts(pending, hosts);
  }

  lemma WithoutFlush(pending: map<string, Rule>, rest: seq<Rule>)
    requires Roots(pending)
    ensures Without(Flush(pending) + rest, pending.Keys) == rest
  {
    FlushIsBlock(pending);
    WithoutBlock(Flush(pending), rest, pending.Keys);
    assert pending.Keys - pending.Keys == {};
    WithoutNothing(rest);
  }

  lemma OverlayIsRoot(o: Rule, pending: map<string, Rule>)
    requires Roots(pending) && IsRoot(o) && Host(o) in pending
    ensures IsRoot(Overlay(o, pending[Host(o)])) && Host(Overlay(o, pending[Host(o)])) == Host(o)
  {
  }

  /** Losslessness: apart from the desired hosts' roots, the merge is the list of kept rules, in order. */
  lemma {:induction false} MergeFromKeeps(existing: seq<Rule>, pending: map<string, Rule>, seen: set<string>)
    requires Roots(pending) && pending.Keys !! seen
    ensures Without(MergeFrom(existing, pending, seen), pending.Keys) == Kept(existing, seen)
  {
    if existing == [] {
      WithoutFlush(pending, []);
      assert Flush(pending) + [] == Flush(pending);
    } else {
      var o, rest := existing[0], existing[1..];
      var h := Host(o);
      if !HasHost(o) {
        MergeFromKeeps(rest, map[], seen);
        AfterFallback(o, rest, pending, seen);
      } else if HasPath(o) || h in seen {
        var m := MergeFrom(rest, pending, seen);
        MergeFromKeeps(rest, pending, seen);
        WithoutCons(o, m, pending.Keys);
      } else if h in pending {
        var pending' := pending - {h};
        var m := MergeFrom(rest, pending', seen + {h});
        assert pending'.Keys == pending.Keys - {h};
        OverlayIsRoot(o, pending);
        MergeFromKeeps(rest, pending', seen + {h});
        WithoutCons(Overlay(o, pending[h]), m, pending.Keys);
      } else {
        MergeFromKeeps(rest, pending, seen + {h});
      }
    }
  }

  lemma AfterFallback(o: Rule, rest: seq<Rule>, pending: map<string, Rule>, seen: set<string>)
    requires Roots(pending) && !HasHost(o)
    ensures Without((Flush(pending) + [o]) + MergeFrom(rest, map[], seen), pending.Keys)
         == [o] + Without(MergeFrom(rest, map[], seen), NOTHING.Keys)
  {
    var m := MergeFrom(rest, map[], seen);
    WithoutFlush(pending, [o] + m);
    WithoutNothing(m);
    assert NOTHING.Keys == {};
    assert (Flush(pending) + [o]) + m == Flush(pending) + ([o] + m);
  }

  // ---------------------------------------------------------------- where managed routes end up

  /** The rules a request can reach before any catch-all. */
  ghost function BeforeFallback(rules: seq<Rule>): seq<Rule> {
    if rules == [] || !HasHost(rules[0]) then [] else [rules[0]] + BeforeFallback(rules[1..])
  }

  /** The first root of a host in the order of the rules. */
  function FirstRoot(rules: seq<Rule>, h: string): Option<Rule> {
    if rules == [] then None
    else if IsRoot(rules[0]) && Host(rules[0]) == h then Some(rules[0])
    else FirstRoot(rules[1..], h)
  }

  lemma FirstRootCons(o: Rule, rest: seq<Rule>, h: string)
    ensures FirstRoot([o] + rest, h) == if IsRoot(o) && Host(o) == h then Some(o) else FirstRoot(rest, h)
    ensures BeforeFallback([o] + rest) == if HasHost(o) then [o] + BeforeFallback(rest) else []
  {
    assert ([o] + rest)[1..] == rest;
  }

  lemma {:induction false} BlockRoot(block: seq<Rule>, rest: seq<Rule>, h: string)
    requires DistinctRoots(block)
    ensures BeforeFallback(block + rest) == block + BeforeFallback(rest)
    ensures forall r :: r in block && Host(r) == h ==> FirstRoot(block + rest, h) == Some(r)
    ensures h !in HostsOf(block) ==> FirstRoot(block + rest, h) == FirstRoot(rest, h)
  {
    if block == [] {
      assert block + rest == rest;
      assert block + BeforeFallback(rest) == BeforeFallback(rest);
    } else {
      var b, tail := block[0], block[1..];
      assert block + rest == [b] + (tail + rest);
      assert block + BeforeFallback(rest) == [b] + (tail + BeforeFallback(rest));
      FirstRootCons(b, tail + rest, h);
      BlockRoot(tail, rest, h);
      HostsOfMembers(tail);
    }
  }

  /** What stands for a desired host in the merge. */
  ghost function Placed(existing: seq<Rule>, h: string, desired: Rule): Rule {
    match FirstRoot(BeforeFallback(existing), h)
    case Some(o) => Overlay(o, desired)
    case None => desired
  }

  /** Reachability: a desired host's first root stands before every catch-all and carries what was desired. */
  lemma {:induction false} MergeFromPlaces(existing: seq<Rule>, pending: map<string, Rule>, seen: set<string>,
      h: string)
    requires Roots(pending) && pending.Keys !! seen && h in pending
    ensures FirstRoot(BeforeFallback(MergeFrom(existing, pending, seen)), h) == Some(Placed(existing, h, pending[h]))
  {
    if existing == [] || !HasHost(existing[0]) {
      FlushPlaces(pending, MergeFrom(existing, pending, seen)[|Flush(pending)|..], h);
      assert MergeFrom(existing, pending, seen) == Flush(pending)
          + MergeFrom(existing, pending, seen)[|Flush(pending)|..];
    } else {
      var o, rest := existing[0], existing[1..];
      var e := Host(o);
      FirstRootCons(o, BeforeFallback(rest), h);
      if HasPath(o) || e in seen {
        MergeFromPlaces(rest, pending, seen, h);
        FirstRootCons(o, MergeFrom(rest, pending, seen), h);
        FirstRootCons(o, BeforeFallback(MergeFrom(rest, pending, seen)), h);
      } else if e in pending {
        var o' := Overlay(o, pending[e]);
        var m := MergeFrom(rest, pending - {e}, seen + {e});
        FirstRootCons(o', m, h);
        FirstRootCons(o', BeforeFallback(m), h);
        if e != h { MergeFromPlaces(rest, pending - {e}, seen + {e}, h); }
      } else {
        MergeFromPlaces(rest, pending, seen + {e}, h);
      }
    }
  }

  lemma FlushPlaces(pending: map<string, Rule>, rest: seq<Rule>, h: string)
    requires Roots(pending) && h in pending
    ensures FirstRoot(BeforeFallback(Flush(pending) + rest), h) == Some(pending[h])
  {
    FlushIsBlock(pending);
    BlockRoot(Flush(pending), rest, h);
    BlockRoot(Flush(pending), BeforeFallback(rest), h);
  }
}
