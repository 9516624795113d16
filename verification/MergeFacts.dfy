/** What a merge promises: losslessness, reachability, a count, and when it changes nothing. */
module MergeFacts {
  import opened Text
  import opened Models
  import opened Ingress

  ghost function RootHosts(rules: seq<Rule>): set<string> {
    if rules == [] then {} else (if IsRoot(rules[0]) then {Host(rules[0])} else {}) + RootHosts(rules[1..])
  }

  lemma {:induction false} RootHostsExactly(rules: seq<Rule>, h: string)
    ensures h in RootHosts(rules) <==> FirstRoot(rules, h).Some?
  {
    if rules != [] { RootHostsExactly(rules[1..], h); }
  }

  lemma {:induction false} FirstRootIsRoot(rules: seq<Rule>, h: string)
    ensures FirstRoot(rules, h).Some? ==>
              var r := FirstRoot(rules, h).value; r in rules && IsRoot(r) && Host(r) == h
    ensures FirstRoot(BeforeFallback(rules), h).Some? ==> FirstRoot(BeforeFallback(rules), h) == FirstRoot(rules, h)
  {
    if rules != [] {
      FirstRootIsRoot(rules[1..], h);
      FirstRootCons(rules[0], BeforeFallback(rules[1..]), h);
    }
  }

  // ---------------------------------------------------------------- fallback

  lemma {:induction false} FallbackAppend(a: seq<Rule>, b: seq<Rule>)
    ensures HasFallback(a + b) <==> HasFallback(a) || HasFallback(b)
  {
    if a == [] {
      assert a + b == b;
    } else {
      assert (a + b)[1..] == a[1..] + b;
      FallbackAppend(a[1..], b);
    }
  }

  lemma {:induction false} BlockHasNoFallback(block: seq<Rule>)
    requires DistinctRoots(block)
    ensures !HasFallback(block)
  {
    if block != [] {
      assert block[0] in block;
      BlockHasNoFallback(block[1..]);
    }
  }

  lemma {:induction false} MergeFromFallback(existing: seq<Rule>, pending: map<string, Rule>, seen: set<string>)
    requires Roots(pending)
    ensures HasFallback(MergeFrom(existing, pending, seen)) <==> HasFallback(existing)
  {
    FlushIsBlock(pending);
    BlockHasNoFallback(Flush(pending));
    if existing != [] {
      var o, rest := existing[0], existing[1..];
      var h := Host(o);
      if !HasHost(o) {
        FallbackAppend(Flush(pending), [o]);
        FallbackAppend(Flush(pending) + [o], MergeFrom(rest, map[], seen));
      } else if HasPath(o) || h in seen {
        MergeFromFallback(rest, pending, seen);
        FallbackAppend([o], MergeFrom(rest, pending, seen));
      } else if h in pending {
        MergeFromFallback(rest, pending - {h}, seen + {h});
        FallbackAppend([Overlay(o, pending[h])], MergeFrom(rest, pending - {h}, seen + {h}));
      } else {
        MergeFromFallback(rest, pending, seen + {h});
      }
    }
  }

  ghost predicate EndsInFallback(rules: seq<Rule>) {
    rules != [] && !HasHost(rules[|rules| - 1])
  }

  lemma EndsAppend(a: seq<Rule>, b: seq<Rule>)
    ensures b != [] ==> (EndsInFallback(a + b) <==> EndsInFallback(b))
    ensures b == [] ==> a + b == a
  {
  }

  lemma {:induction false} MergeFromEnds(existing: seq<Rule>, pending: map<string, Rule>, seen: set<string>)
    requires EndsInFallback(existing)
    ensures EndsInFallback(MergeFrom(existing, pending, seen))
  {
    var o, rest := existing[0], existing[1..];
    var h := Host(o);
    if !HasHost(o) {
      if rest == [] {
        assert NOTHING.Keys == {};
        assert MergeFrom(rest, map[], seen) == [];
      } else {
        MergeFromEnds(rest, map[], seen);
      }
      EndsAppend(Flush(pending), [o]);
      EndsAppend(Flush(pending) + [o], MergeFrom(rest, map[], seen));
    } else if HasPath(o) || h in seen {
      MergeFromEnds(rest, pending, seen);
      EndsAppend([o], MergeFrom(rest, pending, seen));
    } else if h in pending {
      MergeFromEnds(rest, pending - {h}, seen + {h});
      EndsAppend([Overlay(o, pending[h])], MergeFrom(rest, pending - {h}, seen + {h}));
    } else {
      MergeFromEnds(rest, pending, seen + {h});
    }
  }

  // ---------------------------------------------------------------- counting

  lemma {:induction false} MergeFromCount(existing: seq<Rule>, pending: map<string, Rule>, seen: set<string>)
    requires Roots(pending)
    ensures |MergeFrom(existing, pending, seen)| == |Kept(existing, seen)| + |pending|
  {
    FlushIsBlock(pending);
    if existing != [] {
      var o, rest := existing[0], existing[1..];
      var h := Host(o);
      if !HasHost(o) {
        MergeFromCount(rest, map[], seen);
      } else if HasPath(o) || h in seen {
        MergeFromCount(rest, pending, seen);
      } else if h in pending {
        MergeFromCount(rest, pending - {h}, seen + {h});
        assert (pending - {h}).Keys == pending.Keys - {h};
        assert |pending.Keys - {h}| == |pending.Keys| - 1;
      } else {
        MergeFromCount(rest, pending, seen + {h});
      }
    }
  }

  lemma {:induction false} KeptCount(rules: seq<Rule>, seen: set<string>)
    ensures |rules| == |Kept(rules, seen)| + |RootHosts(rules) - seen|
  {
    if rules != [] {
      var o, rest := rules[0], rules[1..];
      var h := Host(o);
      assert rules == [o] + rest;
      if IsRoot(o) && h !in seen {
        KeptCount(rest, seen + {h});
        assert RootHosts(rules) - seen == {h} + (RootHosts(rest) - (seen + {h}));
      } else {
        KeptCount(rest, seen);
        assert RootHosts(rules) - seen == RootHosts(rest) - seen;
      }
    }
  }

  // ---------------------------------------------------------------- the merge theorems

  ghost function FallbackIfMissing(rules: seq<Rule>): seq<Rule> {
    if HasFallback(rules) then [] else [NOT_FOUND]
  }

  lemma {:induction false} WithoutSnoc(rules: seq<Rule>, o: Rule, hosts: set<string>)
    requires !HasHost(o)
    ensures Without(rules + [o], hosts) == Without(rules, hosts) + [o]
    ensures BeforeFallback(rules + [o]) == BeforeFallback(rules)
    ensures RootHosts(rules + [o]) == RootHosts(rules)
  {
    if rules == [] {
      WithoutCons(o, [], hosts);
      assert rules + [o] == [o];
    } else {
      assert rules + [o] == [rules[0]] + (rules[1..] + [o]);
      WithoutSnoc(rules[1..], o, hosts);
      WithoutSnoc(rules[1..], o, hosts - {Host(rules[0])});
    }
  }

  /**
   * Path rules, catch-alls and repeated roots survive a merge exactly once, unchanged and in order:
   * what remains of the result once the desired hosts' routes are removed is precisely that list,
   * closed by a 404 rule when there was no catch-all.
   */
  lemma MergeIsLossless(existing: seq<Rule>, desired: map<string, Rule>)
    requires Roots(desired)
    ensures Without(Merge(existing, desired), desired.Keys) == Kept(existing, {}) + FallbackIfMissing(existing)
  {
    MergeFromKeeps(existing, desired, {});
    MergeFromFallback(existing, desired, {});
    WithoutSnoc(MergeFrom(existing, desired, {}), NOT_FOUND, desired.Keys);
  }

  /** Every desired host is reachable before the first catch-all, with the desired route laid over the old one. */
  lemma MergeReaches(existing: seq<Rule>, desired: map<string, Rule>, h: string)
    requires Roots(desired) && h in desired
    ensures FirstRoot(BeforeFallback(Merge(existing, desired)), h) == Some(Placed(existing, h, desired[h]))
    ensures FirstRoot(Merge(existing, desired), h) == Some(Placed(existing, h, desired[h]))
  {
    MergeFromPlaces(existing, desired, {}, h);
    WithoutSnoc(MergeFrom(existing, desired, {}), NOT_FOUND, {});
    FirstRootIsRoot(Merge(existing, desired), h);
  }

  /** What a desired host's root is made of: its own fields over those of the reachable root it replaces, if any. */
  lemma MergedRootExactly(existing: seq<Rule>, desired: map<string, Rule>, h: string)
    requires Roots(desired) && h in desired
    ensures var root, was := FirstRoot(Merge(existing, desired), h), FirstRoot(BeforeFallback(existing), h);
            var d := desired[h];
            && root.Some?
            && (was.None? ==> root.value == d)
            && root.value.hostname == Some(h)
            && root.value.originRequest == d.originRequest
            && (was.Some? ==>
                  && root.value.path == (if d.path.Some? then d.path else was.value.path)
                  && root.value.service == (if d.service.Some? then d.service else was.value.service)
                  && root.value.extra.Keys == was.value.extra.Keys + d.extra.Keys
                  && (forall k :: k in d.extra ==> root.value.extra[k] == d.extra[k])
                  && (forall k :: k in was.value.extra && k !in d.extra ==> root.value.extra[k] == was.value.extra[k]))
  {
    MergeReaches(existing, desired, h);
  }

  /** Roots by strictly increasing host name. */
  ghost predicate Increasing(rules: seq<Rule>) {
    forall i, j :: 0 <= i < j < |rules| ==>
      AtMost(Host(rules[i]), Host(rules[j])) && Host(rules[i]) != Host(rules[j])
  }

  lemma {:induction false} LookupAt(pending: map<string, Rule>, hosts: seq<string>)
    requires forall h :: h in hosts ==> h in pending
    ensures |Lookup(pending, hosts)| == |hosts|
    ensures forall i :: 0 <= i < |hosts| ==> Lookup(pending, hosts)[i] == pending[hosts[i]]
  {
    if hosts != [] { LookupAt(pending, hosts[1..]); }
  }

  lemma LookupIncreases(pending: map<string, Rule>, hosts: seq<string>)
    requires Roots(pending) && forall h :: h in hosts ==> h in pending
    requires forall i, j :: 0 <= i < j < |hosts| ==> hosts[i] != hosts[j] && AtMost(hosts[i], hosts[j])
    ensures Increasing(Lookup(pending, hosts))
  {
    var rules := Lookup(pending, hosts);
    LookupAt(pending, hosts);
    forall i | 0 <= i < |rules| ensures Host(rules[i]) == hosts[i] { assert hosts[i] in hosts; }
  }

  lemma FlushIncreases(pending: map<string, Rule>)
    requires Roots(pending)
    ensures Increasing(Flush(pending))
  {
    SortedOrder(pending.Keys);
    LookupIncreases(pending, Sorted(pending.Keys));
  }

  lemma FlushThenFallback(pending: map<string, Rule>, rest: seq<Rule>)
    requires Roots(pending) && (rest == [] || !HasHost(rest[0]))
    ensures BeforeFallback(Flush(pending) + rest) == Flush(pending)
  {
    FlushIsBlock(pending);
    BlockRoot(Flush(pending), rest, "");
    assert BeforeFallback(rest) == [];
    assert Flush(pending) + [] == Flush(pending);
  }

  /** What is still to be inserted when the first catch-all is reached. */
  ghost predicate LeftOver(existing: seq<Rule>, pending: map<string, Rule>, left: map<string, Rule>) {
    && (forall h :: h in left <==> h in pending && FirstRoot(BeforeFallback(existing), h).None?)
    && (forall h :: h in left ==> left[h] == pending[h])
  }

  lemma LeftOverStep(o: Rule, rest: seq<Rule>, pending: map<string, Rule>, pending': map<string, Rule>,
                     left: map<string, Rule>)
    requires HasHost(o) && LeftOver(rest, pending', left)
    requires pending' == if IsRoot(o) then pending - {Host(o)} else pending
    ensures LeftOver([o] + rest, pending, left)
  {
    assert ([o] + rest)[1..] == rest;
    forall h ensures FirstRoot(BeforeFallback([o] + rest), h) ==
                     if IsRoot(o) && Host(o) == h then Some(o) else FirstRoot(BeforeFallback(rest), h)
    {
      FirstRootCons(o, BeforeFallback(rest), h);
    }
  }

  lemma NoMoreSeen(o: Rule, rest: seq<Rule>, pending: map<string, Rule>, left: map<string, Rule>)
    requires HasHost(o) && LeftOver(rest, pending, left) && (IsRoot(o) ==> Host(o) !in pending)
    ensures LeftOver([o] + rest, pending, left)
  {
    assert ([o] + rest)[1..] == rest;
    forall h | h in pending
      ensures FirstRoot(BeforeFallback([o] + rest), h) == FirstRoot(BeforeFallback(rest), h)
    {
      FirstRootCons(o, BeforeFallback(rest), h);
    }
  }

  lemma FlushAlone(pending: map<string, Rule>)
    requires Roots(pending)
    ensures BeforeFallback(Flush(pending)) == Flush(pending)
  {
    FlushThenFallback(pending, []);
    assert Flush(pending) + [] == Flush(pending);
  }

  lemma FlushAtFallback(pending: map<string, Rule>, o: Rule, m: seq<Rule>)
    requires Roots(pending) && !HasHost(o)
    ensures BeforeFallback((Flush(pending) + [o]) + m) == Flush(pending)
  {
    FlushThenFallback(pending, [o] + m);
    Regroup(Flush(pending), [o], m);
  }

  lemma AtFallback(existing: seq<Rule>, pending: map<string, Rule>, seen: set<string>)
    requires Roots(pending) && (existing == [] || !HasHost(existing[0]))
    ensures BeforeFallback(MergeFrom(existing, pending, seen)) == Flush(pending)
    ensures LeftOver(existing, pending, pending)
  {
    if existing == [] {
      FlushAlone(pending);
    } else {
      FlushAtFallback(pending, existing[0], MergeFrom(existing[1..], map[], seen));
    }
  }

  /** One rule before the fallback, whatever stands for it. */
  lemma OneMoreInFront(o: Rule, m: seq<Rule>, front: seq<Rule>, inserted: seq<Rule>)
    requires HasHost(o) && BeforeFallback(m) == front + inserted
    ensures BeforeFallback([o] + m) == ([o] + front) + inserted
  {
    FirstRootCons(o, m, "");
    Regroup([o], front, inserted);
  }

  lemma {:induction false} FrontThenInserted(existing: seq<Rule>, pending: map<string, Rule>, seen: set<string>)
    returns (front: seq<Rule>, left: map<string, Rule>)
    requires Roots(pending) && pending.Keys !! seen
    ensures Roots(left) && LeftOver(existing, pending, left)
    ensures BeforeFallback(MergeFrom(existing, pending, seen)) == front + Flush(left)
    ensures |front| <= |BeforeFallback(existing)|
  {
    front, left := [], pending;
    if existing == [] || !HasHost(existing[0]) {
      AtFallback(existing, pending, seen);
      assert [] + Flush(left) == Flush(left);
    } else {
      var o, rest := existing[0], existing[1..];
      var h := Host(o);
      assert existing == [o] + rest;
      if HasPath(o) || h in seen {
        front, left := FrontThenInserted(rest, pending, seen);
        NoMoreSeen(o, rest, pending, left);
        OneMoreInFront(o, MergeFrom(rest, pending, seen), front, Flush(left));
        front := [o] + front;
      } else if h in pending {
        var o' := Overlay(o, pending[h]);
        OverlayIsRoot(o, pending);
        front, left := FrontThenInserted(rest, pending - {h}, seen + {h});
        LeftOverStep(o, rest, pending, pending - {h}, left);
        OneMoreInFront(o', MergeFrom(rest, pending - {h}, seen + {h}), front, Flush(left));
        front := [o'] + front;
      } else {
        front, left := FrontThenInserted(rest, pending, seen + {h});
        NoMoreSeen(o, rest, pending, left);
      }
    }
  }

  /**
   * New roots come last before the first catch-all, by increasing host name: they are those of the desired hosts that
   * had no root before it.
   */
  lemma InsertedInOrder(existing: seq<Rule>, desired: map<string, Rule>) returns (front: seq<Rule>, inserted: seq<Rule>)
    requires Roots(desired)
    ensures BeforeFallback(Merge(existing, desired)) == front + inserted
    ensures Increasing(inserted)
    ensures forall h :: (exists r :: r in inserted && Host(r) == h) <==>
                        h in desired && FirstRoot(BeforeFallback(existing), h).None?
    ensures forall r :: r in inserted ==> Host(r) in desired && r == desired[Host(r)]
    ensures |front| <= |BeforeFallback(existing)|
  {
    var left;
    front, left := FrontThenInserted(existing, desired, {});
    inserted := Flush(left);
    FlushIncreases(left);
    FlushIsBlock(left);
    WithoutSnoc(MergeFrom(existing, desired, {}), NOT_FOUND, {});
    forall h ensures (exists r :: r in inserted && Host(r) == h) <==> h in left {
      if h in left { assert left[h] in inserted && Host(left[h]) == h; }
    }
  }

  /** The result always has a catch-all, and it is last unless `existing` had rules behind its own. */
  lemma MergeEndsInFallback(existing: seq<Rule>, desired: map<string, Rule>)
    requires Roots(desired)
    ensures HasFallback(Merge(existing, desired))
    ensures !HasFallback(existing) || EndsInFallback(existing) ==> EndsInFallback(Merge(existing, desired))
  {
    var m := MergeFrom(existing, desired, {});
    MergeFromFallback(existing, desired, {});
    FallbackAppend(m, [NOT_FOUND]);
    if EndsInFallback(existing) { MergeFromEnds(existing, desired, {}); LastIsFallback(existing); }
  }

  lemma {:induction false} LastIsFallback(rules: seq<Rule>)
    requires EndsInFallback(rules)
    ensures HasFallback(rules)
  {
    assert rules == rules[..|rules| - 1] + [rules[|rules| - 1]];
    FallbackAppend(rules[..|rules| - 1], [rules[|rules| - 1]]);
  }

  /** Rules are conserved: each host gained or lost is exactly one rule gained or lost. */
  lemma MergeCounts(existing: seq<Rule>, desired: map<string, Rule>)
    requires Roots(desired)
    ensures |Merge(existing, desired)| == |existing| + |desired.Keys - RootHosts(existing)|
         - |RootHosts(existing) - desired.Keys| + |FallbackIfMissing(existing)|
  {
    MergeFromFallback(existing, desired, {});
    MergeFromCount(existing, desired, {});
    KeptCount(existing, {});
    assert RootHosts(existing) - {} == RootHosts(existing);
    SizeDifference(desired.Keys, RootHosts(existing));
  }

  lemma SizeDifference(a: set<string>, b: set<string>)
    ensures |a| - |b| == |a - b| - |b - a|
  {
    assert a == (a - b) + (a * b);
    assert b == (b - a) + (a * b);
  }

  /** A host that is not desired loses its first root; what remains of it is what was kept. */
  lemma {:induction false} MergeFromOthers(existing: seq<Rule>, pending: map<string, Rule>, seen: set<string>,
      h: string)
    requires Roots(pending) && h !in pending
    ensures var m, k := MergeFrom(existing, pending, seen), Kept(existing, seen);
            && FirstRoot(m, h) == FirstRoot(k, h)
            && FirstRoot(BeforeFallback(m), h) == FirstRoot(BeforeFallback(k), h)
  {
    if existing == [] {
      FlushSkips(pending, [], h);
      assert Flush(pending) + [] == Flush(pending);
    } else {
      var o, rest := existing[0], existing[1..];
      var e := Host(o);
      if !HasHost(o) {
        MergeFromOthers(rest, map[], seen, h);
        FlushThenSkips(pending, o, MergeFrom(rest, map[], seen), h);
        ConsBoth(o, MergeFrom(rest, map[], seen), o, Kept(rest, seen), h);
      } else if HasPath(o) || e in seen {
        MergeFromOthers(rest, pending, seen, h);
        ConsBoth(o, MergeFrom(rest, pending, seen), o, Kept(rest, seen), h);
      } else if e in pending {
        var o', m := Overlay(o, pending[e]), MergeFrom(rest, pending - {e}, seen + {e});
        MergeFromOthers(rest, pending - {e}, seen + {e}, h);
        FirstRootCons(o', m, h);
        FirstRootCons(o', BeforeFallback(m), h);
      } else {
        MergeFromOthers(rest, pending, seen + {e}, h);
      }
    }
  }

  lemma ConsBoth(o: Rule, a: seq<Rule>, o': Rule, b: seq<Rule>, h: string)
    requires o == o'
    requires FirstRoot(a, h) == FirstRoot(b, h)
    requires FirstRoot(BeforeFallback(a), h) == FirstRoot(BeforeFallback(b), h)
    ensures FirstRoot([o] + a, h) == FirstRoot([o'] + b, h)
    ensures FirstRoot(BeforeFallback([o] + a), h) == FirstRoot(BeforeFallback([o'] + b), h)
  {
    FirstRootCons(o, a, h);
    FirstRootCons(o, b, h);
    FirstRootCons(o, BeforeFallback(a), h);
    FirstRootCons(o, BeforeFallback(b), h);
  }

  lemma FlushThenSkips(pending: map<string, Rule>, o: Rule, rest: seq<Rule>, h: string)
    requires Roots(pending) && h !in pending
    ensures FirstRoot((Flush(pending) + [o]) + rest, h) == FirstRoot([o] + rest, h)
    ensures FirstRoot(BeforeFallback((Flush(pending) + [o]) + rest), h) == FirstRoot(BeforeFallback([o] + rest), h)
  {
    FlushSkips(pending, [o] + rest, h);
    assert (Flush(pending) + [o]) + rest == Flush(pending) + ([o] + rest);
  }

  lemma FlushSkips(pending: map<string, Rule>, rest: seq<Rule>, h: string)
    requires Roots(pending) && h !in pending
    ensures FirstRoot(Flush(pending) + rest, h) == FirstRoot(rest, h)
    ensures FirstRoot(BeforeFallback(Flush(pending) + rest), h) == FirstRoot(BeforeFallback(rest), h)
  {
    FlushIsBlock(pending);
    BlockRoot(Flush(pending), rest, h);
    BlockRoot(Flush(pending), BeforeFallback(rest), h);
  }

  /** Every pending host is in place, already as desired, before the first catch-all. */
  ghost predicate InPlace(rules: seq<Rule>, pending: map<string, Rule>) {
    forall h :: h in pending ==> AsDesired(FirstRoot(BeforeFallback(rules), h), pending[h])
  }

  ghost predicate AsDesired(root: Option<Rule>, desired: Rule) {
    root.Some? && Overlay(root.value, desired) == root.value
  }

  /** Nothing left to do: the desired hosts are the root hosts, each in place and already as desired. */
  ghost predicate Settled(rules: seq<Rule>, desired: map<string, Rule>) {
    && HasFallback(rules)
    && RootHosts(rules) == desired.Keys
    && InPlace(rules, desired)
  }

  lemma InPlaceTail(rules: seq<Rule>, pending: map<string, Rule>, pending': map<string, Rule>)
    requires rules != [] && InPlace(rules, pending)
    requires forall h :: h in pending' ==> h in pending && pending'[h] == pending[h]
    requires IsRoot(rules[0]) ==> Host(rules[0]) !in pending'
    ensures InPlace(rules[1..], pending')
    ensures !HasHost(rules[0]) ==> pending == NOTHING
  {
    forall k | k in pending
      ensures FirstRoot(BeforeFallback(rules), k) ==
              if !HasHost(rules[0]) then None
              else if IsRoot(rules[0]) && Host(rules[0]) == k then Some(rules[0])
              else FirstRoot(BeforeFallback(rules[1..]), k)
    {
      FirstRootCons(rules[0], BeforeFallback(rules[1..]), k);
    }
  }

  lemma InPlaceHead(rules: seq<Rule>, pending: map<string, Rule>)
    requires rules != [] && InPlace(rules, pending)
    requires IsRoot(rules[0]) && Host(rules[0]) in pending
    ensures Overlay(rules[0], pending[Host(rules[0])]) == rules[0]
  {
    FirstRootCons(rules[0], BeforeFallback(rules[1..]), Host(rules[0]));
  }

  lemma {:induction false} SettledStays(rules: seq<Rule>, pending: map<string, Rule>, seen: set<string>)
    requires pending.Keys !! seen && RootHosts(rules) - seen == pending.Keys
    requires InPlace(rules, pending)
    ensures MergeFrom(rules, pending, seen) == rules
  {
    if rules == [] {
      assert pending == NOTHING;
    } else {
      var o, rest := rules[0], rules[1..];
      var h := Host(o);
      assert rules == [o] + rest;
      if IsRoot(o) && h !in seen {
        assert h in RootHosts(rules) - seen;
        InPlaceHead(rules, pending);
        RestOfPending(rules, pending, seen);
        InPlaceTail(rules, pending, pending - {h});
        SettledStays(rest, pending - {h}, seen + {h});
      } else {
        InPlaceTail(rules, pending, pending);
        SettledStays(rest, pending, seen);
        StepOver(rules, pending, seen);
      }
    }
  }

  /** A rule that is not a new root passes through when nothing waits to be inserted before it. */
  lemma StepOver(rules: seq<Rule>, pending: map<string, Rule>, seen: set<string>)
    requires rules != [] && (!IsRoot(rules[0]) || Host(rules[0]) in seen)
    requires !HasHost(rules[0]) ==> pending == NOTHING
    ensures MergeFrom(rules, pending, seen) == [rules[0]] + MergeFrom(rules[1..], pending, seen)
  {
    if !HasHost(rules[0]) {
      assert NOTHING.Keys == {};
      assert Flush(NOTHING) == [];
    }
  }

  lemma RestOfPending(rules: seq<Rule>, pending: map<string, Rule>, seen: set<string>)
    requires rules != [] && IsRoot(rules[0]) && Host(rules[0]) !in seen
    requires pending.Keys !! seen && RootHosts(rules) - seen == pending.Keys
    ensures var h := Host(rules[0]);
            && (pending - {h}).Keys !! (seen + {h})
            && RootHosts(rules[1..]) - (seen + {h}) == (pending - {h}).Keys
  {
    var h := Host(rules[0]);
    assert (pending - {h}).Keys == pending.Keys - {h};
  }

  /** A merge writes something new unless, and only unless, the list was settled. */
  lemma MergeUnchangedIffSettled(rules: seq<Rule>, desired: map<string, Rule>)
    requires Roots(desired)
    ensures Merge(rules, desired) == rules <==> Settled(rules, desired)
  {
    if Settled(rules, desired) {
      assert RootHosts(rules) - {} == RootHosts(rules);
      SettledStays(rules, desired, {});
    }
    if Merge(rules, desired) == rules {
      MergeEndsInFallback(rules, desired);
      forall h | h in desired
        ensures AsDesired(FirstRoot(BeforeFallback(rules), h), desired[h])
        ensures h in RootHosts(rules)
      {
        MergeReaches(rules, desired, h);
        RootHostsExactly(rules, h);
      }
      MergeCounts(rules, desired);
      NoneLost(desired.Keys, RootHosts(rules));
    }
  }

  lemma NoneLost(a: set<string>, b: set<string>)
    requires a <= b && |a - b| == |b - a|
    ensures a == b
  {
    assert a - b == {};
    assert |b - a| == 0;
    assert b == a + (b - a);
  }
}
