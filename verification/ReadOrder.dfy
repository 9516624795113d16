/** The order in which records were fetched: when it makes no difference to the plan. */
module ReadOrder {
  import opened Text
  import opened Models
  import opened Ingress
  import opened Planner
  import opened PlanFacts
  import opened PlanTheorems

  // ---------------------------------------------------------------- permutations

  lemma SplitAt<T>(s: seq<T>, t: T) returns (i: nat)
    requires t in s
    ensures i < |s| && s == s[..i] + [t] + s[i + 1..]
  {
    i :| i < |s| && s[i] == t;
  }

  lemma Cancel<T>(a: multiset<T>, b: multiset<T>, t: T)
    requires a + multiset{t} == b + multiset{t}
    ensures a == b
  {
    assert a == (a + multiset{t}) - multiset{t};
    assert b == (b + multiset{t}) - multiset{t};
  }

  /** Taking the last element of one sequence out of a permutation of it. */
  lemma TakeOut<T>(a: seq<T>, b: seq<T>) returns (i: nat)
    requires a != [] && multiset(a) == multiset(b)
    ensures i < |b| && b == b[..i] + [a[|a| - 1]] + b[i + 1..]
    ensures multiset(a[..|a| - 1]) == multiset(b[..i] + b[i + 1..])
  {
    var t, init := a[|a| - 1], a[..|a| - 1];
    assert multiset(a) == multiset(init) + multiset{t} by { assert a == init + [t]; }
    assert t in multiset(b);
    i := SplitAt(b, t);
    var before, after := b[..i], b[i + 1..];
    assert multiset(b) == multiset(before) + multiset{t} + multiset(after) by { assert b == before + [t] + after; }
    assert multiset(before + after) == multiset(before) + multiset(after);
    Cancel(multiset(init), multiset(before + after), t);
  }

  // ---------------------------------------------------------------- the loop over records

  ghost function PicksOf(x: Inputs, active: map<string, Origin>, records: seq<Record>): multiset<DnsPick> {
    multiset(MissingDnsPicks(x, active, records))
  }

  lemma {:induction false} PicksAppend(x: Inputs, active: map<string, Origin>, a: seq<Record>, b: seq<Record>)
    ensures MissingDnsPicks(x, active, a + b) == MissingDnsPicks(x, active, a) + MissingDnsPicks(x, active, b)
  {
    if b == [] {
      assert a + b == a;
    } else {
      var init, r := b[..|b| - 1], b[|b| - 1];
      assert (a + b)[..|a + b| - 1] == a + init;
      PicksAppend(x, active, a, init);
      Regroup(MissingDnsPicks(x, active, a), MissingDnsPicks(x, active, init), [MissingDns(x, r)]);
    }
  }

  lemma PicksConcat(x: Inputs, active: map<string, Origin>, a: seq<Record>, b: seq<Record>)
    ensures PicksOf(x, active, a + b) == PicksOf(x, active, a) + PicksOf(x, active, b)
  {
    PicksAppend(x, active, a, b);
  }

  lemma {:induction false} PicksPermuted(x: Inputs, active: map<string, Origin>, a: seq<Record>, b: seq<Record>)
    requires multiset(a) == multiset(b)
    ensures PicksOf(x, active, a) == PicksOf(x, active, b)
  {
    if a == [] {
      assert |multiset(b)| == 0;
      assert b == [];
    } else {
      var r, init := a[|a| - 1], a[..|a| - 1];
      var i := TakeOut(a, b);
      PicksPermuted(x, active, init, b[..i] + b[i + 1..]);
      assert a == init + [r];
      PicksConcat(x, active, init, [r]);
      PicksConcat(x, active, b[..i], b[i + 1..]);
      PicksConcat(x, active, b[..i] + [r], b[i + 1..]);
      PicksConcat(x, active, b[..i], [r]);
    }
  }

  // ---------------------------------------------------------------- from picks to changes, marks and counts

  lemma {:induction false} ChangesOfPicks(a: seq<DnsPick>, b: seq<DnsPick>)
    requires multiset(a) == multiset(b)
    ensures multiset(DnsChanges(a)) == multiset(DnsChanges(b))
  {
    if a == [] {
      assert |multiset(b)| == 0;
      assert b == [];
    } else {
      var p := a[|a| - 1];
      var i := TakeOut(a, b);
      ChangesOfPicks(a[..|a| - 1], b[..i] + b[i + 1..]);
      ChangesConcat(b[..i], b[i + 1..]);
      ChangesConcat(b[..i] + [p], b[i + 1..]);
      assert (b[..i] + [p])[..i] == b[..i];
    }
  }

  lemma {:induction false} ChangesConcat(a: seq<DnsPick>, b: seq<DnsPick>)
    ensures DnsChanges(a + b) == DnsChanges(a) + DnsChanges(b)
  {
    if b == [] {
      assert a + b == a;
    } else {
      assert (a + b)[..|a + b| - 1] == a + b[..|b| - 1];
      ChangesConcat(a, b[..|b| - 1]);
    }
  }

  lemma {:induction false} CountsConcat(a: seq<DnsChange>, b: seq<DnsChange>, k: DnsAction)
    ensures CountDns(a + b, k) == CountDns(a, k) + CountDns(b, k)
    ensures CountSkipped(a + b) == CountSkipped(a) + CountSkipped(b)
  {
    if b == [] {
      assert a + b == a;
    } else {
      assert (a + b)[..|a + b| - 1] == a + b[..|b| - 1];
      CountsConcat(a, b[..|b| - 1], k);
    }
  }

  lemma {:induction false} CountsPermuted(a: seq<DnsChange>, b: seq<DnsChange>, k: DnsAction)
    requires multiset(a) == multiset(b)
    ensures CountDns(a, k) == CountDns(b, k) && CountSkipped(a) == CountSkipped(b)
  {
    if a == [] {
      assert |multiset(b)| == 0;
      assert b == [];
    } else {
      var c, init := a[|a| - 1], a[..|a| - 1];
      var i := TakeOut(a, b);
      CountsPermuted(init, b[..i] + b[i + 1..], k);
      assert a == init + [c];
      CountsConcat(init, [c], k);
      CountsConcat(b[..i], b[i + 1..], k);
      CountsConcat(b[..i] + [c], b[i + 1..], k);
      CountsConcat(b[..i], [c], k);
    }
  }

  lemma MarksPermuted(a: seq<DnsPick>, b: seq<DnsPick>, m: Mark)
    requires multiset(a) == multiset(b)
    ensures DnsMarked(a, m) == DnsMarked(b, m)
  {
    assert forall p :: p in a <==> p in multiset(a);
    assert forall p :: p in b <==> p in multiset(b);
    forall h ensures h in DnsMarked(a, m) <==> h in DnsMarked(b, m) {
      DnsMarkHasPick(a, m, h);
      DnsMarkHasPick(b, m, h);
    }
  }

  // ---------------------------------------------------------------- the plan

  /** The same records in another order, and every name still ends on the same record. */
  ghost predicate SameReading(x: Inputs, y: Inputs) {
    && y == x.(remote := x.remote.(records := y.remote.records))
    && multiset(x.remote.records) == multiset(y.remote.records)
    && forall h :: LastRecord(x.remote.records, h) == LastRecord(y.remote.records, h)
  }

  lemma {:induction false} ActivePicksAgree(x: Inputs, y: Inputs, active: map<string, Origin>, hosts: seq<string>)
    requires SameReading(x, y) && forall h :: h in hosts ==> h in active
    ensures ActivePicks(x, active, hosts) == ActivePicks(y, active, hosts)
    ensures ActiveDnsPicks(x, hosts) == ActiveDnsPicks(y, hosts)
  {
    if hosts != [] {
      var h := hosts[|hosts| - 1];
      ActivePicksAgree(x, y, active, hosts[..|hosts| - 1]);
      VerdictsAgree(x, y, h, active[h]);
    }
  }

  lemma VerdictsAgree(x: Inputs, y: Inputs, h: string, o: Origin)
    requires SameReading(x, y)
    ensures ActiveIngress(x, h, o) == ActiveIngress(y, h, o) && ActiveDns(x, h) == ActiveDns(y, h)
  {
  }

  lemma {:induction false} MissingPicksAgree(x: Inputs, y: Inputs, active: map<string, Origin>, roots: seq<Rule>)
    requires SameReading(x, y)
    ensures MissingPicks(x, active, roots) == MissingPicks(y, active, roots)
  {
    if roots != [] {
      MissingPicksAgree(x, y, active, roots[..|roots| - 1]);
      MissingVerdictsAgree(x, y, roots[|roots| - 1]);
    }
  }

  lemma MissingVerdictsAgree(x: Inputs, y: Inputs, root: Rule)
    requires SameReading(x, y)
    ensures MissingIngress(x, root) == MissingIngress(y, root)
  {
  }

  lemma {:induction false} MissingDnsAgrees(x: Inputs, y: Inputs, active: map<string, Origin>, records: seq<Record>)
    requires SameReading(x, y)
    ensures MissingDnsPicks(x, active, records) == MissingDnsPicks(y, active, records)
  {
    if records != [] {
      MissingDnsAgrees(x, y, active, records[..|records| - 1]);
      RecordVerdictsAgree(x, y, active, records[|records| - 1]);
    }
  }

  lemma RecordVerdictsAgree(x: Inputs, y: Inputs, active: map<string, Origin>, r: Record)
    requires SameReading(x, y)
    ensures MissingDns(x, r) == MissingDns(y, r) && Absent(x, active, r) == Absent(y, active, r)
  {
  }

  lemma IngressAgrees(x: Inputs, y: Inputs)
    requires SameReading(x, y)
    ensures IngressPicks(x) == IngressPicks(y)
  {
    var active := Active(x.snapshot.origins);
    SortedOrder(active.Keys);
    ActivePicksAgree(x, y, active, Sorted(active.Keys));
    MissingPicksAgree(x, y, active, RootOrder(x.remote.rules));
  }

  lemma DnsAgrees(x: Inputs, y: Inputs)
    requires SameReading(x, y)
    ensures multiset(DnsPicks(x)) == multiset(DnsPicks(y))
  {
    var active := Active(x.snapshot.origins);
    SortedOrder(active.Keys);
    ActivePicksAgree(x, y, active, Sorted(active.Keys));
    MissingDnsAgrees(x, y, active, x.remote.records);
    PicksPermuted(y, active, x.remote.records, y.remote.records);
  }

  lemma SummariesAgree(n: nat, ingress: seq<IngressChange>, a: seq<DnsChange>, b: seq<DnsChange>)
    requires multiset(a) == multiset(b)
    ensures SummaryOf(n, ingress, a) == SummaryOf(n, ingress, b)
  {
    forall k ensures CountDns(a, k) == CountDns(b, k) && CountSkipped(a) == CountSkipped(b) { CountsPermuted(a, b, k); }
  }

  lemma MarksAgree(x: Inputs, y: Inputs)
    requires SameReading(x, y)
    ensures ToSet(x) == ToSet(y) && ToClear(x) == ToClear(y)
  {
    IngressAgrees(x, y);
    DnsAgrees(x, y);
    MarksPermuted(DnsPicks(x), DnsPicks(y), SetMark);
    MarksPermuted(DnsPicks(x), DnsPicks(y), ClearMark);
  }

  /** Fetching the same records in another order changes nothing in the plan but the order of the DNS changes. */
  lemma PlanIgnoresRecordOrder(x: Inputs, y: Inputs)
    requires SameReading(x, y) && x.snapshot.dockerOk
    ensures PlanOf(y) == PlanOf(x).(dns := PlanOf(y).dns)
    ensures multiset(PlanOf(y).dns) == multiset(PlanOf(x).dns)
  {
    IngressAgrees(x, y);
    DnsAgrees(x, y);
    MarksAgree(x, y);
    ChangesOfPicks(DnsPicks(x), DnsPicks(y));
    SummariesAgree(|x.snapshot.origins|, PlanOf(x).ingress, DnsChanges(DnsPicks(x)), DnsChanges(DnsPicks(y)));
  }

  ghost predicate NamesUnique(records: seq<Record>) {
    forall a, b :: a in records && b in records && a.name == b.name && a.name != "" ==> a == b
  }

  /** One record a name, as for aliases in section 3.6.2 of RFC 1034, is enough. */
  lemma UniqueNamesReadAlike(x: Inputs, y: Inputs)
    requires y == x.(remote := x.remote.(records := y.remote.records)) && NamesUnique(x.remote.records)
    requires multiset(x.remote.records) == multiset(y.remote.records)
    ensures SameReading(x, y)
  {
    assert forall r :: r in x.remote.records <==> r in multiset(x.remote.records);
    assert forall r :: r in y.remote.records <==> r in multiset(y.remote.records);
    forall h ensures LastRecord(x.remote.records, h) == LastRecord(y.remote.records, h) {
      LastRecordIsThere(x.remote.records, h);
      LastRecordIsThere(y.remote.records, h);
    }
  }
}
