/** Fetching the DNS records that matter: one zone listing with local filtering, against one request per host. */
module Fetch {
  import opened Text
  import opened Models

  type Names = string -> Option<string>

  type Records = map<string, Record>

  datatype Query = AllCnames | ByContent(target: string) | ByName(host: string)

  /** What the server filters by; its name filter agrees with the controller's normalization. */
  predicate Matches(q: Query, r: Record, norm: Names) {
    && TypeOf(r) == "CNAME"
    && match q
       case AllCnames => true
       case ByContent(target) => r.content == Some(target)
       case ByName(host) => norm(r.name) == Some(host)
  }

  /**
   * A server whose zone does not change during the fetch. Filtered queries are answered in full; the
   * unfiltered listing returns `listed`, which may fall short of the zone. Read k may fail.
   */
  datatype Server = Server(zone: seq<Record>, listed: seq<Record>, fails: nat -> bool)

  ghost predicate Faithful(s: Server) {
    && (forall a, b :: a in s.zone && b in s.zone && a.id == b.id && a.id != "" ==> a == b)
    && (forall r :: r in s.listed ==> r in s.zone && TypeOf(r) == "CNAME")
  }

  ghost predicate Complete(s: Server) {
    forall r :: r in s.zone && TypeOf(r) == "CNAME" ==> r in s.listed
  }

  function Filtered(records: seq<Record>, q: Query, norm: Names): seq<Record> {
    if records == [] then []
    else
      var r, before := records[|records| - 1], Filtered(records[..|records| - 1], q, norm);
      if Matches(q, r, norm) then before + [r] else before
  }

  function Answer(s: Server, q: Query, norm: Names): seq<Record> {
    if q.AllCnames? then s.listed else Filtered(s.zone, q, norm)
  }

  lemma {:induction false} FilteredExactly(records: seq<Record>, q: Query, norm: Names)
    ensures forall r :: r in Filtered(records, q, norm) <==> r in records && Matches(q, r, norm)
  {
    if records != [] {
      var last, init := records[|records| - 1], records[..|records| - 1];
      FilteredExactly(init, q, norm);
      assert records == init + [last];
    }
  }

  /** A record points to the tunnel, or bears the name of a discovered service. */
  predicate IsWanted(r: Record, hosts: seq<string>, norm: Names) {
    norm(r.name).Some? && exists h :: h in hosts && norm(h) == norm(r.name)
  }

  predicate InScope(r: Record, target: string, hosts: seq<string>, norm: Names) {
    TypeOf(r) == "CNAME" && (r.content == Some(target) || IsWanted(r, hosts, norm))
  }

  /** The result of one request for the tunnel's records and one per service, keyed by identifier. */
  ghost function Specified(s: Server, target: string, hosts: seq<string>, norm: Names): Records
    requires Faithful(s)
  {
    map r | r in s.zone && r.id != "" && InScope(r, target, hosts, norm) :: r.id := r
  }

  /** The records of a zone a fetch is after, in the order of the zone. */
  function Scoped(zone: seq<Record>, target: string, hosts: seq<string>, norm: Names): seq<Record> {
    if zone == [] then []
    else
      var r, before := zone[|zone| - 1], Scoped(zone[..|zone| - 1], target, hosts, norm);
      if r.id != "" && InScope(r, target, hosts, norm) then before + [r] else before
  }

  lemma {:induction false} ScopedExactly(zone: seq<Record>, target: string, hosts: seq<string>, norm: Names, r: Record)
    ensures r in Scoped(zone, target, hosts, norm) <==> r in zone && r.id != "" && InScope(r, target, hosts, norm)
  {
    if zone != [] {
      ScopedExactly(zone[..|zone| - 1], target, hosts, norm, r);
      assert zone == zone[..|zone| - 1] + [zone[|zone| - 1]];
    }
  }

  /** The specified map holds exactly the records in scope. */
  lemma SpecifiedIsScoped(s: Server, target: string, hosts: seq<string>, norm: Names, r: Record)
    requires Faithful(s)
    ensures var m := Specified(s, target, hosts, norm);
            r in Scoped(s.zone, target, hosts, norm) <==> r.id in m && m[r.id] == r
  {
    ScopedExactly(s.zone, target, hosts, norm, r);
  }

  // ---------------------------------------------------------------- collected records

  ghost predicate From(m: Records, s: Server) {
    forall id :: id in m ==> id != "" && m[id].id == id && m[id] in s.zone
  }

  function Added(m: Records, rows: seq<Record>): Records {
    if rows == [] then m
    else
      var r, before := rows[|rows| - 1], Added(m, rows[..|rows| - 1]);
      if r.id != "" then before[r.id := r] else before
  }

  lemma {:induction false} AddedExactly(m: Records, rows: seq<Record>, s: Server)
    requires Faithful(s) && From(m, s) && forall r :: r in rows ==> r in s.zone
    ensures From(Added(m, rows), s)
    ensures forall r :: r in s.zone && r.id != "" ==> (r.id in Added(m, rows) <==> r.id in m || r in rows)
  {
    if rows != [] {
      var last, init := rows[|rows| - 1], rows[..|rows| - 1];
      assert rows == init + [last];
      AddedExactly(m, init, s);
    }
  }

  method Collect(m: Records, rows: seq<Record>) returns (collected: Records)
    ensures collected == Added(m, rows)
  {
    collected := m;
    for i := 0 to |rows|
      invariant collected == Added(m, rows[..i])
    {
      assert rows[..i + 1][..i] == rows[..i];
      if rows[i].id != "" {
        collected := collected[rows[i].id := rows[i]];
      }
    }
    assert rows[..|rows|] == rows;
  }

  function NamesIn(m: Records, norm: Names): set<Option<string>> {
    set id | id in m :: norm(m[id].name)
  }

  /** Everything collected is in scope. */
  ghost predicate Within(m: Records, s: Server, target: string, hosts: seq<string>, norm: Names) {
    From(m, s) && forall r :: r in s.zone && r.id != "" && r.id in m ==> InScope(r, target, hosts, norm)
  }

  /** Every record under this host's name is collected, or at least one is. */
  ghost predicate HasHost(m: Records, s: Server, h: string, norm: Names) {
    norm(h).Some? && (exists r :: r in s.zone && r.id != "" && TypeOf(r) == "CNAME" && norm(r.name) == norm(h)) ==>
      norm(h) in NamesIn(m, norm)
  }

  ghost predicate HasAllOf(m: Records, s: Server, h: string, norm: Names) {
    forall r :: r in s.zone && r.id != "" && Matches(ByName(h), r, norm) ==> r.id in m
  }

  ghost predicate HasTarget(m: Records, s: Server, target: string) {
    forall r :: r in s.zone && r.id != "" && Matches(ByContent(target), r, x => None) ==> r.id in m
  }

  /** All of scope: the tunnel's records, and all the records of every service. */
  ghost predicate HasAll(m: Records, s: Server, target: string, hosts: seq<string>, norm: Names) {
    HasTarget(m, s, target) && forall h :: h in hosts && norm(h).Some? ==> HasAllOf(m, s, norm(h).value, norm)
  }

  lemma ExactlySpecified(m: Records, s: Server, target: string, hosts: seq<string>, norm: Names)
    requires Faithful(s) && Within(m, s, target, hosts, norm) && HasAll(m, s, target, hosts, norm)
    ensures m == Specified(s, target, hosts, norm)
  {
    var spec := Specified(s, target, hosts, norm);
    forall id ensures id in m <==> id in spec
              ensures id in m ==> m[id] == spec[id]
    {
      if id in m { assert m[id] in s.zone && InScope(m[id], target, hosts, norm); }
      if id in spec {
        var r := spec[id];
        if r.content != Some(target) {
          var h :| h in hosts && norm(h) == norm(r.name);
          assert HasAllOf(m, s, norm(h).value, norm);
        }
      }
    }
  }

  lemma AddKeepsWithin(m: Records, rows: seq<Record>, s: Server, target: string, hosts: seq<string>, norm: Names)
    requires Faithful(s) && Within(m, s, target, hosts, norm)
    requires forall r :: r in rows ==> r in s.zone && InScope(r, target, hosts, norm)
    ensures Within(Added(m, rows), s, target, hosts, norm)
    ensures forall id :: id in m ==> id in Added(m, rows) && Added(m, rows)[id] == m[id]
    ensures forall r :: r in rows && r.id != "" ==> r.id in Added(m, rows) && Added(m, rows)[r.id] == r
  {
    AddedExactly(m, rows, s);
    forall id | id in m ensures id in Added(m, rows) && Added(m, rows)[id] == m[id] { assert m[id] in s.zone; }
  }

  lemma AddHost(m: Records, s: Server, target: string, hosts: seq<string>, h: string, norm: Names)
    requires Faithful(s) && Within(m, s, target, hosts, norm) && h in hosts && norm(h).Some?
    ensures var m' := Added(m, Filtered(s.zone, ByName(norm(h).value), norm));
            && Within(m', s, target, hosts, norm) && HasAllOf(m', s, norm(h).value, norm)
            && (forall id :: id in m ==> id in m' && m'[id] == m[id])
  {
    FilteredExactly(s.zone, ByName(norm(h).value), norm);
    AddKeepsWithin(m, Filtered(s.zone, ByName(norm(h).value), norm), s, target, hosts, norm);
  }

  lemma AddTarget(m: Records, s: Server, target: string, hosts: seq<string>, norm: Names)
    requires Faithful(s) && Within(m, s, target, hosts, norm)
    ensures var m' := Added(m, Filtered(s.zone, ByContent(target), norm));
            Within(m', s, target, hosts, norm) && HasTarget(m', s, target)
  {
    FilteredExactly(s.zone, ByContent(target), norm);
    AddKeepsWithin(m, Filtered(s.zone, ByContent(target), norm), s, target, hosts, norm);
  }

  lemma AllOfIsSome(m: Records, s: Server, h: string, norm: Names)
    requires norm(h).Some? && HasAllOf(m, s, norm(h).value, norm) && From(m, s) && Faithful(s)
    ensures HasHost(m, s, h, norm)
  {
    if r :| r in s.zone && r.id != "" && TypeOf(r) == "CNAME" && norm(r.name) == norm(h) {
      assert Matches(ByName(norm(h).value), r, norm) && m[r.id] == r;
    }
  }

  // ---------------------------------------------------------------- the per-host path

  /** One request for the tunnel's records, one per service; None when a read fails. */
  method PerHost(s: Server, target: string, hosts: seq<string>, norm: Names, start: nat) returns (r: Option<Records>)
    requires Faithful(s)
    ensures r.Some? ==> r.value == Specified(s, target, hosts, norm)
    ensures (forall k: nat :: k >= start ==> !s.fails(k)) ==> r.Some?
  {
    var k := start;
    if s.fails(k) {
      return None;
    }
    k := k + 1;
    var records: Records := map[];
    AddTarget(records, s, target, hosts, norm);
    records := Collect(records, Answer(s, ByContent(target), norm));
    for i := 0 to |hosts|
      invariant k >= start && Within(records, s, target, hosts, norm) && HasTarget(records, s, target)
      invariant forall j :: 0 <= j < i && norm(hosts[j]).Some? ==> HasAllOf(records, s, norm(hosts[j]).value, norm)
    {
      var h := norm(hosts[i]);
      if h.Some? {
        if s.fails(k) {
          return None;
        }
        k := k + 1;
        AddHost(records, s, target, hosts, hosts[i], norm);
        records := Collect(records, Answer(s, ByName(h.value), norm));
      }
    }
    ExactlySpecified(records, s, target, hosts, norm);
    r := Some(records);
  }

  // ---------------------------------------------------------------- the batch path

  /** The listing reduced to what is in scope. */
  function Kept(m: Records, target: string, wanted: set<Option<string>>, norm: Names): Records {
    map id | id in m && (m[id].content == Some(target) || norm(m[id].name) in wanted) :: m[id]
  }

  method WantedNames(hosts: seq<string>, norm: Names) returns (wanted: set<Option<string>>)
    ensures forall n :: n in wanted <==> n.Some? && exists h :: h in hosts && norm(h) == n
  {
    wanted := set h | h in hosts && norm(h).Some? :: norm(h);
  }

  /** Hosts the records collected so far say nothing about. */
  method AnyUncovered(m: Records, hosts: seq<string>, norm: Names) returns (any: bool)
    ensures any <==> exists h :: h in hosts && norm(h) !in NamesIn(m, norm)
  {
    any := exists h :: h in hosts && norm(h) !in NamesIn(m, norm);
  }

  /** Nothing in the listing is in scope. */
  ghost predicate NothingListed(s: Server, target: string, hosts: seq<string>, norm: Names) {
    forall q :: q in s.listed && q.id != "" ==> !InScope(q, target, hosts, norm)
  }

  /** What is collected before any host is asked for: the listing in scope, or failing that the tunnel's records. */
  ghost predicate First(s: Server, target: string, hosts: seq<string>, norm: Names, r: Record) {
    if NothingListed(s, target, hosts, norm) then Matches(ByContent(target), r, norm)
    else r in s.listed && InScope(r, target, hosts, norm)
  }

  ghost predicate Covered(s: Server, target: string, hosts: seq<string>, norm: Names, name: Option<string>) {
    exists q :: q in s.zone && q.id != "" && First(s, target, hosts, norm, q) && norm(q.name) == name
  }

  /** What has been collected once the hosts in `asked` have been gone through. */
  ghost predicate Collected(s: Server, target: string, hosts: seq<string>, norm: Names, asked: seq<string>, r: Record) {
    || First(s, target, hosts, norm, r)
    || (TypeOf(r) == "CNAME" && IsWanted(r, asked, norm) && !Covered(s, target, hosts, norm, norm(r.name)))
  }

  ghost predicate Gathered(m: Records, s: Server, target: string, hosts: seq<string>, norm: Names, asked: seq<string>) {
    From(m, s) && forall r :: r in s.zone && r.id != "" ==> (r.id in m <==> Collected(s, target, hosts, norm, asked, r))
  }

  lemma ListingFirst(listed: Records, m: Records, s: Server, target: string, hosts: seq<string>,
      wanted: set<Option<string>>, norm: Names)
    requires Faithful(s) && listed == Added(map[], s.listed) && m == Kept(listed, target, wanted, norm)
    requires forall n :: n in wanted <==> n.Some? && exists h :: h in hosts && norm(h) == n
    ensures From(m, s)
    ensures forall r :: r in s.zone && r.id != "" ==> (r.id in m <==> r in s.listed && InScope(r, target, hosts, norm))
    ensures m == map[] <==> NothingListed(s, target, hosts, norm)
  {
    AddedExactly(map[], s.listed, s);
    forall r | r in s.zone && r.id != "" ensures r.id in m <==> r in s.listed && InScope(r, target, hosts, norm) {
      if r.id in listed { assert listed[r.id] == r; }
    }
    if m != map[] {
      var id :| id in m;
      assert m[id] in s.listed && InScope(m[id], target, hosts, norm);
    }
  }

  /** The records before any host is asked for. */
  lemma NobodyAsked(m: Records, s: Server, target: string, hosts: seq<string>, norm: Names)
    requires From(m, s)
    requires forall r :: r in s.zone && r.id != "" ==> (r.id in m <==> First(s, target, hosts, norm, r))
    ensures Gathered(m, s, target, hosts, norm, [])
  {
  }

  lemma SeedFirst(s: Server, target: string, hosts: seq<string>, norm: Names)
    requires Faithful(s) && NothingListed(s, target, hosts, norm)
    ensures Gathered(Added(map[], Filtered(s.zone, ByContent(target), norm)), s, target, hosts, norm, [])
  {
    FilteredExactly(s.zone, ByContent(target), norm);
    AddedExactly(map[], Filtered(s.zone, ByContent(target), norm), s);
    NobodyAsked(Added(map[], Filtered(s.zone, ByContent(target), norm)), s, target, hosts, norm);
  }

  lemma WantedByOneMore(r: Record, asked: seq<string>, h: string, norm: Names)
    ensures IsWanted(r, asked + [h], norm) <==> IsWanted(r, asked, norm) || (norm(h).Some? && norm(h) == norm(r.name))
  {
    if norm(h).Some? && norm(h) == norm(r.name) { assert h in asked + [h]; }
    if IsWanted(r, asked, norm) {
      var k :| k in asked && norm(k) == norm(r.name);
      assert k in asked + [h];
    }
  }

  /** A host without a valid name, or about which something is known, is passed over. */
  lemma PassOver(m: Records, s: Server, target: string, hosts: seq<string>, norm: Names, asked: seq<string>, h: string)
    requires Faithful(s) && Gathered(m, s, target, hosts, norm, asked)
    requires norm(h).None? || norm(h) in NamesIn(m, norm)
    ensures Gathered(m, s, target, hosts, norm, asked + [h])
  {
    forall r | r in s.zone && r.id != ""
      ensures Collected(s, target, hosts, norm, asked + [h], r) <==> Collected(s, target, hosts, norm, asked, r)
    {
      WantedByOneMore(r, asked, h, norm);
      if norm(h).Some? && norm(h) == norm(r.name) && !Covered(s, target, hosts, norm, norm(h)) {
        var id :| id in m && norm(m[id].name) == norm(h);
        assert Collected(s, target, hosts, norm, asked, m[id]);
        assert IsWanted(m[id], asked, norm);
      }
    }
  }

  /** A host about which nothing is known is asked for. */
  lemma AskFor(m: Records, s: Server, target: string, hosts: seq<string>, norm: Names, asked: seq<string>, h: string)
    requires Faithful(s) && Gathered(m, s, target, hosts, norm, asked)
    requires norm(h).Some? && norm(h) !in NamesIn(m, norm)
    ensures Gathered(Added(m, Filtered(s.zone, ByName(norm(h).value), norm)), s, target, hosts, norm, asked + [h])
  {
    var rows := Filtered(s.zone, ByName(norm(h).value), norm);
    FilteredExactly(s.zone, ByName(norm(h).value), norm);
    AddedExactly(m, rows, s);
    assert !Covered(s, target, hosts, norm, norm(h)) by {
      if q :| q in s.zone && q.id != "" && First(s, target, hosts, norm, q) && norm(q.name) == norm(h) {
        assert q.id in m && m[q.id] == q;
      }
    }
    forall r | r in s.zone && r.id != ""
      ensures Collected(s, target, hosts, norm, asked + [h], r) <==> r.id in m || r in rows
    {
      WantedByOneMore(r, asked, h, norm);
    }
  }

  lemma AllCovered(m: Records, s: Server, target: string, hosts: seq<string>, norm: Names)
    requires Faithful(s) && Gathered(m, s, target, hosts, norm, [])
    requires forall h :: h in hosts ==> norm(h) in NamesIn(m, norm)
    ensures Gathered(m, s, target, hosts, norm, hosts)
  {
    forall r | r in s.zone && r.id != ""
      ensures Collected(s, target, hosts, norm, hosts, r) <==> Collected(s, target, hosts, norm, [], r)
    {
      if IsWanted(r, hosts, norm) {
        var h :| h in hosts && norm(h) == norm(r.name);
        var id :| id in m && norm(m[id].name) == norm(h);
        assert Collected(s, target, hosts, norm, [], m[id]);
      }
    }
  }

  /** The loop over the hosts the batch did not cover. */
  method CoverHosts(m: Records, s: Server, target: string, hosts: seq<string>, norm: Names, start: nat)
    returns (r: Option<Records>, k: nat)
    requires Faithful(s) && Gathered(m, s, target, hosts, norm, [])
    ensures r.Some? ==> Gathered(r.value, s, target, hosts, norm, hosts)
    ensures r.None? ==> k > 0 && s.fails(k - 1)
  {
    k := start;
    var records := m;
    for i := 0 to |hosts|
      invariant Gathered(records, s, target, hosts, norm, hosts[..i])
    {
      var h := norm(hosts[i]);
      assert hosts[..i + 1] == hosts[..i] + [hosts[i]];
      if h.Some? && h !in NamesIn(records, norm) {
        k := k + 1;
        if s.fails(k - 1) {
          return None, k;
        }
        AskFor(records, s, target, hosts, norm, hosts[..i], hosts[i]);
        records := Collect(records, Answer(s, ByName(h.value), norm));
      } else {
        PassOver(records, s, target, hosts, norm, hosts[..i], hosts[i]);
      }
    }
    assert hosts[..|hosts|] == hosts;
    r := Some(records);
  }

  /** The batch path, from any listing; None when a read fails, with the number of reads made. */
  method Batch(s: Server, target: string, hosts: seq<string>, norm: Names) returns (r: Option<Records>, k: nat)
    requires Faithful(s)
    ensures r.Some? ==> Gathered(r.value, s, target, hosts, norm, hosts)
    ensures r.None? ==> k > 0 && s.fails(k - 1)
  {
    k := 1;
    if s.fails(0) {
      return None, k;
    }
    var listed := Collect(map[], Answer(s, AllCnames, norm));
    var wanted := WantedNames(hosts, norm);
    var records := Kept(listed, target, wanted, norm);
    ListingFirst(listed, records, s, target, hosts, wanted, norm);
    if records == map[] {
      k := k + 1;
      if s.fails(k - 1) {
        return None, k;
      }
      SeedFirst(s, target, hosts, norm);
      records := Collect(records, Answer(s, ByContent(target), norm));
    } else {
      NobodyAsked(records, s, target, hosts, norm);
    }
    var uncovered := AnyUncovered(records, hosts, norm);
    if uncovered {
      r, k := CoverHosts(records, s, target, hosts, norm, k);
    } else {
      AllCovered(records, s, target, hosts, norm);
      r := Some(records);
    }
  }

  // ---------------------------------------------------------------- what the batch path amounts to

  /** Every record in scope the first reads missed bears the name of a service they said nothing about. */
  ghost predicate ListingSuffices(s: Server, target: string, hosts: seq<string>, norm: Names) {
    forall r :: r in s.zone && r.id != "" && InScope(r, target, hosts, norm) && !First(s, target, hosts, norm, r) ==>
      IsWanted(r, hosts, norm) && !Covered(s, target, hosts, norm, norm(r.name))
  }

  lemma GatheredInScope(m: Records, s: Server, target: string, hosts: seq<string>, norm: Names)
    requires Faithful(s) && Gathered(m, s, target, hosts, norm, hosts)
    ensures Within(m, s, target, hosts, norm)
  {
  }

  lemma GatheredHasHosts(m: Records, s: Server, target: string, hosts: seq<string>, norm: Names, h: string)
    requires Faithful(s) && Gathered(m, s, target, hosts, norm, hosts) && h in hosts
    ensures HasHost(m, s, h, norm)
  {
    if r :| norm(h).Some? && r in s.zone && r.id != "" && TypeOf(r) == "CNAME" && norm(r.name) == norm(h) {
      if q :| q in s.zone && q.id != "" && First(s, target, hosts, norm, q) && norm(q.name) == norm(h) {
        assert q.id in m && m[q.id] == q;
      } else {
        assert r.id in m && m[r.id] == r;
      }
    }
  }

  /** The batch path delivers the specified records exactly when its listing suffices. */
  lemma GatheredExactly(m: Records, s: Server, target: string, hosts: seq<string>, norm: Names)
    requires Faithful(s) && Gathered(m, s, target, hosts, norm, hosts)
    ensures m == Specified(s, target, hosts, norm) <==> ListingSuffices(s, target, hosts, norm)
  {
    var spec := Specified(s, target, hosts, norm);
    GatheredInScope(m, s, target, hosts, norm);
    forall r | r in s.zone && r.id != ""
      ensures r.id in spec <==> InScope(r, target, hosts, norm)
      ensures r.id in m ==> r.id in spec && m[r.id] == spec[r.id]
    {
      if r.id in spec { assert spec[r.id] == r; }
    }
    if ListingSuffices(s, target, hosts, norm) {
      forall id ensures id in m <==> id in spec
                ensures id in m ==> m[id] == spec[id]
      {
        if id in m { assert m[id] in s.zone; }
        if id in spec { assert Collected(s, target, hosts, norm, hosts, spec[id]); }
      }
    } else {
      var r :| r in s.zone && r.id != "" && InScope(r, target, hosts, norm)
          && !Collected(s, target, hosts, norm, hosts, r);
      assert r.id in spec && r.id !in m;
    }
  }

  /** A complete listing suffices. */
  lemma CompleteSuffices(s: Server, target: string, hosts: seq<string>, norm: Names)
    requires Faithful(s) && Complete(s)
    ensures ListingSuffices(s, target, hosts, norm)
  {
  }

  /** What a fetch can return: what the batch path gathered, or by the fallback exactly what was specified. */
  ghost predicate Returned(m: Records, s: Server, target: string, hosts: seq<string>, norm: Names)
    requires Faithful(s)
  {
    Gathered(m, s, target, hosts, norm, hosts) || m == Specified(s, target, hosts, norm)
  }

  /** A fetch's result is what was specified exactly if the listing sufficed, where it came by the batch path. */
  lemma ReturnedExactly(m: Records, s: Server, target: string, hosts: seq<string>, norm: Names)
    requires Faithful(s) && Returned(m, s, target, hosts, norm)
    ensures m == Specified(s, target, hosts, norm) <==>
            (Gathered(m, s, target, hosts, norm, hosts) ==> ListingSuffices(s, target, hosts, norm))
  {
    if Gathered(m, s, target, hosts, norm, hosts) { GatheredExactly(m, s, target, hosts, norm); }
  }

  /**
   * The batch path refines the per-host one: whatever read fails first, a fetch that returns delivers exactly the
   * specified records when the listing suffices (as a complete one does), and when no read fails only then; from any
   * listing it returns only records in scope, and at least one for every service that has any. A single failed read
   * never loses the fetch.
   */
  method FetchDns(s: Server, target: string, hosts: seq<string>, norm: Names) returns (r: Option<Records>)
    requires Faithful(s)
    ensures r.Some? ==> Returned(r.value, s, target, hosts, norm)
    ensures r.Some? && Complete(s) ==> r.value == Specified(s, target, hosts, norm)
    ensures r.Some? && ListingSuffices(s, target, hosts, norm) ==> r.value == Specified(s, target, hosts, norm)
    ensures (forall k: nat :: !s.fails(k)) ==>
              r.Some? && (r.value == Specified(s, target, hosts, norm) <==> ListingSuffices(s, target, hosts, norm))
    ensures r.Some? ==>
              Within(r.value, s, target, hosts, norm) && forall h :: h in hosts ==> HasHost(r.value, s, h, norm)
    ensures (forall j: nat, k: nat :: s.fails(j) && s.fails(k) ==> j == k) ==> r.Some?
  {
    var k;
    if Complete(s) { CompleteSuffices(s, target, hosts, norm); }
    r, k := Batch(s, target, hosts, norm);
    if r.Some? {
      GatheredInScope(r.value, s, target, hosts, norm);
      GatheredExactly(r.value, s, target, hosts, norm);
      forall h | h in hosts ensures HasHost(r.value, s, h, norm) {
        GatheredHasHosts(r.value, s, target, hosts, norm, h);
      }
    } else {
      r := PerHost(s, target, hosts, norm, k);
      if r.Some? { SpecifiedIsSatisfactory(s, target, hosts, norm); }
    }
  }

  lemma SpecifiedIsSatisfactory(s: Server, target: string, hosts: seq<string>, norm: Names)
    requires Faithful(s)
    ensures var m := Specified(s, target, hosts, norm);
            Within(m, s, target, hosts, norm) && forall h :: h in hosts ==> HasHost(m, s, h, norm)
  {
    var m := Specified(s, target, hosts, norm);
    forall h | h in hosts ensures HasHost(m, s, h, norm) {
      if norm(h).Some? { AllOfIsSome(m, s, h, norm); }
    }
  }
}
