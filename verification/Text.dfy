/** Strings as Python sees them: trimming, prefixes, and the code-point order used for sorting. */
module Text {

  /** White space, as far as stripping is concerned. */
  predicate IsSpace(c: char) {
    var n := c as int;
    || 0x09 <= n <= 0x0d || 0x1c <= n <= 0x20 || n == 0x85 || n == 0xa0 || n == 0x1680
    || 0x2000 <= n <= 0x200a || n == 0x2028 || n == 0x2029 || n == 0x202f || n == 0x205f || n == 0x3000
  }

  function TrimLeft(s: string): string {
    if s != "" && IsSpace(s[0]) then TrimLeft(s[1..]) else s
  }

  function TrimRight(s: string): string {
    if s != "" && IsSpace(s[|s| - 1]) then TrimRight(s[..|s| - 1]) else s
  }

  function Strip(s: string): string {
    TrimRight(TrimLeft(s))
  }

  /** No white space at either end. */
  predicate Trimmed(s: string) {
    s != "" ==> !IsSpace(s[0]) && !IsSpace(s[|s| - 1])
  }

  lemma TrimRightEnd(s: string)
    ensures var t := TrimRight(s);
            && t <= s
            && (t != "" ==> !IsSpace(t[|t| - 1]))
            && (forall k :: |t| <= k < |s| ==> IsSpace(s[k]))
  {
  }

  lemma TrimLeftEnd(s: string)
    ensures var t := TrimLeft(s);
            && |t| <= |s| && s[|s| - |t|..] == t
            && (t != "" ==> !IsSpace(t[0]))
  {
  }

  /** Stripping leaves a trimmed string, and leaves exactly the trimmed strings alone. */
  lemma StripFixesTrimmed(s: string)
    ensures Trimmed(Strip(s))
    ensures Strip(s) == s <==> Trimmed(s)
  {
    TrimLeftEnd(s);
    TrimRightEnd(TrimLeft(s));
  }

  lemma TrimRightExactly(t: string) returns (trail: string)
    ensures t == TrimRight(t) + trail && forall c :: c in trail ==> IsSpace(c)
  {
    var kept := TrimRight(t);
    TrimRightEnd(t);
    trail := t[|kept|..];
    assert t == t[..|kept|] + t[|kept|..];
    forall c | c in trail ensures IsSpace(c) {
      var k :| 0 <= k < |trail| && trail[k] == c;
      assert t[|kept| + k] == c;
    }
  }

  /** Stripping takes away white space at both ends, and only that. */
  lemma StripExactly(s: string) returns (lead: string, trail: string)
    ensures s == lead + (Strip(s) + trail)
    ensures (forall c :: c in lead ==> IsSpace(c)) && (forall c :: c in trail ==> IsSpace(c)) && Trimmed(Strip(s))
  {
    var t := TrimLeft(s);
    TrimLeftExactly(s);
    StripFixesTrimmed(s);
    lead := s[..|s| - |t|];
    trail := TrimRightExactly(t);
  }

  lemma {:induction false} TrimLeftExactly(s: string)
    ensures var t := TrimLeft(s);
            |t| <= |s| && s == s[..|s| - |t|] + t && forall k :: 0 <= k < |s| - |t| ==> IsSpace(s[k])
  {
    if s != "" && IsSpace(s[0]) {
      TrimLeftExactly(s[1..]);
      var t := TrimLeft(s[1..]);
      assert forall k :: 1 <= k < |s| - |t| ==> s[k] == s[1..][k - 1];
    }
  }

  /** Lexicographic order by code point. */
  predicate AtMost(a: string, b: string) {
    || a == ""
    || (b != "" && (a[0] < b[0] || (a[0] == b[0] && AtMost(a[1..], b[1..]))))
  }

  /** a comes first, or is b: it is a beginning of b, or has the smaller character where they first differ. */
  lemma {:induction false} AtMostExactly(a: string, b: string)
    ensures AtMost(a, b) <==>
            a <= b || exists i :: 0 <= i < |a| && i < |b| && a[..i] == b[..i] && a[i] < b[i]
  {
    if a != "" && b != "" {
      AtMostExactly(a[1..], b[1..]);
      if a[0] == b[0] {
        assert a == [a[0]] + a[1..] && b == [b[0]] + b[1..];
        if i :| 0 <= i < |a[1..]| && i < |b[1..]| && a[1..][..i] == b[1..][..i] && a[1..][i] < b[1..][i] {
          assert a[..i + 1] == [a[0]] + a[1..][..i] && b[..i + 1] == [b[0]] + b[1..][..i];
        }
        if i :| 0 <= i < |a| && i < |b| && a[..i] == b[..i] && a[i] < b[i] {
          assert a[1..][..i - 1] == a[..i][1..] && b[1..][..i - 1] == b[..i][1..];
        }
      } else {
        forall i | 0 < i < |a| && i < |b| ensures a[..i] != b[..i] { assert a[..i][0] != b[..i][0]; }
        if a[0] < b[0] { assert a[..0] == b[..0]; }
      }
    }
  }

  lemma AtMostAntisymmetric(a: string, b: string)
    requires AtMost(a, b) && AtMost(b, a)
    ensures a == b
  {
    if a != "" {
      AtMostAntisymmetric(a[1..], b[1..]);
      assert a == [a[0]] + a[1..] && b == [b[0]] + b[1..];
    }
  }

  lemma AtMostTotal(a: string, b: string)
    ensures AtMost(a, b) || AtMost(b, a)
  {
  }

  lemma AtMostTransitive(a: string, b: string, c: string)
    requires AtMost(a, b) && AtMost(b, c)
    ensures AtMost(a, c)
  {
  }

  predicate IsLeast(m: string, s: set<string>) {
    m in s && forall x :: x in s ==> AtMost(m, x)
  }

  lemma LeastExists(s: set<string>) returns (m: string)
    requires s != {}
    ensures IsLeast(m, s)
  {
    var x :| x in s;
    AtMostTotal(x, x);
    if s == {x} {
      m := x;
    } else {
      var rest := LeastExists(s - {x});
      AtMostTotal(x, rest);
      m := if AtMost(x, rest) then x else rest;
      forall y | y in s ensures AtMost(m, y) {
        if y in s - {x} && m == x { AtMostTransitive(x, rest, y); }
      }
    }
  }

  lemma LeastIsUnique(s: set<string>)
    requires s != {}
    ensures exists m :: IsLeast(m, s)
    ensures forall a, b :: IsLeast(a, s) && IsLeast(b, s) ==> a == b
  {
    var m := LeastExists(s);
    forall a, b | IsLeast(a, s) && IsLeast(b, s) ensures a == b {
      AtMostAntisymmetric(a, b);
    }
  }

  /** The elements of s in increasing order. */
  function Sorted(s: set<string>): (r: seq<string>)
    ensures |r| == |s|
  {
    if s == {} then []
    else
      LeastIsUnique(s);
      var m: string :| IsLeast(m, s);
      [m] + Sorted(s - {m})
  }

  /** The elements of s once each, in increasing order. */
  lemma {:induction false} SortedOrder(s: set<string>)
    ensures forall x :: x in Sorted(s) <==> x in s
    ensures forall i, j :: 0 <= i < j < |s| ==> Sorted(s)[i] != Sorted(s)[j] && AtMost(Sorted(s)[i], Sorted(s)[j])
  {
    if s != {} {
      LeastIsUnique(s);
      SortedOrder(s - {Sorted(s)[0]});
    }
  }

  lemma Regroup<T>(a: seq<T>, b: seq<T>, c: seq<T>)
    ensures a + (b + c) == (a + b) + c
  {
  }
}
