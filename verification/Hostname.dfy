/** Host name normalization: what it accepts, what it produces, and when it is idempotent. */
module Hostname {
  import opened Text
  import opened Models

  const LF := '\n'

  predicate Ascii(s: string) {
    forall c :: c in s ==> c < 128 as char
  }

  function AsciiLower(s: string): string {
    if s == "" then ""
    else [if 'A' <= s[0] <= 'Z' then (s[0] as int + 32) as char else s[0]] + AsciiLower(s[1..])
  }

  predicate EndsLine(s: string) {
    s != "" && s[|s| - 1] == LF
  }

  /** What is assumed of lower-casing: the usual mapping on ASCII text, and line feeds stay what and where they are. */
  ghost predicate Lowering(lower: string -> string) {
    && (forall s :: Ascii(s) ==> lower(s) == AsciiLower(s))
    && (forall s :: LF in lower(s) <==> LF in s)
    && (forall s :: EndsLine(lower(s)) <==> EndsLine(s))
  }

  lemma {:induction false} LowerKeepsLines(s: string)
    ensures |AsciiLower(s)| == |s|
    ensures LF in AsciiLower(s) <==> LF in s
    ensures EndsLine(AsciiLower(s)) <==> EndsLine(s)
  {
    if s != "" {
      LowerKeepsLines(s[1..]);
      assert s == [s[0]] + s[1..];
    }
  }

  /** The assumption can be met. */
  lemma LoweringExists()
    ensures Lowering(s => AsciiLower(s))
  {
    forall s ensures (LF in AsciiLower(s) <==> LF in s) && (EndsLine(AsciiLower(s)) <==> EndsLine(s)) {
      LowerKeepsLines(s);
    }
  }

  // ---------------------------------------------------------------- cutting

  predicate StandsAt(s: string, i: nat, p: string) {
    i + |p| <= |s| && s[i..i + |p|] == p
  }

  /** The first position of p in s, or the length of s. */
  function Find(s: string, p: string): (i: nat)
    ensures i <= |s|
  {
    if s == "" || StandsAt(s, 0, p) then 0 else 1 + Find(s[1..], p)
  }

  /** What stands before the first p, or everything. */
  function Before(s: string, p: string): string {
    s[..Find(s, p)]
  }

  /** What stands after the first p, or everything. */
  function Past(s: string, p: string): string {
    var i := Find(s, p);
    if i + |p| <= |s| && i < |s| then s[i + |p|..] else s
  }

  function TrimDots(s: string): string {
    if s != "" && s[|s| - 1] == '.' then TrimDots(s[..|s| - 1]) else s
  }

  /** The parts between the dots. */
  function Labels(s: string): seq<string> {
    var i := Find(s, ".");
    if i == |s| then [s] else [s[..i]] + Labels(s[i + 1..])
  }

  function WithoutPort(s: string): string {
    if s != "" && s[0] == '[' then s else Before(s, ":")
  }

  /** The part of the input that should be a host name, before lower-casing. */
  function Bare(hostname: string): string {
    var raw := Past(Strip(hostname), "://");
    var host := Before(Before(Before(raw, "/"), "?"), "#");
    TrimDots(Strip(WithoutPort(Past(host, "@"))))
  }

  function Core(hostname: string, lower: string -> string): string {
    lower(Bare(hostname))
  }

  // ---------------------------------------------------------------- labels

  predicate AlphaNumeric(c: char) {
    'a' <= c <= 'z' || '0' <= c <= '9'
  }

  /** A label in the sense of section 2.1 of RFC 1123, in lower case. */
  predicate Label(l: string) {
    && 1 <= |l| <= 63
    && AlphaNumeric(l[0]) && AlphaNumeric(l[|l| - 1])
    && forall c :: c in l ==> AlphaNumeric(c) || c == '-'
  }

  /** `LABEL_REGEX.match`: `$` also matches before a final line feed. */
  predicate RegexMatches(l: string) {
    Label(l) || (l != "" && l[|l| - 1] == LF && Label(l[..|l| - 1]))
  }

  predicate Accepted(labels: seq<string>, i: nat)
    requires i < |labels|
  {
    var l := labels[i];
    && l != "" && |l| <= 63
    && if l == "*" then i == 0 && |labels| >= 2 else RegexMatches(l)
  }

  predicate AllAccepted(labels: seq<string>) {
    forall i :: 0 <= i < |labels| ==> Accepted(labels, i)
  }

  /** A well-formed name: at most 253 characters, proper labels, possibly a leading `*` label. */
  predicate WellFormed(name: string) {
    var labels := Labels(name);
    && name != "" && |name| <= 253
    && forall i :: 0 <= i < |labels| ==> Label(labels[i]) || (labels[i] == "*" && i == 0 && |labels| >= 2)
  }

  function Checked(name: string): Option<string> {
    if name == "" || |name| > 253 || !AllAccepted(Labels(name)) then None else Some(name)
  }

  function Normalized(hostname: Option<string>, lower: string -> string): Option<string> {
    if hostname.None? || Strip(hostname.value) == "" then None else Checked(Core(hostname.value, lower))
  }

  method NormalizeHostname(hostname: Option<string>, lower: string -> string) returns (r: Option<string>)
    ensures r == Normalized(hostname, lower)
  {
    if hostname.None? || hostname.value == "" {
      return None;
    }
    var raw := Strip(hostname.value);
    if raw == "" {
      return None;
    }
    raw := Past(raw, "://");
    raw := Before(raw, "/");
    raw := Before(raw, "?");
    raw := Before(raw, "#");
    raw := Past(raw, "@");
    if !(raw != "" && raw[0] == '[') {
      raw := Before(raw, ":");
    }
    raw := lower(TrimDots(Strip(raw)));
    if raw == "" || |raw| > 253 {
      return None;
    }
    var labels := Labels(raw);
    for i := 0 to |labels|
      invariant forall k :: 0 <= k < i ==> Accepted(labels, k)
    {
      var part := labels[i];
      if part == "" || |part| > 63 {
        assert !Accepted(labels, i);
        return None;
      }
      if part == "*" {
        if i != 0 || |labels| < 2 {
          assert !Accepted(labels, i);
          return None;
        }
      } else if !RegexMatches(part) {
        assert !Accepted(labels, i);
        return None;
      }
    }
    r := Some(raw);
  }

  // ---------------------------------------------------------------- facts about cutting

  lemma {:induction false} FindNowhere(s: string, p: string, c: char)
    requires c in p && c !in s
    ensures Find(s, p) == |s|
  {
    if s != "" {
      assert s[0] in s;
      if |p| <= |s| { assert forall d :: d in s[0..|p|] ==> d in s; }
      FindNowhere(s[1..], p, c);
    }
  }

  lemma {:induction false} FindFirst(a: string, p: string, b: string)
    requires p != "" && p[0] !in a
    ensures Find(a + p + b, p) == |a|
  {
    var s := a + p + b;
    if a == "" {
      assert s == p + b;
    } else {
      assert s[0] == a[0] && a[0] in a;
      assert s[1..] == a[1..] + p + b;
      FindFirst(a[1..], p, b);
    }
  }

  lemma CutNowhere(s: string, p: string, c: char)
    requires p != "" && c in p && c !in s
    ensures Before(s, p) == s && Past(s, p) == s
  {
    FindNowhere(s, p, c);
  }

  lemma {:induction false} DotSplits(s: string)
    ensures var i := Find(s, ".");
            && '.' !in s[..i]
            && (if i == |s| then '.' !in s else s == s[..i] + "." + s[i + 1..])
  {
    if s != "" {
      if s[0] == '.' {
        assert StandsAt(s, 0, ".");
      } else {
        DotSplits(s[1..]);
        var i := Find(s[1..], ".");
        assert s[..1 + i] == [s[0]] + s[1..][..i];
        if i < |s| - 1 { assert s[1 + i + 1..] == s[1..][i + 1..]; }
      }
    }
  }

  ghost predicate InLabel(labels: seq<string>, c: char) {
    exists k :: 0 <= k < |labels| && c in labels[k]
  }

  lemma InLabelCons(l: string, labels: seq<string>, c: char)
    ensures InLabel([l] + labels, c) <==> c in l || InLabel(labels, c)
  {
    if c in l { assert c in ([l] + labels)[0]; }
    if k :| 0 <= k < |labels| && c in labels[k] { assert c in ([l] + labels)[k + 1]; }
  }

  /** The name is made of the characters of its labels, and dots. */
  lemma {:induction false} LabelsCover(s: string, c: char)
    ensures c != '.' ==> (c in s <==> InLabel(Labels(s), c))
  {
    var i := Find(s, ".");
    DotSplits(s);
    if i < |s| {
      LabelsCover(s[i + 1..], c);
      InLabelCons(s[..i], Labels(s[i + 1..]), c);
      if c != '.' { assert c in s <==> c in s[..i] || c in s[i + 1..]; }
    } else {
      assert Labels(s)[0] == s;
    }
  }

  /** The name starts with its first label and ends with its last. */
  lemma {:induction false} LabelsEnds(s: string)
    ensures |Labels(s)| >= 1
    ensures Labels(s)[0] != "" ==> s != "" && s[0] == Labels(s)[0][0]
    ensures var l := Labels(s)[|Labels(s)| - 1]; l != "" ==> s != "" && s[|s| - 1] == l[|l| - 1]
  {
    var i := Find(s, ".");
    if i < |s| { LabelsEnds(s[i + 1..]); }
  }

  predicate NameChar(c: char) {
    AlphaNumeric(c) || c == '-' || c == '.' || c == '*' || c == LF
  }

  lemma AcceptedChars(labels: seq<string>, i: nat, c: char)
    requires i < |labels| && Accepted(labels, i) && c in labels[i]
    ensures NameChar(c) && c != '.'
  {
    var l := labels[i];
    if !Label(l) && l != "*" { assert l == l[..|l| - 1] + [LF]; }
  }

  /**
   * An accepted name is made of name characters, starts with one that is neither white space nor a bracket, and
   * has no dot at the end.
   */
  lemma AcceptedName(r: string)
    requires Checked(r) == Some(r)
    ensures forall c :: c in r ==> NameChar(c)
    ensures AlphaNumeric(r[0]) || r[0] == '*'
    ensures AlphaNumeric(r[|r| - 1]) || r[|r| - 1] == LF
  {
    var labels := Labels(r);
    LabelsEnds(r);
    assert Accepted(labels, 0) && Accepted(labels, |labels| - 1);
    forall c | c in r ensures NameChar(c) {
      if c != '.' {
        LabelsCover(r, c);
        var k :| 0 <= k < |labels| && c in labels[k];
        assert Accepted(labels, k);
        AcceptedChars(labels, k, c);
      }
    }
  }

  // ---------------------------------------------------------------- re-normalizing

  lemma {:induction false} LowerFixes(r: string)
    requires forall c :: c in r ==> NameChar(c)
    ensures AsciiLower(r) == r && Ascii(r)
  {
    if r != "" {
      assert r[0] in r;
      assert forall c :: c in r[1..] ==> c in r;
      LowerFixes(r[1..]);
      assert r == [r[0]] + r[1..];
    }
  }

  lemma NothingToCut(r: string)
    requires forall c :: c in r ==> NameChar(c)
    ensures Past(r, "://") == r && Before(r, "/") == r && Before(r, "?") == r && Before(r, "#") == r
    ensures Past(r, "@") == r && WithoutPort(r) == r
  {
    assert ':' in "://";
    CutNowhere(r, "://", ':');
    CutNowhere(r, "/", '/');
    CutNowhere(r, "?", '?');
    CutNowhere(r, "#", '#');
    CutNowhere(r, "@", '@');
    CutNowhere(r, ":", ':');
  }

  /** A name of name characters goes through untouched but for its ends. */
  lemma CoreOfName(r: string, lower: string -> string)
    requires Lowering(lower) && forall c :: c in r ==> NameChar(c)
    requires Trimmed(r) && (r != "" ==> r[|r| - 1] != '.')
    ensures Core(r, lower) == r
  {
    StripFixesTrimmed(r);
    NothingToCut(r);
    LowerFixes(r);
    assert TrimDots(r) == r;
  }

  lemma StripEnd(r: string)
    requires r != "" && r[|r| - 1] == LF
    ensures |Strip(r)| < |r|
  {
    TrimLeftEnd(r);
    TrimRightEnd(TrimLeft(r));
    if TrimLeft(r) == r { assert TrimRight(r) == TrimRight(r[..|r| - 1]); TrimRightEnd(r[..|r| - 1]); }
  }

  lemma {:induction false} CutsShorten(s: string)
    ensures |TrimDots(s)| <= |s| && forall c :: c in TrimDots(s) ==> c in s
  {
    if s != "" && s[|s| - 1] == '.' { CutsShorten(s[..|s| - 1]); }
  }

  lemma StripWithin(s: string)
    ensures |Strip(s)| <= |s| && forall c :: c in Strip(s) ==> c in s
  {
    TrimLeftEnd(s);
    TrimRightEnd(TrimLeft(s));
  }

  lemma CutWithin(s: string, p: string)
    ensures |Before(s, p)| <= |s| && |Past(s, p)| <= |s|
    ensures forall c :: c in Before(s, p) ==> c in s
    ensures forall c :: c in Past(s, p) ==> c in s
  {
  }

  /** Everything before lower-casing only removes characters. */
  lemma BareWithin(hostname: string)
    ensures |Bare(hostname)| <= |Strip(hostname)| && forall c :: c in Bare(hostname) ==> c in hostname
  {
    var raw := Past(Strip(hostname), "://");
    var host := Before(Before(Before(raw, "/"), "?"), "#");
    StripWithin(hostname);
    CutWithin(Strip(hostname), "://");
    CutWithin(raw, "/");
    CutWithin(Before(raw, "/"), "?");
    CutWithin(Before(Before(raw, "/"), "?"), "#");
    CutWithin(host, "@");
    CutWithin(Past(host, "@"), ":");
    var bare := WithoutPort(Past(host, "@"));
    StripWithin(bare);
    CutsShorten(Strip(bare));
  }

  // ---------------------------------------------------------------- main results

  /** A result is well formed exactly when no line feed slipped through the pattern. */
  lemma WellFormedExactly(r: string)
    requires Checked(r) == Some(r)
    ensures WellFormed(r) <==> LF !in r
  {
    var labels := Labels(r);
    LabelsCover(r, LF);
    AcceptedName(r);
    forall i | 0 <= i < |labels|
      ensures Label(labels[i]) || (labels[i] == "*" && i == 0 && |labels| >= 2) <==> LF !in labels[i]
    {
      assert Accepted(labels, i);
    }
    if LF in r {
      var k :| 0 <= k < |labels| && LF in labels[k];
    }
  }

  /**
   * Whether the result is well formed can be read off the input: no line feed in the part that should be a host
   * name.
   */
  lemma WellFormedOnInput(hostname: string, lower: string -> string)
    requires Lowering(lower) && Normalized(Some(hostname), lower).Some?
    ensures WellFormed(Normalized(Some(hostname), lower).value) <==> LF !in Bare(hostname)
  {
    WellFormedExactly(lower(Bare(hostname)));
  }

  /** Every name produced from an input without line feeds is well formed, for any text around it. */
  lemma ResultsAreWellFormed(hostname: string, lower: string -> string)
    requires Lowering(lower) && LF !in hostname
    ensures Normalized(Some(hostname), lower).Some? ==> WellFormed(Normalized(Some(hostname), lower).value)
  {
    if Normalized(Some(hostname), lower).Some? {
      BareWithin(hostname);
      WellFormedExactly(lower(Bare(hostname)));
    }
  }

  /** Normalizing a result again returns it unless it ends in a line feed. */
  lemma ResultAgain(hostname: Option<string>, r: string, lower: string -> string)
    requires Lowering(lower) && Normalized(hostname, lower) == Some(r)
    ensures Normalized(Some(r), lower) == Some(r) <==> r[|r| - 1] != LF
  {
    AcceptedName(r);
    if r[|r| - 1] == LF {
      BareWithin(r);
      StripEnd(r);
      LowerFixes(Bare(r));
      LowerKeepsLines(Bare(r));
    } else {
      StripFixesTrimmed(r);
      CoreOfName(r, lower);
    }
  }

  /**
   * Idempotence, exactly and in terms of the input: the second pass returns what the first returned unless the part
   * that should be a host name, once stripped of white space and then of final dots, ends in a line feed.
   */
  lemma IdempotentExactly(hostname: string, lower: string -> string)
    requires Lowering(lower) && Normalized(Some(hostname), lower).Some?
    ensures Normalized(Normalized(Some(hostname), lower), lower) == Normalized(Some(hostname), lower) <==>
            !EndsLine(Bare(hostname))
  {
    ResultAgain(Some(hostname), lower(Bare(hostname)), lower);
  }

  /** The well-formed names are among the fixed points. */
  lemma WellFormedIsFixed(r: string, lower: string -> string)
    requires Lowering(lower) && WellFormed(r)
    ensures Normalized(Some(r), lower) == Some(r)
  {
    WellFormedIsAccepted(r);
    AcceptedName(r);
    WellFormedExactly(r);
    StripFixesTrimmed(r);
    CoreOfName(r, lower);
  }

  lemma WellFormedIsAccepted(r: string)
    requires WellFormed(r)
    ensures Checked(r) == Some(r)
  {
    var labels := Labels(r);
    forall i | 0 <= i < |labels| ensures Accepted(labels, i) {}
  }

  ghost predicate Free(s: string, c: char) {
    c !in s
  }

  lemma CutFirst(a: string, p: string, b: string)
    requires p != "" && Free(a, p[0])
    ensures Before(a + p + b, p) == a && Past(a + p + b, p) == b
  {
    FindFirst(a, p, b);
    assert (a + p + b)[|a| + |p|..] == b;
  }

  // ---------------------------------------------------------------- spellings of a name

  lemma {:induction false} LowerAt(s: string, k: nat)
    requires k < |s|
    ensures |AsciiLower(s)| == |s|
    ensures AsciiLower(s)[k] == if 'A' <= s[k] <= 'Z' then (s[k] as int + 32) as char else s[k]
  {
    LowerKeepsLines(s);
    if k > 0 { LowerAt(s[1..], k - 1); }
  }

  /** A letter in either case, or any other character a well-formed name is made of. */
  predicate Spelling(c: char) {
    'A' <= c <= 'Z' || (NameChar(c) && c != LF)
  }

  lemma SpellingAt(s: string, r: string, k: nat)
    requires WellFormed(r) && AsciiLower(s) == r && k < |s|
    ensures |s| == |r| && Spelling(s[k])
    ensures k == 0 || k == |s| - 1 ==> 'A' <= s[k] <= 'Z' || AlphaNumeric(s[k]) || (k == 0 && s[k] == '*')
  {
    WellFormedIsAccepted(r);
    AcceptedName(r);
    WellFormedExactly(r);
    LowerAt(s, k);
    assert r[k] in r;
  }

  lemma SpellingChars(s: string, r: string, c: char)
    requires WellFormed(r) && AsciiLower(s) == r && c in s
    ensures Spelling(c)
  {
    var k :| 0 <= k < |s| && s[k] == c;
    SpellingAt(s, r, k);
  }

  lemma SpellingIsAscii(s: string)
    requires forall c :: c in s ==> Spelling(c)
    ensures Ascii(s)
  {
  }

  /** Neither white space nor punctuation that the normalizer cuts at or trims. */
  predicate Solid(c: char) {
    'A' <= c <= 'Z' || AlphaNumeric(c) || c == '*'
  }

  lemma SolidExactly(c: char)
    requires Solid(c)
    ensures !IsSpace(c) && c != '[' && c != '.'
  {
  }

  lemma SpellingBegins(s: string, r: string)
    requires WellFormed(r) && AsciiLower(s) == r && s != ""
    ensures Solid(s[0])
  {
    SpellingAt(s, r, 0);
  }

  lemma SpellingCloses(s: string, r: string)
    requires WellFormed(r) && AsciiLower(s) == r && s != ""
    ensures Solid(s[|s| - 1])
  {
    SpellingAt(s, r, |s| - 1);
  }

  lemma SpellingEnds(s: string, r: string)
    requires WellFormed(r) && AsciiLower(s) == r
    ensures |s| == |r| > 0
    ensures !IsSpace(s[0]) && s[0] != '[' && !IsSpace(s[|s| - 1]) && s[|s| - 1] != '.'
  {
    LowerKeepsLines(s);
    SpellingBegins(s, r);
    SpellingCloses(s, r);
    SolidExactly(s[0]);
    SolidExactly(s[|s| - 1]);
  }

  /** What a spelling of a well-formed name is made of, and how it begins and ends. */
  lemma SpellingOf(s: string, r: string)
    requires WellFormed(r) && AsciiLower(s) == r
    ensures |s| == |r| > 0 && (forall c :: c in s ==> Spelling(c)) && Ascii(s)
    ensures !IsSpace(s[0]) && s[0] != '[' && !IsSpace(s[|s| - 1]) && s[|s| - 1] != '.'
  {
    forall c | c in s ensures Spelling(c) { SpellingChars(s, r, c); }
    SpellingIsAscii(s);
    SpellingEnds(s, r);
  }

  /** A name is accepted in any case, and comes out in lower case. */
  lemma AnyCaseIsLowered(s: string, r: string, lower: string -> string)
    requires Lowering(lower) && WellFormed(r) && AsciiLower(s) == r
    ensures Normalized(Some(s), lower) == Some(r)
  {
    SpellingOf(s, r);
    StripFixesTrimmed(s);
    assert !Spelling(':') && !Spelling('/') && !Spelling('?') && !Spelling('#') && !Spelling('@');
    CutNowhere(s, "://", ':');
    CutNowhere(s, "/", '/');
    CutNowhere(s, "?", '?');
    CutNowhere(s, "#", '#');
    CutNowhere(s, "@", '@');
    CutNowhere(s, ":", ':');
    assert TrimDots(s) == s;
    WellFormedIsAccepted(r);
  }

  // ---------------------------------------------------------------- what may stand around it

  /**
   * An address: scheme, credentials, host with dots after it and white space around both, port, and a path, query or
   * fragment; most of it optional.
   */
  datatype Address = Address(
    scheme: Option<string>,
    user: Option<string>,
    left: string,
    host: string,
    dots: string,
    right: string,
    port: Option<string>,
    tail: string)

  function HostPart(a: Address): string {
    a.left + ((a.host + a.dots) + a.right)
  }

  function HostAndPort(a: Address): string {
    if a.port.Some? then HostPart(a) + ":" + a.port.value else HostPart(a)
  }

  function Authority(a: Address): string {
    if a.user.Some? then a.user.value + "@" + HostAndPort(a) else HostAndPort(a)
  }

  function Spelled(a: Address): string {
    if a.scheme.Some? then a.scheme.value + "://" + (Authority(a) + a.tail) else Authority(a) + a.tail
  }

  predicate Ends(c: char) {
    c == '/' || c == '?' || c == '#'
  }

  ghost predicate Spaces(s: string) {
    forall c :: c in s ==> IsSpace(c)
  }

  /** No mark of a scheme begins in the first n characters. */
  ghost predicate NoMark(s: string, n: nat) {
    forall i :: 0 <= i < n ==> !StandsAt(s, i, "://")
  }

  /** The parts can be told apart, each by the first mark after it. */
  ghost predicate Readable(a: Address) {
    && Spaces(a.left) && Spaces(a.right) && (forall c :: c in a.dots ==> c == '.')
    && (a.tail != "" ==> Ends(a.tail[0]))
    && (forall c :: c in Authority(a) ==> !Ends(c))
    && (a.user.Some? ==> Free(a.user.value, '@'))
    && (a.user.None? && a.port.Some? ==> Free(a.port.value, '@'))
    && NoMark(Spelled(a), if a.scheme.Some? then |a.scheme.value| else |Spelled(a)|)
  }

  /** The text of an address, with white space around it. */
  ghost predicate Reads(s: string, lead: string, a: Address, trail: string) {
    && s == lead + (Spelled(a) + trail)
    && Spaces(lead) && Spaces(trail) && Trimmed(Spelled(a)) && Readable(a)
  }

  // From the parts to the host.

  lemma {:induction false} SkipLeading(lead: string, rest: string)
    requires Spaces(lead) && rest != "" && !IsSpace(rest[0])
    ensures TrimLeft(lead + rest) == rest
  {
    if lead == "" {
      assert lead + rest == rest;
    } else {
      assert lead[0] in lead && (lead + rest)[1..] == lead[1..] + rest;
      SkipLeading(lead[1..], rest);
    }
  }

  lemma {:induction false} DropTrailing(rest: string, trail: string)
    requires Spaces(trail) && rest != "" && !IsSpace(rest[|rest| - 1])
    ensures TrimRight(rest + trail) == rest
  {
    if trail == "" {
      assert rest + trail == rest;
    } else {
      assert trail[|trail| - 1] in trail && (rest + trail)[..|rest + trail| - 1] == rest + trail[..|trail| - 1];
      DropTrailing(rest, trail[..|trail| - 1]);
    }
  }

  /** Stripping removes the white space around, and nothing else. */
  lemma StripsSpaces(lead: string, body: string, trail: string)
    requires Spaces(lead) && Spaces(trail) && body != "" && Trimmed(body)
    ensures Strip(lead + (body + trail)) == body
  {
    SkipLeading(lead, body + trail);
    DropTrailing(body, trail);
  }

  lemma StandsLater(s: string, i: nat, p: string)
    requires s != ""
    ensures StandsAt(s[1..], i, p) <==> StandsAt(s, i + 1, p)
  {
    if i + |p| <= |s[1..]| { assert s[1..][i..i + |p|] == s[i + 1..i + 1 + |p|]; }
  }

  lemma {:induction false} FindExactly(s: string, p: string, n: nat)
    requires p != "" && n <= |s| && (n < |s| ==> StandsAt(s, n, p)) && forall i :: 0 <= i < n ==> !StandsAt(s, i, p)
    ensures Find(s, p) == n
  {
    if n > 0 {
      assert !StandsAt(s, 0, p);
      forall i | 0 <= i < n - 1 ensures !StandsAt(s[1..], i, p) { StandsLater(s, i, p); }
      StandsLater(s, n - 1, p);
      FindExactly(s[1..], p, n - 1);
    }
  }

  lemma SchemeGoes(a: Address)
    requires Readable(a)
    ensures Past(Spelled(a), "://") == Authority(a) + a.tail
  {
    var s, rest := Spelled(a), Authority(a) + a.tail;
    if a.scheme.Some? {
      var n := |a.scheme.value|;
      assert s[n..n + 3] == "://";
      FindExactly(s, "://", n);
      assert s[n + 3..] == rest;
    } else {
      FindExactly(s, "://", |s|);
    }
  }

  /** Cutting at a mark that a lacks leaves a and a beginning of what follows it. */
  lemma {:induction false} CutBehind(a: string, b: string, p: string)
    requires |p| == 1 && Free(a, p[0])
    ensures Before(a + b, p) == a + Before(b, p)
  {
    if a == "" {
      assert a + b == b;
      assert a + Before(b, p) == Before(b, p);
    } else {
      var s := a + b;
      assert s[0] == a[0] && a[0] in a && s[1..] == a[1..] + b;
      CutBehind(a[1..], b, p);
      assert Find(s, p) == 1 + Find(s[1..], p);
      assert Before(s, p) == [s[0]] + Before(s[1..], p);
    }
  }

  lemma CutAtOnce(b: string, p: string)
    requires |p| == 1 && b != "" && b[0] == p[0]
    ensures Before(b, p) == ""
  {
    assert b[0..1] == p;
    assert StandsAt(b, 0, p);
  }

  lemma CutKeepsHead(b: string, p: string)
    requires |p| == 1 && b != "" && b[0] != p[0]
    ensures Before(b, p) != "" && Before(b, p)[0] == b[0]
  {
    assert b[0..1] != p;
  }

  function BeforeEnd(s: string): string {
    Before(Before(Before(s, "/"), "?"), "#")
  }

  lemma TailGoes(a: string, tail: string)
    requires (forall c :: c in a ==> !Ends(c)) && (tail != "" ==> Ends(tail[0]))
    ensures BeforeEnd(a + tail) == a
  {
    var t1 := Before(tail, "/");
    var t2 := Before(t1, "?");
    CutBehind(a, tail, "/");
    CutBehind(a, t1, "?");
    CutBehind(a, t2, "#");
    if tail != "" {
      if tail[0] == '/' {
        CutAtOnce(tail, "/");
      } else {
        CutKeepsHead(tail, "/");
        if tail[0] == '?' { CutAtOnce(t1, "?"); } else { CutKeepsHead(t1, "?"); CutAtOnce(t2, "#"); }
      }
    }
    assert a + "" == a;
  }

  /** The host part of an address whose host is a spelling of a name has no mark in it. */
  lemma HostPartLacks(a: Address, r: string, c: char)
    requires Readable(a) && WellFormed(r) && AsciiLower(a.host) == r && (c == '@' || c == ':')
    ensures Free(HostPart(a), c)
  {
    SpellingOf(a.host, r);
    assert !Spelling(c) && !IsSpace(c) && c != '.';
  }

  lemma UserGoes(a: Address, r: string)
    requires Readable(a) && WellFormed(r) && AsciiLower(a.host) == r
    ensures Past(Authority(a), "@") == HostAndPort(a)
  {
    HostPartLacks(a, r, '@');
    if a.user.Some? {
      CutFirst(a.user.value, "@", HostAndPort(a));
    } else {
      assert Free(HostAndPort(a), '@');
      CutNowhere(HostAndPort(a), "@", '@');
    }
  }

  lemma HostPartBegins(a: Address, r: string)
    requires Readable(a) && WellFormed(r) && AsciiLower(a.host) == r
    ensures HostPart(a) != "" && HostPart(a)[0] != '['
  {
    SpellingEnds(a.host, r);
    var h := HostPart(a);
    assert h[0] == if a.left == "" then a.host[0] else a.left[0];
    assert a.left != "" ==> a.left[0] in a.left;
    assert !IsSpace('[');
  }

  lemma PortGoes(a: Address, r: string)
    requires Readable(a) && WellFormed(r) && AsciiLower(a.host) == r
    ensures WithoutPort(HostAndPort(a)) == HostPart(a)
  {
    HostPartLacks(a, r, ':');
    HostPartBegins(a, r);
    if a.port.Some? {
      CutFirst(HostPart(a), ":", a.port.value);
      assert HostAndPort(a)[0] == HostPart(a)[0];
    } else {
      CutNowhere(HostPart(a), ":", ':');
    }
  }

  lemma {:induction false} DotsGo(s: string, dots: string)
    requires s != "" && s[|s| - 1] != '.' && forall c :: c in dots ==> c == '.'
    ensures TrimDots(s + dots) == s
  {
    if dots == "" {
      assert s + dots == s;
    } else {
      assert dots[|dots| - 1] in dots && (s + dots)[..|s + dots| - 1] == s + dots[..|dots| - 1];
      var init := dots[..|dots| - 1];
      forall c | c in init ensures c == '.' { assert c in dots; }
      DotsGo(s, init);
    }
  }

  lemma HostIsLeft(a: Address, r: string)
    requires Readable(a) && WellFormed(r) && AsciiLower(a.host) == r
    ensures TrimDots(Strip(HostPart(a))) == a.host
  {
    SpellingEnds(a.host, r);
    var h := a.host + a.dots;
    assert h[0] == a.host[0];
    assert h[|h| - 1] == if a.dots == "" then a.host[|a.host| - 1] else a.dots[|a.dots| - 1];
    assert a.dots != "" ==> a.dots[|a.dots| - 1] in a.dots;
    StripsSpaces(a.left, h, a.right);
    DotsGo(a.host, a.dots);
  }

  lemma SpelledIsThere(a: Address, r: string)
    requires Readable(a) && WellFormed(r) && AsciiLower(a.host) == r
    ensures Spelled(a) != ""
  {
    HostPartBegins(a, r);
  }

  lemma BareIsHost(s: string, lead: string, a: Address, trail: string, r: string)
    requires Reads(s, lead, a, trail) && WellFormed(r) && AsciiLower(a.host) == r
    ensures Bare(s) == a.host && Strip(s) != ""
  {
    SpelledIsThere(a, r);
    StripsSpaces(lead, Spelled(a), trail);
    SchemeGoes(a);
    TailGoes(Authority(a), a.tail);
    UserGoes(a, r);
    PortGoes(a, r);
    HostIsLeft(a, r);
  }

  /**
   * An address yields its host, in lower case: white space around, scheme, credentials, final dots, port, and path,
   * query or fragment go, whichever of them are there.
   */
  lemma UrlYieldsHost(s: string, lead: string, a: Address, trail: string, r: string, lower: string -> string)
    requires Lowering(lower) && WellFormed(r) && AsciiLower(a.host) == r && Reads(s, lead, a, trail)
    ensures Normalized(Some(s), lower) == Some(r)
  {
    BareIsHost(s, lead, a, trail, r);
    SpellingOf(a.host, r);
    WellFormedIsAccepted(r);
  }

  // From an accepted text to the parts.

  lemma {:induction false} FoundFirst(s: string, p: string)
    requires p != ""
    ensures forall i :: 0 <= i < Find(s, p) ==> !StandsAt(s, i, p)
    ensures Find(s, p) < |s| ==> StandsAt(s, Find(s, p), p)
  {
    if s != "" && !StandsAt(s, 0, p) {
      FoundFirst(s[1..], p);
      forall i | 0 <= i < Find(s, p) ensures !StandsAt(s, i, p) {
        if i > 0 { StandsLater(s, i - 1, p); }
      }
      StandsLater(s, Find(s[1..], p), p);
    }
  }

  /** Cutting at one character: what is left lacks it, and it is what follows. */
  lemma CutExactly(s: string, p: string)
    requires |p| == 1
    ensures var b := Before(s, p);
            && b <= s && Free(b, p[0]) && (b != s ==> |b| < |s| && s[|b|] == p[0] && Past(s, p) == s[|b| + 1..])
            && (b == s ==> Past(s, p) == s)
  {
    var b, n := Before(s, p), Find(s, p);
    FoundFirst(s, p);
    forall c | c in b ensures c != p[0] {
      var i :| 0 <= i < |b| && b[i] == c;
      assert !StandsAt(s, i, p);
      assert s[i..i + 1] == [c];
    }
    if n < |s| { assert s[n..n + 1] == p; }
  }

  lemma BeforeEndExactly(s: string)
    ensures var b := BeforeEnd(s);
            b <= s && (forall c :: c in b ==> !Ends(c)) && (b != s ==> |b| < |s| && Ends(s[|b|]))
  {
    var b1 := Before(s, "/");
    var b2 := Before(b1, "?");
    var b3 := Before(b2, "#");
    CutExactly(s, "/");
    CutExactly(b1, "?");
    CutExactly(b2, "#");
    assert forall c :: c in b3 ==> c in b2;
    assert forall c :: c in b2 ==> c in b1;
  }

  lemma {:induction false} TrimDotsExactly(s: string) returns (dots: string)
    ensures s == TrimDots(s) + dots && forall c :: c in dots ==> c == '.'
  {
    dots := "";
    if s != "" && s[|s| - 1] == '.' {
      dots := TrimDotsExactly(s[..|s| - 1]);
      assert s == s[..|s| - 1] + ".";
      dots := dots + ".";
    }
  }

  lemma BareHasNoBracket(s: string, lower: string -> string)
    requires Lowering(lower) && Ascii(s) && Normalized(Some(s), lower).Some?
    ensures Ascii(Bare(s)) && AsciiLower(Bare(s)) == Normalized(Some(s), lower).value
    ensures Bare(s) != "" && Bare(s)[0] != '['
  {
    BareWithin(s);
    var b := Bare(s);
    LowerKeepsLines(b);
    AcceptedName(AsciiLower(b));
    LowerAt(b, 0);
  }

  /** The part between credentials and path, taken apart. */
  lemma TakeHostApart(hp: string)
    returns (left: string, host: string, dots: string, right: string, port: Option<string>)
    ensures host == TrimDots(Strip(WithoutPort(hp)))
    ensures Spaces(left) && Spaces(right) && (forall c :: c in dots ==> c == '.')
    ensures var part := left + ((host + dots) + right);
            hp == if port.Some? then part + ":" + port.value else part
  {
    var part := WithoutPort(hp);
    port := None;
    if !(hp != "" && hp[0] == '[') {
      CutExactly(hp, ":");
      if part != hp {
        port := Some(Past(hp, ":"));
        assert hp == part + ":" + Past(hp, ":");
      }
    }
    left, right := StripExactly(part);
    dots := TrimDotsExactly(Strip(part));
    host := TrimDots(Strip(part));
  }

  lemma TakeSchemeApart(raw: string) returns (scheme: Option<string>, rest: string)
    ensures rest == Past(raw, "://")
    ensures raw == if scheme.Some? then scheme.value + "://" + rest else rest
    ensures NoMark(raw, if scheme.Some? then |scheme.value| else |raw|)
  {
    var n := Find(raw, "://");
    FoundFirst(raw, "://");
    rest := Past(raw, "://");
    scheme := None;
    if n < |raw| {
      scheme := Some(raw[..n]);
      assert raw == raw[..n] + "://" + rest;
    }
  }

  lemma TakeUserApart(auth: string) returns (user: Option<string>, hp: string)
    ensures hp == Past(auth, "@")
    ensures auth == if user.Some? then user.value + "@" + hp else hp
    ensures if user.Some? then Free(user.value, '@') else Free(auth, '@')
  {
    var before := Before(auth, "@");
    CutExactly(auth, "@");
    hp := Past(auth, "@");
    user := None;
    if before != auth {
      user := Some(before);
      assert auth == before + "@" + hp;
    }
  }

  /** The parts of a text, put together again. */
  lemma PutTogether(a: Address, hp: string, auth: string, rest: string, raw: string)
    requires hp == if a.port.Some? then HostPart(a) + ":" + a.port.value else HostPart(a)
    requires auth == if a.user.Some? then a.user.value + "@" + hp else hp
    requires rest == auth + a.tail
    requires raw == if a.scheme.Some? then a.scheme.value + "://" + rest else rest
    ensures Authority(a) == auth && Spelled(a) == raw
  {
    if a.scheme.Some? { assert a.scheme.value + "://" + rest == a.scheme.value + "://" + (auth + a.tail); }
  }

  lemma PortLacks(part: string, port: string, c: char)
    requires Free(part + ":" + port, c)
    ensures Free(port, c)
  {
    forall d | d in port ensures d != c { assert d in part + ":" + port; }
  }

  /** A stripped text, taken apart. */
  lemma TakeApart(raw: string) returns (a: Address)
    ensures Spelled(a) == raw && Readable(a)
    ensures a.host == TrimDots(Strip(WithoutPort(Past(BeforeEnd(Past(raw, "://")), "@"))))
  {
    var scheme, rest := TakeSchemeApart(raw);
    var auth := BeforeEnd(rest);
    BeforeEndExactly(rest);
    var user, hp := TakeUserApart(auth);
    var left, host, dots, right, port := TakeHostApart(hp);
    a := Address(scheme, user, left, host, dots, right, port, rest[|auth|..]);
    PutTogether(a, hp, auth, rest, raw);
    if user.None? && port.Some? { PortLacks(HostPart(a), port.value, '@'); }
  }

  /**
   * Acceptance, exactly, on ASCII text: a name comes out if and only if the text is an address, with white space around
   * it, whose host is a spelling of that name.
   */
  lemma AcceptedExactly(s: string, r: string, lower: string -> string)
    requires Lowering(lower) && Ascii(s) && WellFormed(r)
    ensures Normalized(Some(s), lower) == Some(r) <==>
            exists lead, a, trail :: Reads(s, lead, a, trail) && AsciiLower(a.host) == r
  {
    if Normalized(Some(s), lower) == Some(r) {
      var lead, trail := StripExactly(s);
      var a := TakeApart(Strip(s));
      BareHasNoBracket(s, lower);
      assert Reads(s, lead, a, trail) && AsciiLower(a.host) == r;
    }
    if lead, a, trail :| Reads(s, lead, a, trail) && AsciiLower(a.host) == r {
      UrlYieldsHost(s, lead, a, trail, r, lower);
    }
  }

  lemma OneLabelWithLineFeed()
    ensures Checked("a\n") == Some("a\n")
  {
    var r := "a\n";
    FindNowhere(r, ".", '.');
    assert r[..1] == "a" && Label("a");
    assert Accepted([r], 0);
  }

  lemma DotIsTrimmed()
    ensures Strip("a\n.") == "a\n." && TrimDots("a\n.") == "a\n"
  {
    var s, r := "a\n.", "a\n";
    StripFixesTrimmed(s);
    assert s[..2] == r;
    assert TrimDots(s) == TrimDots(s[..2]) && TrimDots(r) == r;
  }

  lemma DotAfterLineFeed(lower: string -> string)
    requires Lowering(lower)
    ensures Strip("a\n.") == "a\n." && Core("a\n.", lower) == "a\n"
  {
    DotIsTrimmed();
    NothingToCut("a\n.");
    LowerFixes("a\n");
  }

  /** With a line feed before a final dot the first result is not a name, and a second pass changes it. */
  lemma NotAlwaysIdempotent(lower: string -> string)
    requires Lowering(lower)
    ensures Normalized(Some("a\n."), lower) == Some("a\n")
    ensures Normalized(Some("a\n"), lower) != Some("a\n")
  {
    OneLabelWithLineFeed();
    DotAfterLineFeed(lower);
    ResultAgain(Some("a\n."), "a\n", lower);
  }
}
