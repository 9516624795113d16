/** Docker's /events stream: newline-delimited JSON read in chunks that respect no boundary at all. */
module EventStream {
  import opened Models
  import opened Text

  type byte = n: int | 0 <= n < 256

  type Bytes = seq<byte>

  const NEWLINE: byte := 10

  /** White space, as far as stripping bytes is concerned. */
  predicate Blank(b: byte) {
    b == 32 || 9 <= b <= 13
  }

  function StripLeft(d: Bytes): Bytes {
    if d != [] && Blank(d[0]) then StripLeft(d[1..]) else d
  }

  function StripRight(d: Bytes): Bytes {
    if d != [] && Blank(d[|d| - 1]) then StripRight(d[..|d| - 1]) else d
  }

  function Stripped(d: Bytes): Bytes {
    StripRight(StripLeft(d))
  }

  /** The position of the first newline, or the length. */
  function Newline(d: Bytes): (i: nat)
    ensures i <= |d|
  {
    if d == [] || d[0] == NEWLINE then 0 else 1 + Newline(d[1..])
  }

  lemma {:induction false} NewlineIsFirst(d: Bytes)
    ensures var i := Newline(d); (forall k :: 0 <= k < i ==> d[k] != NEWLINE) && (i < |d| ==> d[i] == NEWLINE)
  {
    if d != [] && d[0] != NEWLINE { NewlineIsFirst(d[1..]); }
  }

  // ---------------------------------------------------------------- the whole stream at once

  /** The newline-terminated lines of a stream, without their newlines. */
  function Lines(d: Bytes): seq<Bytes> {
    var i := Newline(d);
    if i == |d| then [] else [d[..i]] + Lines(d[i + 1..])
  }

  /** What follows the last newline. */
  function Tail(d: Bytes): Bytes {
    var i := Newline(d);
    if i == |d| then d else Tail(d[i + 1..])
  }

  function Join(lines: seq<Bytes>, tail: Bytes): Bytes {
    if lines == [] then tail else lines[0] + [NEWLINE] + Join(lines[1..], tail)
  }

  ghost predicate NoNewlines(lines: seq<Bytes>) {
    forall l :: l in lines ==> NEWLINE !in l
  }

  lemma {:induction false} NewlineAt(d: Bytes, i: nat)
    requires i < |d| && d[i] == NEWLINE && forall k :: 0 <= k < i ==> d[k] != NEWLINE
    ensures Newline(d) == i
  {
    if i > 0 { NewlineAt(d[1..], i - 1); }
  }

  lemma LineOfThree(a: Bytes, b: Bytes)
    requires NEWLINE !in a
    ensures var d := a + [NEWLINE] + b;
            Newline(d) == |a| && d[..|a|] == a && d[|a| + 1..] == b
  {
    var d := a + [NEWLINE] + b;
    assert forall k :: 0 <= k < |a| ==> d[k] == a[k];
    NewlineAt(d, |a|);
  }

  /** The first line of a stream that has one. */
  lemma FirstLine(a: Bytes, b: Bytes)
    requires NEWLINE !in a
    ensures Lines(a + [NEWLINE] + b) == [a] + Lines(b)
    ensures Tail(a + [NEWLINE] + b) == Tail(b)
  {
    LineOfThree(a, b);
  }

  lemma NoLine(d: Bytes)
    requires NEWLINE !in d
    ensures Lines(d) == [] && Tail(d) == d
  {
    NewlineIsFirst(d);
  }

  lemma HeadHasNone(d: Bytes)
    ensures NEWLINE !in d[..Newline(d)]
  {
    NewlineIsFirst(d);
  }

  lemma Reassemble(d: Bytes, i: nat)
    requires i < |d|
    ensures d == d[..i] + [d[i]] + d[i + 1..]
  {
  }

  lemma CutLine(d: Bytes)
    ensures var i := Newline(d);
            if i == |d| then NEWLINE !in d else NEWLINE !in d[..i] && d == d[..i] + [NEWLINE] + d[i + 1..]
  {
    var i := Newline(d);
    HeadHasNone(d);
    NewlineIsFirst(d);
    if i == |d| { assert d[..i] == d; } else { Reassemble(d, i); }
  }

  /** Splitting loses nothing, and is the only splitting into newline-free lines and a newline-free tail. */
  lemma {:induction false} SplitJoins(d: Bytes)
    ensures Join(Lines(d), Tail(d)) == d
    ensures NoNewlines(Lines(d)) && NEWLINE !in Tail(d)
  {
    var i := Newline(d);
    CutLine(d);
    if i == |d| {
      NoLine(d);
    } else {
      SplitJoins(d[i + 1..]);
      FirstLine(d[..i], d[i + 1..]);
      assert Lines(d)[1..] == Lines(d[i + 1..]);
    }
  }

  lemma {:induction false} JoinSplits(lines: seq<Bytes>, tail: Bytes)
    requires NoNewlines(lines) && NEWLINE !in tail
    ensures Lines(Join(lines, tail)) == lines && Tail(Join(lines, tail)) == tail
  {
    if lines == [] {
      NoLine(tail);
    } else {
      assert lines[0] in lines;
      var rest := lines[1..];
      JoinSplits(rest, tail);
      FirstLine(lines[0], Join(rest, tail));
      assert lines == [lines[0]] + rest;
    }
  }

  lemma AppendPastLine(line: Bytes, rest: Bytes, b: Bytes)
    requires NEWLINE !in line
    requires Lines(rest + b) == Lines(rest) + Lines(Tail(rest) + b) && Tail(rest + b) == Tail(Tail(rest) + b)
    ensures var a := line + [NEWLINE] + rest;
            Lines(a + b) == Lines(a) + Lines(Tail(a) + b) && Tail(a + b) == Tail(Tail(a) + b)
  {
    var a := line + [NEWLINE] + rest;
    assert a + b == line + [NEWLINE] + (rest + b);
    FirstLine(line, rest);
    FirstLine(line, rest + b);
    Regroup([line], Lines(rest), Lines(Tail(rest) + b));
  }

  /** More bytes only complete the tail: lines already seen stay, and the rest comes from the tail onwards. */
  lemma {:induction false} SplitAppend(a: Bytes, b: Bytes)
    ensures Lines(a + b) == Lines(a) + Lines(Tail(a) + b)
    ensures Tail(a + b) == Tail(Tail(a) + b)
  {
    var i := Newline(a);
    CutLine(a);
    if i == |a| {
      NoLine(a);
    } else {
      SplitAppend(a[i + 1..], b);
      AppendPastLine(a[..i], a[i + 1..], b);
    }
  }

  // ---------------------------------------------------------------- events

  /** What a line is worth: nothing when blank or malformed. */
  function EventOf<T>(line: Bytes, parse: Bytes -> Option<T>): seq<T> {
    var text := Stripped(line);
    if text == [] then []
    else match parse(text) case Some(e) => [e] case None => []
  }

  function Events<T>(lines: seq<Bytes>, parse: Bytes -> Option<T>): seq<T> {
    if lines == [] then [] else EventOf(lines[0], parse) + Events(lines[1..], parse)
  }

  lemma {:induction false} EventsAppend<T>(a: seq<Bytes>, b: seq<Bytes>, parse: Bytes -> Option<T>)
    ensures Events(a + b, parse) == Events(a, parse) + Events(b, parse)
  {
    if a == [] {
      assert a + b == b;
    } else {
      assert (a + b)[1..] == a[1..] + b;
      EventsAppend(a[1..], b, parse);
      Regroup(EventOf(a[0], parse), Events(a[1..], parse), Events(b, parse));
    }
  }

  /** The bytes received from chunk k on: every chunk up to the empty one that marks the end of the stream. */
  function ReceivedFrom(chunks: seq<Bytes>, k: nat): Bytes
    requires k <= |chunks|
    decreases |chunks| - k
  {
    if k == |chunks| || chunks[k] == [] then [] else chunks[k] + ReceivedFrom(chunks, k + 1)
  }

  function Received(chunks: seq<Bytes>): Bytes {
    ReceivedFrom(chunks, 0)
  }

  // ---------------------------------------------------------------- the loops

  /** A buffer that holds these lines and this tail yields the first line and leaves the others. */
  lemma NextLine(buffer: Bytes, lines: seq<Bytes>, tail: Bytes)
    requires buffer == Join(lines, tail) && NoNewlines(lines) && NEWLINE !in tail
    ensures var i := Newline(buffer);
            if lines == [] then i == |buffer| && buffer == tail
            else i < |buffer| && buffer[..i] == lines[0] && buffer[i + 1..] == Join(lines[1..], tail)
  {
    if lines == [] {
      NewlineIsFirst(buffer);
    } else {
      assert lines[0] in lines;
      LineOfThree(lines[0], Join(lines[1..], tail));
    }
  }

  /** The inner loop: take complete lines off the buffer. */
  method Drain<T>(received: Bytes, parse: Bytes -> Option<T>) returns (buffer: Bytes, events: seq<T>)
    ensures buffer == Tail(received) && events == Events(Lines(received), parse)
    ensures NEWLINE !in buffer
  {
    SplitJoins(received);
    buffer, events := received, [];
    ghost var todo, tail := Lines(received), Tail(received);
    ghost var all := Events(todo, parse);
    while true
      invariant buffer == Join(todo, tail) && NoNewlines(todo) && NEWLINE !in tail
      invariant events + Events(todo, parse) == all
      decreases |buffer|
    {
      NextLine(buffer, todo, tail);
      var i := Newline(buffer);
      if i == |buffer| {
        break;
      }
      var delivered := Deliver(buffer[..i], parse);
      Regroup(events, delivered, Events(todo[1..], parse));
      todo := todo[1..];
      buffer := buffer[i + 1..];
      events := events + delivered;
    }
  }

  /** One line: skip it when blank, parse it, ignore it when malformed. */
  method Deliver<T>(raw: Bytes, parse: Bytes -> Option<T>) returns (events: seq<T>)
    ensures events == EventOf(raw, parse)
  {
    var line := Stripped(raw);
    if line == [] {
      return [];
    }
    var parsed := parse(line);
    events := if parsed.Some? then [parsed.value] else [];
  }

  lemma Absorb<T>(d: Bytes, rest: Bytes, parse: Bytes -> Option<T>)
    ensures Events(Lines(d + rest), parse) == Events(Lines(d), parse) + Events(Lines(Tail(d) + rest), parse)
    ensures Tail(d + rest) == Tail(Tail(d) + rest)
  {
    SplitAppend(d, rest);
    EventsAppend(Lines(d), Lines(Tail(d) + rest), parse);
  }

  /**
   * Chunking independence: the events delivered depend on the received bytes alone, not on how they were cut
   * into chunks, and the buffer ends as the unterminated tail.
   */
  method Listen<T>(chunks: seq<Bytes>, parse: Bytes -> Option<T>) returns (buffer: Bytes, events: seq<T>)
    ensures events == Events(Lines(Received(chunks)), parse)
    ensures buffer == Tail(Received(chunks))
  {
    buffer, events := [], [];
    ghost var stream, coming := Received(chunks), Received(chunks);
    var k := 0;
    NothingYet(stream, parse);
    while k < |chunks| && chunks[k] != []
      invariant 0 <= k <= |chunks| && coming == ReceivedFrom(chunks, k)
      invariant Caught(buffer, coming, events, stream, parse)
    {
      coming := ReceivedFrom(chunks, k + 1);
      buffer, events := Receive(buffer, chunks[k], events, parse, coming, stream);
      k := k + 1;
    }
    CaughtUp(buffer, events, stream, parse);
  }

  /** One chunk: extend the buffer and drain it. */
  method Receive<T>(buffer: Bytes, chunk: Bytes, events: seq<T>, parse: Bytes -> Option<T>, ghost rest: Bytes,
      ghost stream: Bytes)
    returns (buffer': Bytes, events': seq<T>)
    requires Caught(buffer, chunk + rest, events, stream, parse)
    ensures Caught(buffer', rest, events', stream, parse)
  {
    var delivered;
    Regroup(buffer, chunk, rest);
    CatchUp(buffer, chunk, rest, events, stream, parse);
    buffer', delivered := Drain(buffer + chunk, parse);
    events' := events + delivered;
  }

  /** Where the outer loop stands: the events so far, and those still in the buffer and the rest of the stream. */
  ghost predicate Caught<T>(buffer: Bytes, rest: Bytes, events: seq<T>, stream: Bytes, parse: Bytes -> Option<T>) {
    && NEWLINE !in buffer
    && events + Events(Lines(buffer + rest), parse) == Events(Lines(stream), parse)
    && Tail(buffer + rest) == Tail(stream)
  }

  lemma NothingYet<T>(stream: Bytes, parse: Bytes -> Option<T>)
    ensures Caught([], stream, [], stream, parse)
  {
    assert [] + stream == stream;
  }

  lemma CaughtUp<T>(buffer: Bytes, events: seq<T>, stream: Bytes, parse: Bytes -> Option<T>)
    requires Caught(buffer, [], events, stream, parse)
    ensures events == Events(Lines(stream), parse) && buffer == Tail(stream)
  {
    assert buffer + [] == buffer;
    NoLine(buffer);
    assert events + [] == events;
  }

  lemma CatchUp<T>(buffer: Bytes, chunk: Bytes, rest: Bytes, events: seq<T>, stream: Bytes, parse: Bytes -> Option<T>)
    requires Caught(buffer, (chunk + rest), events, stream, parse) && buffer + (chunk + rest) == (buffer + chunk) + rest
    ensures Caught(Tail(buffer + chunk), rest, events + Events(Lines(buffer + chunk), parse), stream, parse)
  {
    var d := buffer + chunk;
    Absorb(d, rest, parse);
    SplitJoins(d);
    Regroup(events, Events(Lines(d), parse), Events(Lines(Tail(d) + rest), parse));
  }

  // ---------------------------------------------------------------- from writer to reader

  /** A line as someone wrote it: a text, or none, with white space around it. */
  datatype Written = Written(before: Bytes, text: Bytes, after: Bytes)

  /** White space within a line. */
  ghost predicate Blanks(d: Bytes) {
    forall b :: b in d ==> b != 10 && (b == 32 || 9 <= b <= 13)
  }

  /** A text has no line end, and no white space at either end. */
  ghost predicate WellWritten(l: Written) {
    && Blanks(l.before) && Blanks(l.after) && 10 !in l.text
    && (l.text != [] ==> !(l.text[0] == 32 || 9 <= l.text[0] <= 13))
    && (l.text != [] ==> !(l.text[|l.text| - 1] == 32 || 9 <= l.text[|l.text| - 1] <= 13))
  }

  /** The bytes of such lines, each with its line end. */
  ghost function Sent(lines: seq<Written>): Bytes {
    if lines == [] then [] else lines[0].before + lines[0].text + lines[0].after + [10] + Sent(lines[1..])
  }

  /** The events the texts stand for, in order; a text that does not parse stands for none, nor does a blank line. */
  ghost function Meant<T>(lines: seq<Written>, parse: Bytes -> Option<T>): seq<T> {
    if lines == [] then []
    else
      var rest := Meant(lines[1..], parse);
      if lines[0].text != [] && parse(lines[0].text).Some? then [parse(lines[0].text).value] + rest else rest
  }

  /** The chunks bring exactly these bytes before the empty chunk that ends the stream, or before they run out. */
  ghost predicate Brings(chunks: seq<Bytes>, d: Bytes) {
    if chunks == [] || chunks[0] == [] then d == []
    else chunks[0] <= d && Brings(chunks[1..], d[|chunks[0]|..])
  }

  lemma {:induction false} StripLeftSpaces(before: Bytes, rest: Bytes)
    requires Blanks(before) && (rest != [] ==> !Blank(rest[0]))
    ensures StripLeft(before + rest) == rest
  {
    if before == [] {
      assert before + rest == rest;
    } else {
      assert before[0] in before && (before + rest)[1..] == before[1..] + rest;
      var more := before[1..];
      forall b | b in more ensures b != 10 && (b == 32 || 9 <= b <= 13) { assert b in before; }
      StripLeftSpaces(more, rest);
    }
  }

  lemma {:induction false} StripRightSpaces(rest: Bytes, after: Bytes)
    requires Blanks(after) && (rest != [] ==> !Blank(rest[|rest| - 1]))
    ensures StripRight(rest + after) == rest
  {
    if after == [] {
      assert rest + after == rest;
    } else {
      assert after[|after| - 1] in after && (rest + after)[..|rest + after| - 1] == rest + after[..|after| - 1];
      var init := after[..|after| - 1];
      forall b | b in init ensures b != 10 && (b == 32 || 9 <= b <= 13) { assert b in after; }
      StripRightSpaces(rest, init);
    }
  }

  lemma StrippedIsText(l: Written)
    requires WellWritten(l)
    ensures Stripped(l.before + l.text + l.after) == l.text
  {
    if l.text == [] {
      var all := l.before + l.after;
      assert l.before + l.text + l.after == all + [];
      StripLeftSpaces(all, []);
    } else {
      assert l.before + l.text + l.after == l.before + (l.text + l.after);
      StripLeftSpaces(l.before, l.text + l.after);
      StripRightSpaces(l.text, l.after);
    }
  }

  /** The event a written line stands for, if any. */
  ghost function Stands<T>(l: Written, parse: Bytes -> Option<T>): seq<T> {
    if l.text != [] && parse(l.text).Some? then [parse(l.text).value] else []
  }

  lemma WrittenLine(l: Written)
    requires WellWritten(l)
    ensures NEWLINE !in l.before + l.text + l.after
  {
  }

  lemma LineIsMeant<T>(l: Written, parse: Bytes -> Option<T>)
    requires WellWritten(l)
    ensures EventOf(l.before + l.text + l.after, parse) == Stands(l, parse)
  {
    StrippedIsText(l);
  }

  lemma OneSent<T>(line: Bytes, rest: Bytes, parse: Bytes -> Option<T>)
    requires NEWLINE !in line
    ensures Events(Lines(line + [NEWLINE] + rest), parse) == EventOf(line, parse) + Events(Lines(rest), parse)
  {
    FirstLine(line, rest);
    assert ([line] + Lines(rest))[1..] == Lines(rest);
  }

  lemma MeantFirst<T>(lines: seq<Written>, parse: Bytes -> Option<T>)
    requires lines != []
    ensures Meant(lines, parse) == Stands(lines[0], parse) + Meant(lines[1..], parse)
  {
  }

  /** What was written is what is delivered; an unfinished line at the end is not. */
  lemma {:induction false} SentIsMeant<T>(lines: seq<Written>, tail: Bytes, parse: Bytes -> Option<T>)
    requires (forall l :: l in lines ==> WellWritten(l)) && NEWLINE !in tail
    ensures Events(Lines(Sent(lines) + tail), parse) == Meant(lines, parse)
  {
    if lines == [] {
      assert Sent(lines) + tail == tail;
      NoLine(tail);
    } else {
      var l, rest := lines[0], Sent(lines[1..]) + tail;
      var line := l.before + l.text + l.after;
      assert l in lines;
      SentIsMeant(lines[1..], tail, parse);
      assert Sent(lines) + tail == line + [NEWLINE] + rest;
      WrittenLine(l);
      OneSent(line, rest, parse);
      LineIsMeant(l, parse);
      MeantFirst(lines, parse);
    }
  }

  lemma {:induction false} BroughtFrom(chunks: seq<Bytes>, k: nat, d: Bytes)
    requires k <= |chunks| && Brings(chunks[k..], d)
    ensures ReceivedFrom(chunks, k) == d
    decreases |chunks| - k
  {
    if k < |chunks| && chunks[k] != [] {
      assert chunks[k..][1..] == chunks[k + 1..];
      BroughtFrom(chunks, k + 1, d[|chunks[k]|..]);
      assert d == chunks[k] + d[|chunks[k]|..];
    }
  }

  /** Whatever the cut, exactly the events that were written are delivered, in order. */
  method ListenToWriter<T>(chunks: seq<Bytes>, parse: Bytes -> Option<T>, ghost lines: seq<Written>, ghost tail: Bytes)
    returns (events: seq<T>)
    requires (forall l :: l in lines ==> WellWritten(l)) && 10 !in tail && Brings(chunks, Sent(lines) + tail)
    ensures events == Meant(lines, parse)
  {
    var buffer;
    buffer, events := Listen(chunks, parse);
    assert chunks[0..] == chunks;
    BroughtFrom(chunks, 0, Sent(lines) + tail);
    SentIsMeant(lines, tail, parse);
  }

  /** A stream written as terminated lines is delivered line by line, however it is cut. */
  lemma WrittenLinesArrive<T>(lines: seq<Bytes>, cut: seq<Bytes>, parse: Bytes -> Option<T>)
    requires NoNewlines(lines) && Received(cut) == Join(lines, [])
    ensures Events(Lines(Received(cut)), parse) == Events(lines, parse) && Tail(Received(cut)) == []
  {
    JoinSplits(lines, []);
  }
}
