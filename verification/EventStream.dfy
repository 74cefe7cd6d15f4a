/** Events on the wire and the client that waits on them: newline-framed printing, reassembly from
    arbitrary chunks, and the loop that turns a stream of events into success or failure. */
module EventStream {
  import opened Options
  import opened Events
  import opened RawEmitter
  import S = Subscriptions

  type Bytes = seq<bv8>

  const NEWLINE: bv8 := 10

  /** JSON whitespace (section 2 of RFC 8259). */
  predicate Blank(b: bv8) { b == 9 || b == 10 || b == 13 || b == 32 }

  /** A printer and a parser of JSON documents. */
  datatype Codec<!T> = Codec(print_: T -> Bytes, parse: Bytes -> Option<T>)

  /** What is used of JSON: printed documents start with a visible byte and hold no raw newline
      (section 7 of RFC 8259); a document followed by a newline parses back, trailing whitespace being
      allowed; a document followed by anything visible does not parse. */
  ghost predicate Sound<T(!new)>(c: Codec<T>) {
    && (forall x: T :: c.print_(x) != [] && !Blank(c.print_(x)[0]) && NEWLINE !in c.print_(x))
    && (forall x: T :: c.parse(c.print_(x) + [NEWLINE]) == Some(x))
    && (forall x: T, rest: Bytes | rest != [] && !Blank(rest[0]) ::
          c.parse(c.print_(x) + [NEWLINE] + rest) == None)
  }

  function Frame<T>(c: Codec<T>, x: T): Bytes { c.print_(x) + [NEWLINE] }

  function Wire<T>(c: Codec<T>, xs: seq<T>): Bytes {
    if xs == [] then [] else Frame(c, xs[0]) + Wire(c, xs[1..])
  }

  datatype Item<T> = Good(value: T) | Bad

  function Goods<T>(xs: seq<T>): (r: seq<Item<T>>)
    ensures |r| == |xs| && forall i | 0 <= i < |xs| :: r[i] == Good(xs[i])
  {
    seq(|xs|, i requires 0 <= i < |xs| => Good(xs[i]))
  }

  function Concat(chunks: seq<Bytes>): Bytes {
    if chunks == [] then [] else chunks[0] + Concat(chunks[1..])
  }

  predicate EndsLine(chunk: Bytes) { chunk != [] && chunk[|chunk| - 1] == NEWLINE }

  /** A newline in a chunk is its last byte: no chunk reaches into a second message. */
  predicate WithinMessage(chunk: Bytes) {
    forall j | 0 <= j < |chunk| - 1 :: chunk[j] != NEWLINE
  }

  predicate NoChunkSpans(chunks: seq<Bytes>) {
    forall k | 0 <= k < |chunks| :: WithinMessage(chunks[k])
  }

  /** What the reassembly loop yields from `payload` on. */
  function Reassemble<T>(c: Codec<T>, payload: Bytes, chunks: seq<Bytes>): seq<Item<T>>
    decreases |chunks|
  {
    if chunks == [] then []
    else
      var p := payload + chunks[0];
      if !EndsLine(chunks[0]) then Reassemble(c, p, chunks[1..])
      else
        match c.parse(p)
        case None => [Bad]
        case Some(x) => [Good(x)] + Reassemble(c, [], chunks[1..])
  }

  /** What the client yields when the transport fails after these chunks, or does not: one more error unless
      the loop has already given up. */
  function Received<T>(c: Codec<T>, chunks: seq<Bytes>, broken: bool): seq<Item<T>> {
    var items := Reassemble(c, [], chunks);
    if broken && (items == [] || items[|items| - 1].Good?) then items + [Bad] else items
  }

  /** The client's loop over the chunks of a response, which end or break off. */
  method ResStream<T>(c: Codec<T>, chunks: seq<Bytes>, broken: bool) returns (items: seq<Item<T>>)
    ensures items == Received(c, chunks, broken)
  {
    items := [];
    var payload: Bytes := [];
    var k := 0;
    while k < |chunks|
      invariant 0 <= k <= |chunks|
      invariant items + Reassemble(c, payload, chunks[k..]) == Reassemble(c, [], chunks)
      invariant items == [] || items[|items| - 1].Good?
    {
      var bytes := chunks[k];
      assert chunks[k..][1..] == chunks[k + 1..];
      payload := payload + bytes;
      k := k + 1;
      if !EndsLine(bytes) { continue; }
      match c.parse(payload) {
        case None =>
          items := items + [Bad];
          return;
        case Some(x) =>
          payload := [];
          items := items + [Good(x)];
      }
    }
    if broken {
      items := items + [Bad];
    }
  }

  // ---------------------------------------------------------------- printing and reassembling

  /** Bytes up to the first newline determine the first message. */
  lemma {:induction false} FirstLine<T(!new)>(c: Codec<T>, xs: seq<T>, line: Bytes, rest: Bytes)
    requires Sound(c) && NEWLINE !in line && line + [NEWLINE] + rest == Wire(c, xs)
    ensures xs != [] && line == c.print_(xs[0]) && rest == Wire(c, xs[1..])
  {
    var w := Wire(c, xs);
    assert w[|line|] == NEWLINE;
    var p := c.print_(xs[0]);
    assert w == p + [NEWLINE] + Wire(c, xs[1..]);
    assert w[|p|] == NEWLINE;
    assert forall j | 0 <= j < |p| :: w[j] == p[j];
    assert forall j | 0 <= j < |line| :: w[j] == line[j];
    assert |p| == |line|;
    assert w[..|p|] == p && w[..|p|] == line;
    assert w[|p| + 1..] == rest && w[|p| + 1..] == Wire(c, xs[1..]);
  }

  function FirstNewline(b: Bytes): (n: nat)
    ensures n <= |b| && (forall j | 0 <= j < n :: b[j] != NEWLINE) && (n < |b| ==> b[n] == NEWLINE)
  {
    if b == [] || b[0] == NEWLINE then 0 else 1 + FirstNewline(b[1..])
  }

  /** Once the payload holds a whole message and part of another, nothing is yielded but an error. */
  lemma {:induction false} StuckOnceSpanning<T(!new)>(c: Codec<T>, x: T, rest: Bytes, chunks: seq<Bytes>)
    requires Sound(c) && rest != [] && !Blank(rest[0])
    ensures var r := Reassemble(c, Frame(c, x) + rest, chunks); r == [] || r == [Bad]
    decreases |chunks|
  {
    if chunks != [] {
      assert Frame(c, x) + rest + chunks[0] == Frame(c, x) + (rest + chunks[0]);
      StuckOnceSpanning(c, x, rest + chunks[0], chunks[1..]);
    }
  }

  /** The chunk completes the first message and holds nothing else. */
  lemma {:induction false} CompletesMessage<T(!new)>(c: Codec<T>, xs: seq<T>, payload: Bytes, chunks: seq<Bytes>)
    requires Sound(c) && xs != [] && chunks != [] && EndsLine(chunks[0])
    requires payload + chunks[0] == Frame(c, xs[0])
    ensures Reassemble(c, payload, chunks) == Goods(xs) <==> Reassemble(c, [], chunks[1..]) == Goods(xs[1..])
  {
    var more := Reassemble(c, [], chunks[1..]);
    assert Reassemble(c, payload, chunks) == [Good(xs[0])] + more;
    assert Goods(xs) == [Good(xs[0])] + Goods(xs[1..]);
    assert ([Good(xs[0])] + more)[1..] == more;
    assert ([Good(xs[0])] + Goods(xs[1..]))[1..] == Goods(xs[1..]);
  }

  lemma {:induction false} CutAt(payload: Bytes, chunk: Bytes, more: Bytes, n: nat)
    requires n < |chunk| && chunk[n] == NEWLINE
    ensures payload + chunk == (payload + chunk[..n]) + [NEWLINE] + chunk[n + 1..]
    ensures payload + (chunk + more) == (payload + chunk[..n]) + [NEWLINE] + (chunk[n + 1..] + more)
  {
    assert chunk == chunk[..n] + [NEWLINE] + chunk[n + 1..];
  }

  /** The first newline of the chunk, at `n`, ends the first message. */
  lemma {:induction false} FirstChunk<T(!new)>(c: Codec<T>, xs: seq<T>, payload: Bytes, chunk: Bytes, more: Bytes,
                                               n: nat)
    requires Sound(c) && NEWLINE !in payload && payload + (chunk + more) == Wire(c, xs)
    requires n < |chunk| && chunk[n] == NEWLINE && NEWLINE !in chunk[..n]
    ensures xs != []
    ensures payload + chunk == Frame(c, xs[0]) + chunk[n + 1..]
    ensures chunk[n + 1..] + more == Wire(c, xs[1..])
  {
    var line := payload + chunk[..n];
    CutAt(payload, chunk, more, n);
    assert NEWLINE !in line;
    FirstLine(c, xs, line, chunk[n + 1..] + more);
  }

  lemma {:induction false} WireHasNewline<T>(c: Codec<T>, xs: seq<T>)
    requires xs != []
    ensures NEWLINE in Wire(c, xs)
  {
    assert Wire(c, xs)[|c.print_(xs[0])|] == NEWLINE;
  }

  /** From a payload without newline, the rest of the wire is reassembled exactly when no chunk spans. */
  lemma {:induction false} ReassembleFrom<T(!new)>(c: Codec<T>, xs: seq<T>, payload: Bytes, chunks: seq<Bytes>)
    requires Sound(c) && NEWLINE !in payload && payload + Concat(chunks) == Wire(c, xs)
    ensures Reassemble(c, payload, chunks) == Goods(xs) <==> NoChunkSpans(chunks)
    decreases |chunks|
  {
    if chunks == [] {
      assert payload + Concat(chunks) == payload;
      if xs != [] { WireHasNewline(c, xs); }
    } else {
      var chunk, more := chunks[0], chunks[1..];
      assert NoChunkSpans(chunks) <==> WithinMessage(chunk) && NoChunkSpans(more);
      var n := FirstNewline(chunk);
      if n == |chunk| {
        assert payload + chunk + Concat(more) == payload + (chunk + Concat(more));
        ReassembleFrom(c, xs, payload + chunk, more);
        return;
      }
      FirstChunk(c, xs, payload, chunk, Concat(more), n);
      if n == |chunk| - 1 {
        assert payload + chunk == Frame(c, xs[0]);
        CompletesMessage(c, xs, payload, chunks);
        assert [] + Concat(more) == Wire(c, xs[1..]);
        ReassembleFrom(c, xs[1..], [], more);
      } else {
        Spanning(c, xs, payload, chunks, chunk[n + 1..]);
      }
    }
  }

  lemma {:induction false} Spanning<T(!new)>(c: Codec<T>, xs: seq<T>, payload: Bytes, chunks: seq<Bytes>, rest: Bytes)
    requires Sound(c) && chunks != [] && xs != [] && rest != []
    requires payload + chunks[0] == Frame(c, xs[0]) + rest && |rest| < |chunks[0]|
    requires rest + Concat(chunks[1..]) == Wire(c, xs[1..])
    ensures Reassemble(c, payload, chunks) != Goods(xs) && !WithinMessage(chunks[0])
  {
    var chunk := chunks[0];
    var y := xs[1..][0];
    assert rest[0] == Wire(c, xs[1..])[0] == c.print_(y)[0];
    assert chunk[|chunk| - |rest| - 1] == (payload + chunk)[|payload| + |chunk| - |rest| - 1] == NEWLINE;
    StuckOnceSpanning(c, xs[0], rest, chunks[1..]);
    assert Goods(xs)[0] == Good(xs[0]);
  }

  /** Printer and reassembler undo each other exactly for the chunkings in which no chunk reaches from one
      message into the next; empty keep-alive chunks are harmless anywhere. */
  lemma {:induction false} PrintThenReassemble<T(!new)>(c: Codec<T>, xs: seq<T>, chunks: seq<Bytes>)
    requires Sound(c) && Concat(chunks) == Wire(c, xs)
    ensures Reassemble(c, [], chunks) == Goods(xs) <==> NoChunkSpans(chunks)
  {
    assert [] + Concat(chunks) == Concat(chunks);
    ReassembleFrom(c, xs, [], chunks);
  }

  /** Two messages in one chunk: nothing but an error comes out. */
  lemma {:induction false} TwoInOneChunk<T(!new)>(c: Codec<T>, x: T, y: T)
    requires Sound(c)
    ensures Reassemble(c, [], [Wire(c, [x, y])]) == [Bad]
  {
    var w, rest := Wire(c, [x, y]), Frame(c, y);
    assert [x, y][1..] == [y] && [y][1..] == [] && Wire(c, [y]) == rest + [];
    assert w == Frame(c, x) + rest && rest[0] == c.print_(y)[0];
    assert w[|w| - 1] == rest[|rest| - 1] == NEWLINE;
    assert [] + w == w;
  }

  lemma {:induction false} WaitsForTheLine<T>(c: Codec<T>, payload: Bytes, chunk: Bytes, more: seq<Bytes>)
    requires !EndsLine(chunk)
    ensures Reassemble(c, payload, [chunk] + more) == Reassemble(c, payload + chunk, more)
  {
    assert ([chunk] + more)[1..] == more;
  }

  lemma {:induction false} LineFails<T>(c: Codec<T>, payload: Bytes, chunk: Bytes)
    requires EndsLine(chunk) && c.parse(payload + chunk) == None
    ensures Reassemble(c, payload, [chunk]) == [Bad]
  {}

  /** A chunk that ends inside the second message: nothing is yielded, not even the first message, until a chunk
      ends a line, and then a single error. */
  lemma {:induction false} ReachesIntoTheNext<T(!new)>(c: Codec<T>, x: T, y: T, n: nat)
    requires Sound(c) && 0 < n < |Frame(c, y)|
    ensures Reassemble(c, [], [Frame(c, x) + Frame(c, y)[..n]]) == []
    ensures Reassemble(c, [], [Frame(c, x) + Frame(c, y)[..n], Frame(c, y)[n..]]) == [Bad]
  {
    var first, rest := Frame(c, x) + Frame(c, y)[..n], Frame(c, y)[n..];
    assert first[|first| - 1] == c.print_(y)[n - 1];
    assert rest[|rest| - 1] == NEWLINE;
    assert [] + first == first;
    WaitsForTheLine(c, [], first, []);
    assert [first] + [] == [first];
    WaitsForTheLine(c, [], first, [rest]);
    assert [first] + [rest] == [first, rest];
    assert first + rest == c.print_(x) + [NEWLINE] + Frame(c, y) && Frame(c, y)[0] == c.print_(y)[0];
    LineFails(c, first, rest);
  }

  lemma {:induction false} ShortOfAMessage<T(!new)>(c: Codec<T>, xs: seq<T>, payload: Bytes)
    requires Sound(c) && NEWLINE !in payload && payload <= Wire(c, xs) && xs != []
    ensures |payload| < |Wire(c, xs[..1])|
  {
    var p := c.print_(xs[0]);
    assert Wire(c, xs)[|p|] == NEWLINE;
    assert xs[..1] == [xs[0]] && [xs[0]][1..] == [];
    assert Wire(c, [xs[0]]) == Frame(c, xs[0]) + [];
    assert forall j | 0 <= j < |payload| :: payload[j] == Wire(c, xs)[j];
  }

  /** Of `n` bytes of the wire, the first `k` messages have arrived completely and the next has not. */
  predicate Complete<T>(c: Codec<T>, xs: seq<T>, n: nat, k: nat) {
    k <= |xs| && |Wire(c, xs[..k])| <= n && (k < |xs| ==> n < |Wire(c, xs[..k + 1])|)
  }

  lemma {:induction false} CompleteNext<T>(c: Codec<T>, xs: seq<T>, n: nat, k: nat)
    requires xs != [] && Complete(c, xs[1..], n, k)
    ensures Complete(c, xs, |Frame(c, xs[0])| + n, k + 1)
  {
    WireLength(c, xs, k);
    if k + 1 < |xs| { WireLength(c, xs, k + 1); }
  }

  lemma {:induction false} CompleteNone<T(!new)>(c: Codec<T>, xs: seq<T>, payload: Bytes)
    requires Sound(c) && NEWLINE !in payload && payload <= Wire(c, xs)
    ensures Complete(c, xs, |payload|, 0)
  {
    if xs != [] { ShortOfAMessage(c, xs, payload); }
  }

  /** The chunk ends the first message, and what follows is part of the rest of the wire. */
  lemma {:induction false} EndsFirstMessage<T(!new)>(c: Codec<T>, xs: seq<T>, payload: Bytes, chunk: Bytes, more: Bytes)
    requires Sound(c) && NEWLINE !in payload && payload + (chunk + more) <= Wire(c, xs)
    requires EndsLine(chunk) && WithinMessage(chunk)
    ensures xs != [] && payload + chunk == Frame(c, xs[0]) && more <= Wire(c, xs[1..])
    ensures |payload + (chunk + more)| == |Frame(c, xs[0])| + |more|
  {
    var left := Wire(c, xs)[|payload + (chunk + more)|..];
    assert payload + (chunk + (more + left)) == payload + (chunk + more) + left;
    assert NEWLINE !in chunk[..|chunk| - 1];
    FirstChunk(c, xs, payload, chunk, more + left, |chunk| - 1);
    assert chunk[|chunk|..] == [] && [] + (more + left) == more + left;
    assert payload + chunk == payload + chunk + [];
  }

  /** From a payload without newline, the whole messages among the bytes that have arrived are yielded. */
  lemma {:induction false} PrefixFrom<T(!new)>(c: Codec<T>, xs: seq<T>, payload: Bytes, chunks: seq<Bytes>)
    returns (k: nat)
    requires Sound(c) && NEWLINE !in payload && payload + Concat(chunks) <= Wire(c, xs) && NoChunkSpans(chunks)
    ensures Complete(c, xs, |payload + Concat(chunks)|, k) && Reassemble(c, payload, chunks) == Goods(xs[..k])
    decreases |chunks|
  {
    if chunks == [] {
      k := 0;
      assert payload + Concat(chunks) == payload;
      CompleteNone(c, xs, payload);
    } else {
      var chunk, more := chunks[0], chunks[1..];
      assert WithinMessage(chunk) && NoChunkSpans(more);
      if EndsLine(chunk) {
        EndsFirstMessage(c, xs, payload, chunk, Concat(more));
        assert [] + Concat(more) == Concat(more);
        k := PrefixFrom(c, xs[1..], [], more);
        CompleteNext(c, xs, |Concat(more)|, k);
        NextMessage(c, xs, payload, chunks, k);
        k := k + 1;
      } else {
        assert NEWLINE !in chunk;
        assert payload + chunk + Concat(more) == payload + (chunk + Concat(more));
        k := PrefixFrom(c, xs, payload + chunk, more);
      }
    }
  }

  lemma {:induction false} NextMessage<T(!new)>(c: Codec<T>, xs: seq<T>, payload: Bytes, chunks: seq<Bytes>, k: nat)
    requires Sound(c) && xs != [] && chunks != [] && EndsLine(chunks[0]) && payload + chunks[0] == Frame(c, xs[0])
    requires k < |xs| && Reassemble(c, [], chunks[1..]) == Goods(xs[1..][..k])
    ensures Reassemble(c, payload, chunks) == Goods(xs[..k + 1])
  {
    assert xs[..k + 1] == [xs[0]] + xs[1..][..k];
    assert Goods(xs[..k + 1]) == [Good(xs[0])] + Goods(xs[1..][..k]);
  }

  lemma {:induction false} WireLength<T>(c: Codec<T>, xs: seq<T>, j: nat)
    requires j < |xs|
    ensures |Wire(c, xs[..j + 1])| == |Frame(c, xs[0])| + |Wire(c, xs[1..][..j])|
  {
    assert xs[..j + 1][1..] == xs[1..][..j];
  }

  /** A codec that satisfies what is asked of one. */
  lemma {:induction false} SoundCodec() returns (c: Codec<bool>)
    ensures Sound(c)
  {
    c := Codec((x: bool) => if x then [49] else [48],
               (b: Bytes) =>
                 if b == [49, NEWLINE] then Some(true)
                 else if b == [48, NEWLINE] then Some(false)
                 else None);
    forall x: bool ensures c.print_(x) != [] && !Blank(c.print_(x)[0]) && NEWLINE !in c.print_(x) {
      assert c.print_(x) == if x then [49] else [48];
    }
    forall x: bool ensures c.parse(c.print_(x) + [NEWLINE]) == Some(x) {
      assert c.print_(x) + [NEWLINE] == if x then [49, NEWLINE] else [48, NEWLINE];
    }
    forall x: bool, rest: Bytes | rest != [] ensures c.parse(c.print_(x) + [NEWLINE] + rest) == None {
      assert |c.print_(x) + [NEWLINE] + rest| > 2;
    }
  }

  // ---------------------------------------------------------------- the waiting client

  datatype Outcome = Waiting | Succeeded | Failed

  function WaitCondition(key: string, kind: ActorKind, actions: seq<Action>): Condition {
    Condition(Some(key), Some(kind), [Normal, Error], actions)
  }

  /** What ends the stream of a waiter: a normal or error event, not a warning, of exactly its object, with the
      text of one of its actions.  A condition that names no actor ends no stream. */
  lemma {:induction false} WaiterMatchesIff(key: string, kind: ActorKind, a: Action, e: Event, c: Condition)
    requires !a.Other?
    ensures Matches(WaitCondition(key, kind, [a]), e) <==>
            (e.kind == Normal || e.kind == Error) && e.actor == Some(Actor(Some(key), kind))
                    && e.action == PrintAction(a)
    ensures c.actorKind.None? || c.actorKey.None? ==> !Matches(c, e)
  {
    PrintParsed(e.action);
    ParsePrinted(a);
  }

  predicate ErrorFor(key: string, e: Event) {
    && e.kind == Error && e.actor.Some?
    && (if e.actor.value.key.Some? then e.actor.value.key.value else "") == key
  }

  /** The waiting loop over the items that have arrived; `closed` tells whether the stream has ended. */
  method WaitProcessState(key: string, items: seq<Item<Event>>, closed: bool) returns (r: Outcome)
    ensures r.Failed? <==> exists i :: 0 <= i < |items| && (items[i].Bad? || ErrorFor(key, items[i].value))
    ensures r.Succeeded? ==> closed
    ensures r.Waiting? ==> !closed
  {
    for i := 0 to |items|
      invariant forall j | 0 <= j < i :: items[j].Good? && !ErrorFor(key, items[j].value)
    {
      if items[i].Bad? { return Failed; }
      var event := items[i].value;
      if event.actor.None? { continue; }
      if event.kind == Error
         && (if event.actor.value.key.Some? then event.actor.value.key.value else "") == key {
        return Failed;
      }
    }
    r := if closed then Succeeded else Waiting;
  }

  /** The events a subscriber has taken from its queue. */
  function Seen(log: seq<Event>, ms: seq<Message>): seq<Event> {
    if ms == [] then []
    else
      var m := ms[|ms| - 1];
      Seen(log, ms[..|ms| - 1]) + if m.Note? && m.index < |log| then [log[m.index]] else []
  }

  lemma {:induction false} SeenIsSlice(log: seq<Event>, ms: seq<Message>, lo: nat)
    requires lo + |S.Notes(ms)| <= |log|
    requires forall k | 0 <= k < |S.Notes(ms)| :: S.Notes(ms)[k] == lo + k
    ensures Seen(log, ms) == log[lo..lo + |S.Notes(ms)|]
  {
    if ms != [] {
      var init, m := ms[..|ms| - 1], ms[|ms| - 1];
      var ns := S.Notes(init);
      assert forall k | 0 <= k < |ns| :: ns[k] == S.Notes(ms)[k];
      SeenIsSlice(log, init, lo);
      if m.Note? {
        assert S.Notes(ms)[|ns|] == m.index;
        assert log[lo..lo + |ns| + 1] == log[lo..lo + |ns|] + [log[lo + |ns|]];
      }
    }
  }

  lemma {:induction false} CountIsMatches(events: seq<Event>, c: Condition)
    ensures S.Count(events, [c]) == 0 <==> forall k | 0 <= k < |events| :: !Matches(c, events[k])
  {
    if events != [] {
      CountIsMatches(events[..|events| - 1], c);
      if Matches(c, events[|events| - 1]) { assert c in [c]; }
    }
  }

  lemma {:induction false} OneMatchIsTheLast(events: seq<Event>, c: Condition)
    requires events != [] && S.Count(events, [c]) == 1 && S.Count(events[..|events| - 1], [c]) == 0
    ensures Matches(c, events[|events| - 1])
    ensures forall k | 0 <= k < |events| - 1 :: !Matches(c, events[k])
  {
    var init, last := events[..|events| - 1], events[|events| - 1];
    if Matches(c, last) { assert c in [c]; }
    CountIsMatches(init, c);
    assert forall k | 0 <= k < |init| :: init[k] == events[k];
  }

  /** What a never-refused one-condition subscriber has seen once its stream is closed and drained: the
      events from its subscription up to the first one that matches, which is the last it sees. */
  lemma {:induction false} SeenUpToTheMatch(s: S.Sub, log: seq<Event>, c: Condition)
    requires S.SubOk(s, log)
    requires s.conditions == [c] && !s.refused && !s.port.registered && s.port.channel.queue == []
    ensures s.left.Some? && s.joined < s.left.value <= |log|
    ensures Seen(log, s.received) == log[s.joined..s.left.value]
    ensures var events := log[s.joined..s.left.value];
            Matches(c, events[|events| - 1]) && forall k | 0 <= k < |events| - 1 :: !Matches(c, events[k])
  {
    S.DrainedAndEnded(s, log);
    SeenIsSlice(log, s.received, s.joined);
    var events := log[s.joined..s.left.value];
    assert events[..|events| - 1] == log[s.joined..s.left.value - 1];
    OneMatchIsTheLast(events, c);
  }

  lemma {:induction false} SeenSinceJoining(run: seq<S.Move>, i: nat, s: S.Sub, log: seq<Event>) returns (n: nat)
    requires S.ValidRun(run) && i < |S.After(run).subs|
    requires s == S.After(run).subs[i] && log == S.After(run).log && S.KeptUp(run, i)
    ensures s.joined + n <= S.End(s, log) <= |log| && Seen(log, s.received) == log[s.joined..s.joined + n]
  {
    S.Delivery(run, i);
    n := |S.Notes(s.received)|;
    TakenAreFirst(s, log);
    SeenIsSlice(log, s.received, s.joined);
  }

  lemma {:induction false} ErrorsOfSlice(key: string, log: seq<Event>, lo: nat, n: nat, events: seq<Event>, k: nat)
    requires lo + n <= |log| && events == log[lo..lo + n] && k <= n
    ensures events[..k] == log[lo..lo + k]
    ensures (exists j :: 0 <= j < k && ErrorFor(key, events[j])) <==>
            (exists j :: lo <= j < lo + k && ErrorFor(key, log[j]))
  {
    if j :| 0 <= j < k && ErrorFor(key, events[j]) { assert ErrorFor(key, log[lo + j]); }
    if j :| lo <= j < lo + k && ErrorFor(key, log[j]) { assert ErrorFor(key, events[j - lo]); }
  }

  lemma {:induction false} TakenAreFirst(s: S.Sub, log: seq<Event>)
    requires s.joined <= S.End(s, log) <= |log|
    requires S.Notes(s.received) + S.Notes(s.port.channel.queue) == S.Range(s.joined, S.End(s, log))
    ensures s.joined + |S.Notes(s.received)| <= S.End(s, log)
    ensures forall k | 0 <= k < |S.Notes(s.received)| :: S.Notes(s.received)[k] == s.joined + k
  {
    var taken, rest := S.Notes(s.received), S.Notes(s.port.channel.queue);
    assert |taken + rest| == S.End(s, log) - s.joined;
    assert forall k | 0 <= k < |taken| :: taken[k] == (taken + rest)[k];
  }

  /** End to end, for subscriber `i` of any run: a waiter on one condition that keeps up and
      whose response is cut into chunks that respect message ends, ends with the first matching event, and
      succeeds exactly when no error event for its key was emitted from its subscription up to and
      including that event. */
  method WaitEndToEnd(ghost run: seq<S.Move>, ghost i: nat, ghost s: S.Sub, ghost log: seq<Event>,
                      key: string, ghost c: Condition, codec: Codec<Event>, chunks: seq<Bytes>)
    returns (r: Outcome)
    requires S.ValidRun(run) && i < |S.After(run).subs|
    requires s == S.After(run).subs[i] && log == S.After(run).log
    requires s.conditions == [c] && c.actorKind.Some? && c == WaitCondition(key, c.actorKind.value, c.actions)
    requires S.KeptUp(run, i) && !s.port.registered && s.port.channel.queue == []
    requires Sound(codec) && Concat(chunks) == Wire(codec, Seen(log, s.received)) && NoChunkSpans(chunks)
    ensures s.left.Some? && s.joined < s.left.value <= |log|
    ensures var events := log[s.joined..s.left.value];
            && Matches(c, events[|events| - 1])
            && (forall k | 0 <= k < |events| - 1 :: !Matches(c, events[k]))
            && !r.Waiting?
            && (r.Succeeded? <==> forall k | 0 <= k < |events| :: !ErrorFor(key, events[k]))
  {
    S.RunKeepsInv(run);
    assert S.SubOk(s, log);
    S.RefusedIff(run, i);
    SeenUpToTheMatch(s, log, c);
    r := WaitOnChunks(key, codec, log[s.joined..s.left.value], chunks);
  }

  /** While the stream is open, or if it breaks off: the client has seen exactly the events whose message has
      arrived completely, fails as soon as one of them is an error event for its key or the stream has
      broken, and otherwise goes on waiting. */
  method WaitOnPrefix(key: string, codec: Codec<Event>, ghost events: seq<Event>, chunks: seq<Bytes>, broken: bool)
    returns (r: Outcome, ghost arrived: nat)
    requires Sound(codec) && Concat(chunks) <= Wire(codec, events) && NoChunkSpans(chunks)
    ensures Complete(codec, events, |Concat(chunks)|, arrived)
    ensures r.Failed? <==> broken || exists k :: 0 <= k < arrived && ErrorFor(key, events[k])
    ensures !r.Failed? ==> r.Waiting?
  {
    assert [] + Concat(chunks) == Concat(chunks);
    arrived := PrefixFrom(codec, events, [], chunks);
    var items := ResStream(codec, chunks, broken);
    r := WaitProcessState(key, items, false);
    assert forall k | 0 <= k < arrived :: items[k] == Good(events[..arrived][k]) && events[..arrived][k] == events[k];
    assert |items| == arrived + if broken then 1 else 0;
    if broken { assert items[arrived].Bad?; }
  }

  /** The client alone: reassembling the printed events and waiting on them. */
  method WaitOnChunks(key: string, codec: Codec<Event>, ghost events: seq<Event>, chunks: seq<Bytes>)
    returns (r: Outcome)
    requires Sound(codec) && Concat(chunks) == Wire(codec, events) && NoChunkSpans(chunks)
    ensures !r.Waiting?
    ensures r.Succeeded? <==> forall k | 0 <= k < |events| :: !ErrorFor(key, events[k])
  {
    PrintThenReassemble(codec, events, chunks);
    var items := ResStream(codec, chunks, false);
    r := WaitProcessState(key, items, true);
    assert |items| == |events| && forall k | 0 <= k < |items| :: items[k] == Good(events[k]);
  }

  /** The same for subscriber `i` of any run, over or not: as long as it keeps up, the messages it has
      taken so far are the events emitted since it joined, and the waiter fails if and only if the stream broke
      or an error event for its key is among those that arrived completely. */
  method WaitOnRunPrefix(ghost run: seq<S.Move>, ghost i: nat, ghost s: S.Sub, ghost log: seq<Event>,
                         key: string, codec: Codec<Event>, chunks: seq<Bytes>, broken: bool)
    returns (r: Outcome, ghost arrived: nat)
    requires S.ValidRun(run) && i < |S.After(run).subs|
    requires s == S.After(run).subs[i] && log == S.After(run).log && S.KeptUp(run, i)
    requires Sound(codec) && Concat(chunks) <= Wire(codec, Seen(log, s.received)) && NoChunkSpans(chunks)
    ensures s.joined + arrived <= S.End(s, log) <= |log|
    ensures Complete(codec, Seen(log, s.received), |Concat(chunks)|, arrived)
    ensures Seen(log, s.received)[..arrived] == log[s.joined..s.joined + arrived]
    ensures r.Failed? <==> broken || exists k :: s.joined <= k < s.joined + arrived && ErrorFor(key, log[k])
    ensures !r.Failed? ==> r.Waiting?
  {
    ghost var n := SeenSinceJoining(run, i, s, log);
    r, arrived := WaitOnSlice(log, s.joined, n, key, codec, Seen(log, s.received), chunks, broken);
  }

  /** The same for a stretch of the log. */
  method WaitOnSlice(ghost log: seq<Event>, ghost lo: nat, ghost n: nat, key: string, codec: Codec<Event>,
                     ghost events: seq<Event>, chunks: seq<Bytes>, broken: bool)
    returns (r: Outcome, ghost arrived: nat)
    requires lo + n <= |log| && events == log[lo..lo + n]
    requires Sound(codec) && Concat(chunks) <= Wire(codec, events) && NoChunkSpans(chunks)
    ensures arrived <= n && Complete(codec, events, |Concat(chunks)|, arrived)
    ensures events[..arrived] == log[lo..lo + arrived]
    ensures r.Failed? <==> broken || exists k :: lo <= k < lo + arrived && ErrorFor(key, log[k])
    ensures !r.Failed? ==> r.Waiting?
  {
    r, arrived := WaitOnPrefix(key, codec, events, chunks, broken);
    ErrorsOfSlice(key, log, lo, n, events, arrived);
  }
}
