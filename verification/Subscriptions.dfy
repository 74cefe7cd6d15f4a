/** Every subscriber in every run of the emitter: subscriptions, emissions, receptions, disconnections and
    connection checks in any order, with nothing between the two locks of an emission. */
module Subscriptions {
  import opened Options
  import opened Events
  import opened RawEmitter

  /** A subscriber and its history: what it asked for, what it took from its queue, the number of events
      emitted before it joined and before it left, whether an emission ended it, and whether the emitter
      ever failed to queue something for it. */
  datatype Sub = Sub(
    port: Port,
    conditions: seq<Condition>,
    received: seq<Message>,
    joined: nat,
    left: Option<nat>,
    ended: bool,
    refused: bool)

  datatype State = State(log: seq<Event>, subs: seq<Sub>)

  const INIT: State := State([], [])

  datatype Move =
    | Subscribe(conditions: Option<seq<Condition>>)
    | Emit(e: Event)
    | Check
    | Take(i: nat)
    | Disconnect(i: nat)

  function NewSub(conditions: seq<Condition>, n: nat): Sub {
    Sub(Port(conditions, 0, true, Channel([], true)), conditions, [], n, None, false, false)
  }

  function SubEmit(s: Sub, e: Event, n: nat): Sub {
    var p := PortEmit(s.port, e, Note(n));
    var leaves := s.port.registered && !p.registered;
    s.(port := p,
       refused := s.refused || (s.port.registered && !Accepts(s.port.channel)),
       left := if leaves then Some(n + 1) else s.left,
       ended := s.ended || leaves)
  }

  function SubCheck(s: Sub, n: nat): Sub {
    var p := PortCheck(s.port);
    s.(port := p,
       refused := s.refused || (s.port.registered && !Accepts(s.port.channel)),
       left := if s.port.registered && !p.registered then Some(n) else s.left)
  }

  function SubTake(s: Sub): Sub
    requires s.port.channel.queue != []
  {
    var q := s.port.channel.queue;
    s.(port := s.port.(channel := s.port.channel.(queue := q[1..])), received := s.received + [q[0]])
  }

  function SubDisconnect(s: Sub): Sub {
    s.(port := s.port.(channel := s.port.channel.(open := false)))
  }

  predicate Enabled(s: State, m: Move) {
    match m
    case Take(i) => i < |s.subs| && s.subs[i].port.channel.open && s.subs[i].port.channel.queue != []
    case Disconnect(i) => i < |s.subs|
    case _ => true
  }

  function Next(s: State, m: Move): State
    requires Enabled(s, m)
  {
    match m
    case Subscribe(c) => s.(subs := s.subs + [NewSub(if c.Some? then c.value else [], |s.log|)])
    case Emit(e) =>
      State(s.log + [e], seq(|s.subs|, i requires 0 <= i < |s.subs| => SubEmit(s.subs[i], e, |s.log|)))
    case Check =>
      s.(subs := seq(|s.subs|, i requires 0 <= i < |s.subs| => SubCheck(s.subs[i], |s.log|)))
    case Take(i) => s.(subs := s.subs[i := SubTake(s.subs[i])])
    case Disconnect(i) => s.(subs := s.subs[i := SubDisconnect(s.subs[i])])
  }

  predicate ValidRun(run: seq<Move>)
    decreases |run|, 0
  {
    run == [] || (ValidRun(run[..|run| - 1]) && Enabled(After(run[..|run| - 1]), run[|run| - 1]))
  }

  function After(run: seq<Move>): State
    requires ValidRun(run)
    decreases |run|, 1
  {
    if run == [] then INIT else Next(After(run[..|run| - 1]), run[|run| - 1])
  }

  // ---------------------------------------------------------------- a run's own record

  /** The events of the run's emissions. */
  function Emitted(run: seq<Move>): seq<Event> {
    if run == [] then []
    else Emitted(run[..|run| - 1]) + if run[|run| - 1].Emit? then [run[|run| - 1].e] else []
  }

  /** For each subscription of the run, its conditions and how many events had been emitted before it. */
  function Subscribed(run: seq<Move>): seq<(seq<Condition>, nat)> {
    if run == [] then []
    else
      var m := run[|run| - 1];
      Subscribed(run[..|run| - 1])
      + if m.Subscribe?
        then [(if m.conditions.Some? then m.conditions.value else [], |Emitted(run[..|run| - 1])|)]
        else []
  }

  lemma {:induction false} NextRecords(s: State, m: Move)
    requires Enabled(s, m)
    ensures Next(s, m).log == s.log + if m.Emit? then [m.e] else []
    ensures |Next(s, m).subs| == |s.subs| + if m.Subscribe? then 1 else 0
    ensures forall i | 0 <= i < |s.subs| ::
              Next(s, m).subs[i].conditions == s.subs[i].conditions && Next(s, m).subs[i].joined == s.subs[i].joined
    ensures m.Subscribe? ==>
              var s' := Next(s, m).subs[|s.subs|];
              s'.conditions == (if m.conditions.Some? then m.conditions.value else []) && s'.joined == |s.log|
  {
    assert s.log + [] == s.log;
  }

  /** The log and the subscribers are those of the run's own emissions and subscriptions, in order. */
  lemma {:induction false} RunRecords(run: seq<Move>)
    requires ValidRun(run)
    ensures After(run).log == Emitted(run) && |After(run).subs| == |Subscribed(run)|
    ensures forall i | 0 <= i < |After(run).subs| ::
              (After(run).subs[i].conditions, After(run).subs[i].joined) == Subscribed(run)[i]
  {
    if run != [] {
      RunRecords(run[..|run| - 1]);
      NextRecords(After(run[..|run| - 1]), run[|run| - 1]);
    }
  }

  lemma {:induction false} NextConnection(s: State, m: Move, i: nat)
    requires Enabled(s, m) && i < |Next(s, m).subs|
    ensures Next(s, m).subs[i].port.channel.open
            <==> (i < |s.subs| ==> s.subs[i].port.channel.open) && m != Disconnect(i)
  {}

  /** A subscriber is connected until it disconnects. */
  lemma {:induction false} ConnectedIff(run: seq<Move>, i: nat)
    requires ValidRun(run)
    ensures i < |After(run).subs| ==> (After(run).subs[i].port.channel.open <==> Disconnect(i) !in run)
    ensures |After(run).subs| <= i ==> Disconnect(i) !in run
  {
    if run != [] {
      var before, m := run[..|run| - 1], run[|run| - 1];
      ConnectedIff(before, i);
      assert run == before + [m];
      NextRecords(After(before), m);
      if i < |After(run).subs| { NextConnection(After(before), m, i); }
    }
  }

  // ---------------------------------------------------------------- what is offered, what arrives

  function Notes(ms: seq<Message>): seq<nat> {
    if ms == [] then []
    else Notes(ms[..|ms| - 1]) + if ms[|ms| - 1].Note? then [ms[|ms| - 1].index] else []
  }

  function Range(lo: nat, hi: nat): (r: seq<nat>)
    requires lo <= hi
    ensures |r| == hi - lo && forall k | 0 <= k < |r| :: r[k] == lo + k
  {
    seq(hi - lo, k requires 0 <= k < hi - lo => lo + k)
  }

  function Count(events: seq<Event>, conditions: seq<Condition>): nat {
    if events == [] then 0
    else
      Count(events[..|events| - 1], conditions)
      + if exists c :: c in conditions && Matches(c, events[|events| - 1]) then 1 else 0
  }

  /** Number of events emitted up to the end of the subscription, or up to now. */
  function End(s: Sub, log: seq<Event>): nat {
    if s.left.Some? then s.left.value else |log|
  }

  function Arrived(s: Sub): seq<nat> { Notes(s.received + s.port.channel.queue) }

  predicate HistoryOk(s: Sub, log: seq<Event>) {
    && (s.port.registered <==> s.left.None?)
    && s.joined <= End(s, log) <= |log|
    && (s.ended ==> s.left.Some? && s.joined < s.left.value)
    && (!s.refused && s.left.Some? ==> s.ended)
  }

  /** What was queued is an in-order, duplicate-free part of what was emitted during the subscription;
      it is all of it when nothing was refused. */
  predicate DeliveryOk(s: Sub, log: seq<Event>)
    requires HistoryOk(s, log)
  {
    var ns := Arrived(s);
    && |s.port.channel.queue| <= CAPACITY
    && (forall i | 0 <= i < |ns| :: s.joined <= ns[i] < End(s, log))
    && (forall i, j | 0 <= i < j < |ns| :: ns[i] < ns[j])
    && (!s.refused ==> ns == Range(s.joined, End(s, log)))
  }

  /** The counter of a registered subscriber is below its number of conditions; the emission that ends a
      subscription is the one that brings the number of matching events to it. */
  predicate CounterOk(s: Sub, log: seq<Event>)
    requires HistoryOk(s, log)
  {
    var n := |s.conditions|;
    && (s.port.registered ==> s.port.conditions == s.conditions)
    && (s.port.registered && n > 0 ==> s.port.met == Count(log[s.joined..], s.conditions) < n)
    && (s.port.registered && n == 0 ==> s.port.met == 0)
    && (s.ended ==> n > 0 && Count(log[s.joined..s.left.value], s.conditions) == n
                    && Count(log[s.joined..s.left.value - 1], s.conditions) == n - 1)
  }

  predicate SubOk(s: Sub, log: seq<Event>) {
    HistoryOk(s, log) && DeliveryOk(s, log) && CounterOk(s, log)
  }

  lemma {:induction false} NotesConcat(a: seq<Message>, b: seq<Message>)
    ensures Notes(a + b) == Notes(a) + Notes(b)
  {
    if b == [] {
      assert a + b == a;
    } else {
      assert (a + b)[..|a + b| - 1] == a + b[..|b| - 1];
      NotesConcat(a, b[..|b| - 1]);
    }
  }

  lemma {:induction false} OneMoreNote(s: Sub, m: Message)
    ensures Notes(s.received + (s.port.channel.queue + [m]))
            == Arrived(s) + if m.Note? then [m.index] else []
  {
    var ms := s.received + s.port.channel.queue;
    assert s.received + (s.port.channel.queue + [m]) == ms + [m];
    assert (ms + [m])[..|ms|] == ms;
  }

  lemma {:induction false} CountSnoc(log: seq<Event>, e: Event, joined: nat, conditions: seq<Condition>)
    requires joined <= |log|
    ensures Count((log + [e])[joined..], conditions)
            == Count(log[joined..], conditions) + if MatchesAny(conditions, e) then 1 else 0
  {
    assert (log + [e])[joined..] == log[joined..] + [e];
    assert (log[joined..] + [e])[..|log| - joined] == log[joined..];
  }

  lemma {:induction false} EmitKeepsHistoryAndCounter(s: Sub, log: seq<Event>, e: Event)
    requires SubOk(s, log)
    ensures HistoryOk(SubEmit(s, e, |log|), log + [e]) && CounterOk(SubEmit(s, e, |log|), log + [e])
  {
    var s', log' := SubEmit(s, e, |log|), log + [e];
    if s.port.registered {
      CountSnoc(log, e, s.joined, s.conditions);
      assert log'[s.joined..|log|] == log[s.joined..];
      assert log'[s.joined..|log'|] == log'[s.joined..];
    } else {
      assert log'[s.joined..s.left.value] == log[s.joined..s.left.value];
      if s.ended {
        assert log'[s.joined..s.left.value - 1] == log[s.joined..s.left.value - 1];
      }
    }
  }

  lemma {:induction false} OneMoreInOrder(ns: seq<nat>, lo: nat, n: nat)
    requires lo <= n && (forall i | 0 <= i < |ns| :: lo <= ns[i] < n)
            && (forall i, j | 0 <= i < j < |ns| :: ns[i] < ns[j])
    ensures forall i | 0 <= i < |ns + [n]| :: lo <= (ns + [n])[i] < n + 1
    ensures forall i, j | 0 <= i < j < |ns + [n]| :: (ns + [n])[i] < (ns + [n])[j]
    ensures ns == Range(lo, n) ==> ns + [n] == Range(lo, n + 1)
  {}

  /** What an emission adds to what has arrived, and what it does to the end of the subscription. */
  lemma {:induction false} EmitArrives(s: Sub, log: seq<Event>, e: Event)
    requires HistoryOk(s, log) && s.port.registered
    ensures var s' := SubEmit(s, e, |log|);
            && s'.joined == s.joined && End(s', log + [e]) == |log| + 1
            && s'.refused == (s.refused || !Accepts(s.port.channel))
            && Arrived(s') == (if Accepts(s.port.channel) then Arrived(s) + [|log|] else Arrived(s))
            && (|s.port.channel.queue| <= CAPACITY ==> |s'.port.channel.queue| <= CAPACITY)
  {
    OneMoreNote(s, Note(|log|));
    assert SubEmit(s, e, |log|).port.channel == TrySend(s.port.channel, Note(|log|));
  }

  lemma {:induction false} EmitPassesBy(s: Sub, log: seq<Event>, e: Event)
    requires HistoryOk(s, log) && !s.port.registered
    ensures SubEmit(s, e, |log|) == s && End(s, log + [e]) == End(s, log)
  {}

  /** The message was queued. */
  lemma {:induction false} EmitKeepsAccepted(s: Sub, log: seq<Event>, e: Event)
    requires HistoryOk(s, log) && DeliveryOk(s, log) && s.port.registered && Accepts(s.port.channel)
    requires HistoryOk(SubEmit(s, e, |log|), log + [e])
    ensures DeliveryOk(SubEmit(s, e, |log|), log + [e])
  {
    EmitArrives(s, log, e);
    OneMoreInOrder(Arrived(s), s.joined, |log|);
  }

  /** The queue was full or closed. */
  lemma {:induction false} EmitKeepsRefused(s: Sub, log: seq<Event>, e: Event)
    requires HistoryOk(s, log) && DeliveryOk(s, log) && s.port.registered && !Accepts(s.port.channel)
    requires HistoryOk(SubEmit(s, e, |log|), log + [e])
    ensures DeliveryOk(SubEmit(s, e, |log|), log + [e])
  {
    EmitArrives(s, log, e);
  }

  lemma {:induction false} EmitKeepsDelivery(s: Sub, log: seq<Event>, e: Event)
    requires HistoryOk(s, log) && DeliveryOk(s, log)
    requires HistoryOk(SubEmit(s, e, |log|), log + [e])
    ensures DeliveryOk(SubEmit(s, e, |log|), log + [e])
  {
    if !s.port.registered {
      EmitPassesBy(s, log, e);
    } else if Accepts(s.port.channel) {
      EmitKeepsAccepted(s, log, e);
    } else {
      EmitKeepsRefused(s, log, e);
    }
  }

  lemma {:induction false} CheckKeepsSub(s: Sub, log: seq<Event>)
    requires SubOk(s, log)
    ensures SubOk(SubCheck(s, |log|), log)
  {
    if s.port.registered {
      OneMoreNote(s, Ping);
    }
  }

  lemma {:induction false} TakeKeepsSub(s: Sub, log: seq<Event>)
    requires SubOk(s, log) && s.port.channel.queue != []
    ensures SubOk(SubTake(s), log)
  {
    var q := s.port.channel.queue;
    assert s.received + [q[0]] + q[1..] == s.received + q;
  }

  lemma {:induction false} EmitKeepsSub(s: Sub, log: seq<Event>, e: Event)
    requires SubOk(s, log)
    ensures SubOk(SubEmit(s, e, |log|), log + [e])
  {
    EmitKeepsHistoryAndCounter(s, log, e);
    EmitKeepsDelivery(s, log, e);
  }

  lemma {:induction false} DisconnectKeepsSub(s: Sub, log: seq<Event>)
    requires SubOk(s, log)
    ensures SubOk(SubDisconnect(s), log)
  {
    assert Arrived(SubDisconnect(s)) == Arrived(s);
  }

  lemma {:induction false} NewSubOk(conditions: seq<Condition>, log: seq<Event>)
    ensures SubOk(NewSub(conditions, |log|), log)
  {
    assert log[|log|..] == [];
  }

  predicate Inv(s: State) {
    forall i | 0 <= i < |s.subs| :: SubOk(s.subs[i], s.log)
  }

  lemma {:induction false} StepKeepsInv(s: State, m: Move)
    requires Inv(s) && Enabled(s, m)
    ensures Inv(Next(s, m))
  {
    match m {
      case Emit(e) =>
        forall i | 0 <= i < |s.subs| { EmitKeepsSub(s.subs[i], s.log, e); }
      case Check =>
        forall i | 0 <= i < |s.subs| { CheckKeepsSub(s.subs[i], s.log); }
      case Take(i) => TakeKeepsSub(s.subs[i], s.log);
      case Subscribe(c) => NewSubOk(if c.Some? then c.value else [], s.log);
      case Disconnect(i) => DisconnectKeepsSub(s.subs[i], s.log);
    }
  }

  lemma {:induction false} RunKeepsInv(run: seq<Move>)
    requires ValidRun(run)
    ensures Inv(After(run))
  {
    if run != [] {
      RunKeepsInv(run[..|run| - 1]);
      StepKeepsInv(After(run[..|run| - 1]), run[|run| - 1]);
    }
  }

  // ---------------------------------------------------------------- who is refused

  /** At every emission and connection check so far that found subscriber `i` registered, it was connected and
      had fewer than 100 messages queued. */
  predicate KeptUp(run: seq<Move>, i: nat)
    requires ValidRun(run)
  {
    run == []
    || (KeptUp(run[..|run| - 1], i) && WasReady(After(run[..|run| - 1]), run[|run| - 1], i))
  }

  predicate WasReady(before: State, m: Move, i: nat) {
    (m.Emit? || m.Check?) && i < |before.subs| && before.subs[i].port.registered ==>
      before.subs[i].port.channel.open && |before.subs[i].port.channel.queue| < 100
  }

  lemma {:induction false} StepRefuses(s: State, m: Move, i: nat)
    requires Enabled(s, m)
    ensures i < |s.subs| ==>
              i < |Next(s, m).subs| && Next(s, m).subs[i].refused == (s.subs[i].refused || !WasReady(s, m, i))
    ensures |s.subs| <= i < |Next(s, m).subs| ==> !Next(s, m).subs[i].refused
    ensures |s.subs| <= i ==> WasReady(s, m, i)
  {}

  /** The emitter fails to queue something for a subscriber exactly when an emission or a check finds it
      registered and either disconnected or with 100 messages queued. */
  lemma {:induction false} RefusedIff(run: seq<Move>, i: nat)
    requires ValidRun(run)
    ensures i < |After(run).subs| ==> (After(run).subs[i].refused <==> !KeptUp(run, i))
    ensures |After(run).subs| <= i ==> KeptUp(run, i)
  {
    if run != [] {
      var before := run[..|run| - 1];
      RefusedIff(before, i);
      StepRefuses(After(before), run[|run| - 1], i);
    }
  }

  // ---------------------------------------------------------------- the theorems

  lemma {:induction false} CountMonotone(events: seq<Event>, k: nat, conditions: seq<Condition>)
    requires k <= |events|
    ensures Count(events[..k], conditions) <= Count(events, conditions)
  {
    if k == |events| {
      assert events[..k] == events;
    } else {
      assert events[..|events| - 1][..k] == events[..k];
      CountMonotone(events[..|events| - 1], k, conditions);
    }
  }

  /** In every run: received events are an in-order duplicate-free part of those emitted during the
      subscription, at most 100 messages are queued, and a subscriber that kept up gets every one of them, up
      to and including the event that ends its subscription. */
  lemma {:induction false} Delivery(run: seq<Move>, i: nat)
    requires ValidRun(run) && i < |After(run).subs|
    ensures var s, log := After(run).subs[i], After(run).log;
            && |s.port.channel.queue| <= 100
            && s.joined <= End(s, log) <= |log|
            && (forall k | 0 <= k < |Notes(s.received)| :: s.joined <= Notes(s.received)[k] < End(s, log))
            && (forall j, k | 0 <= j < k < |Notes(s.received)| :: Notes(s.received)[j] < Notes(s.received)[k])
            && (KeptUp(run, i) ==>
                  Notes(s.received) + Notes(s.port.channel.queue) == Range(s.joined, End(s, log)))
  {
    RunKeepsInv(run);
    RefusedIff(run, i);
    var s := After(run).subs[i];
    NotesConcat(s.received, s.port.channel.queue);
    var ns := Notes(s.received);
    assert forall k | 0 <= k < |ns| :: ns[k] == Arrived(s)[k];
  }

  /** A subscription that was ended by an emission has had all its matches by now. */
  lemma {:induction false} EndedHasAllMatches(s: Sub, log: seq<Event>)
    requires SubOk(s, log) && s.ended
    ensures Count(log[s.joined..], s.conditions) >= |s.conditions|
  {
    assert log[s.joined..][..s.left.value - s.joined] == log[s.joined..s.left.value];
    CountMonotone(log[s.joined..], s.left.value - s.joined, s.conditions);
  }

  /** A subscriber that keeps up stays registered until, and only until, the emission
      of the n-th event that matches any of its n conditions; without conditions no emission ends it. */
  lemma {:induction false} EndsAtTheLastMatch(run: seq<Move>, i: nat)
    requires ValidRun(run) && i < |After(run).subs|
    ensures var s, log := After(run).subs[i], After(run).log;
            var n := |s.conditions|;
            && s.joined <= |log|
            && (s.port.registered && n > 0 ==> s.port.met == Count(log[s.joined..], s.conditions) < n)
            && (s.ended ==> n > 0)
            && (s.ended ==> s.left.Some? && s.joined < s.left.value <= |log|
                            && Count(log[s.joined..s.left.value], s.conditions) == n
                            && Count(log[s.joined..s.left.value - 1], s.conditions) == n - 1)
            && (KeptUp(run, i) ==> (s.port.registered <==> n == 0 || Count(log[s.joined..], s.conditions) < n))
  {
    RunKeepsInv(run);
    RefusedIff(run, i);
    EndsWhenMet(After(run).subs[i], After(run).log);
  }

  lemma {:induction false} EndsWhenMet(s: Sub, log: seq<Event>)
    requires SubOk(s, log)
    ensures var n := |s.conditions|;
            && s.joined <= |log|
            && (s.port.registered && n > 0 ==> s.port.met == Count(log[s.joined..], s.conditions) < n)
            && (s.ended ==> n > 0)
            && (s.ended ==> s.left.Some? && s.joined < s.left.value <= |log|
                            && Count(log[s.joined..s.left.value], s.conditions) == n
                            && Count(log[s.joined..s.left.value - 1], s.conditions) == n - 1)
            && (!s.refused ==> (s.port.registered <==> n == 0 || Count(log[s.joined..], s.conditions) < n))
  {
    if s.ended { EndedHasAllMatches(s, log); }
  }

  /** A never-refused subscriber whose subscription is over and whose queue is empty has received
      everything from its joining to the event that ended it. */
  lemma {:induction false} DrainedAndEnded(s: Sub, log: seq<Event>)
    requires SubOk(s, log) && !s.refused && !s.port.registered && s.port.channel.queue == []
    ensures s.left.Some? && s.joined < s.left.value <= |log| && s.ended
    ensures Notes(s.received) == Range(s.joined, s.left.value)
    ensures Count(log[s.joined..s.left.value], s.conditions) == |s.conditions|
    ensures Count(log[s.joined..s.left.value - 1], s.conditions) == |s.conditions| - 1
  {
    assert s.received + s.port.channel.queue == s.received;
  }

  // ---------------------------------------------------------------- what can happen

  lemma {:induction false} Extend(run: seq<Move>, m: Move)
    requires ValidRun(run) && Enabled(After(run), m)
    ensures ValidRun(run + [m]) && After(run + [m]) == Next(After(run), m)
  {
    assert (run + [m])[..|run|] == run;
  }

  /** Any events can be emitted at any time. */
  lemma {:induction false} AnyEventsAreEmitted(run: seq<Move>, events: seq<Event>) returns (run': seq<Move>)
    requires ValidRun(run)
    ensures ValidRun(run') && After(run').log == After(run).log + events
    decreases |events|
  {
    if events == [] {
      run' := run;
    } else {
      Extend(run, Emit(events[0]));
      run' := AnyEventsAreEmitted(run + [Emit(events[0])], events[1..]);
      assert [events[0]] + events[1..] == events;
    }
  }

  lemma {:induction false} TakesOne(s: State, i: nat)
    requires i < |s.subs| && s.subs[i].port.channel.open && s.subs[i].port.channel.queue != []
    ensures Enabled(s, Take(i))
    ensures var was, now := s.subs[i], Next(s, Take(i)).subs[i];
            && now.port.channel.open && |now.port.channel.queue| == |was.port.channel.queue| - 1
            && now.received + now.port.channel.queue == was.received + was.port.channel.queue
  {
    var q := s.subs[i].port.channel.queue;
    assert s.subs[i].received + [q[0]] + q[1..] == s.subs[i].received + q;
  }

  /** A connected subscriber can take all that is queued for it. */
  lemma {:induction false} CanDrain(run: seq<Move>, i: nat) returns (run': seq<Move>)
    requires ValidRun(run) && i < |After(run).subs| && After(run).subs[i].port.channel.open
    ensures ValidRun(run') && i < |After(run').subs| && After(run').subs[i].port.channel.queue == []
    ensures After(run').subs[i].received == After(run).subs[i].received + After(run).subs[i].port.channel.queue
    decreases |After(run).subs[i].port.channel.queue|
  {
    var s := After(run).subs[i];
    if s.port.channel.queue == [] {
      run' := run;
    } else {
      Extend(run, Take(i));
      TakesOne(After(run), i);
      run' := CanDrain(run + [Take(i)], i);
    }
  }
}
