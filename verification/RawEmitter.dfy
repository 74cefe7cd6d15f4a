/** Fan-out of events to subscribers over bounded queues, with stop conditions: the emitter and the loops
    that rebuild its client list. */
module RawEmitter {
  import opened Options
  import opened Events

  const CAPACITY: nat := 100

  /** A queued message: an empty keep-alive, or the event with the given number. */
  datatype Message = Ping | Note(index: nat)

  datatype Client = Client(id: nat, conditions: Option<seq<Condition>>, met: nat)

  datatype Channel = Channel(queue: seq<Message>, open: bool)

  function ConditionsOf(c: Client): seq<Condition> {
    if c.conditions.Some? then c.conditions.value else []
  }

  predicate MatchesAny(conditions: seq<Condition>, e: Event) {
    exists c | c in conditions :: Matches(c, e)
  }

  predicate Accepts(ch: Channel) { ch.open && |ch.queue| < CAPACITY }

  function TrySend(ch: Channel, m: Message): Channel {
    if Accepts(ch) then ch.(queue := ch.queue + [m]) else ch
  }

  // ---------------------------------------------------------------- what a subscriber sees of a step

  /** One subscriber: its registration and its queue, with nothing else of the emitter. */
  datatype Port = Port(conditions: seq<Condition>, met: nat, registered: bool, channel: Channel)

  function Detached(p: Port): Port { Port([], 0, false, p.channel) }

  /** Emission of `e` as message `m`: a registered port is offered the message, and is detached when this
      event brings its count of matching events to its number of conditions. */
  function PortEmit(p: Port, e: Event, m: Message): Port {
    if !p.registered then p
    else
      var q := p.(channel := TrySend(p.channel, m));
      if p.conditions == [] then q
      else
        var met := p.met + if MatchesAny(p.conditions, e) then 1 else 0;
        if met != |p.conditions| then q.(met := met) else Detached(q)
  }

  /** Connection check: a registered port that cannot take a keep-alive is detached. */
  function PortCheck(p: Port): Port {
    if !p.registered then p
    else if Accepts(p.channel) then p.(channel := TrySend(p.channel, Ping))
    else Detached(p)
  }

  // ---------------------------------------------------------------- the emitter

  function Find(clients: seq<Client>, id: nat): Option<Client> {
    if clients == [] then None
    else if clients[|clients| - 1].id == id then Some(clients[|clients| - 1])
    else Find(clients[..|clients| - 1], id)
  }

  function PortOf(found: Option<Client>, ch: Channel): Port {
    if found.Some? then Port(ConditionsOf(found.value), found.value.met, true, ch)
    else Port([], 0, false, ch)
  }

  predicate DistinctIds(clients: seq<Client>) {
    forall i, j | 0 <= i < j < |clients| :: clients[i].id != clients[j].id
  }

  lemma {:induction false} FindIn(clients: seq<Client>, k: nat)
    requires DistinctIds(clients) && k < |clients|
    ensures Find(clients, clients[k].id) == Some(clients[k])
    ensures Find(clients[..k], clients[k].id) == None
  {
    if k < |clients| - 1 {
      FindIn(clients[..|clients| - 1], k);
      assert clients[..|clients| - 1][..k] == clients[..k];
    } else {
      FindNone(clients[..k], clients[k].id);
    }
  }

  lemma {:induction false} FindNone(clients: seq<Client>, id: nat)
    ensures Find(clients, id) == None <==> forall j | 0 <= j < |clients| :: clients[j].id != id
    ensures Find(clients, id).Some? ==> Find(clients, id).value in clients && Find(clients, id).value.id == id
  {
    if clients != [] {
      FindNone(clients[..|clients| - 1], id);
    }
  }

  lemma {:induction false} FindSnoc(clients: seq<Client>, c: Client, id: nat)
    ensures Find(clients + [c], id) == if c.id == id then Some(c) else Find(clients, id)
  {
    assert (clients + [c])[..|clients|] == clients;
  }

  /** The client as it stands after `e`, or nothing when `e` is the event that ends its subscription. */
  function Advance(c: Client, e: Event): Option<Client> {
    var conditions := ConditionsOf(c);
    if conditions == [] then Some(c)
    else
      var met := c.met + if MatchesAny(conditions, e) then 1 else 0;
      if met != |conditions| then Some(c.(met := met)) else None
  }

  /** The list an emission writes back, computed from the list it copied under its first lock. */
  function Kept(snapshot: seq<Client>, e: Event): seq<Client> {
    if snapshot == [] then []
    else
      var before, last := Kept(snapshot[..|snapshot| - 1], e), Advance(snapshot[|snapshot| - 1], e);
      if last.Some? then before + [last.value] else before
  }

  /** The rebuilt list holds, for every subscriber, what its client becomes after `e`. */
  lemma {:induction false} KeptFind(snapshot: seq<Client>, e: Event, id: nat)
    requires DistinctIds(snapshot)
    ensures Find(Kept(snapshot, e), id)
            == if Find(snapshot, id).Some? then Advance(Find(snapshot, id).value, e) else None
  {
    if snapshot != [] {
      var init, last := snapshot[..|snapshot| - 1], snapshot[|snapshot| - 1];
      assert snapshot == init + [last];
      KeptFind(init, e, id);
      FindSnoc(init, last, id);
      if last.id == id { FindIn(snapshot, |snapshot| - 1); }
      if Advance(last, e).Some? {
        FindSnoc(Kept(init, e), Advance(last, e).value, id);
      }
    }
  }

  lemma {:induction false} KeptDistinct(snapshot: seq<Client>, e: Event)
    requires DistinctIds(snapshot)
    ensures DistinctIds(Kept(snapshot, e))
    ensures forall c | c in Kept(snapshot, e) :: exists j :: 0 <= j < |snapshot| && snapshot[j].id == c.id
  {
    if snapshot != [] {
      KeptDistinct(snapshot[..|snapshot| - 1], e);
    }
  }

  lemma {:induction false} KeptSnoc(snapshot: seq<Client>, c: Client, e: Event)
    ensures Kept(snapshot + [c], e) == Kept(snapshot, e) + if Advance(c, e).Some? then [Advance(c, e).value] else []
  {
    assert (snapshot + [c])[..|snapshot|] == snapshot;
  }

  /** The clients whose queue takes a keep-alive. */
  function Alive(snapshot: seq<Client>, channels: seq<Channel>): seq<Client>
    requires forall k | 0 <= k < |snapshot| :: snapshot[k].id < |channels|
  {
    if snapshot == [] then []
    else
      var c := snapshot[|snapshot| - 1];
      Alive(snapshot[..|snapshot| - 1], channels) + if Accepts(channels[c.id]) then [c] else []
  }

  lemma {:induction false} AliveSnoc(snapshot: seq<Client>, c: Client, channels: seq<Channel>)
    requires c.id < |channels| && forall k | 0 <= k < |snapshot| :: snapshot[k].id < |channels|
    ensures Alive(snapshot + [c], channels) == Alive(snapshot, channels) + if Accepts(channels[c.id]) then [c] else []
  {
    assert (snapshot + [c])[..|snapshot|] == snapshot;
  }

  lemma {:induction false} AliveFind(snapshot: seq<Client>, channels: seq<Channel>, id: nat)
    requires DistinctIds(snapshot) && id < |channels| && forall k | 0 <= k < |snapshot| :: snapshot[k].id < |channels|
    ensures Find(Alive(snapshot, channels), id) == if Accepts(channels[id]) then Find(snapshot, id) else None
  {
    if snapshot != [] {
      var init, last := snapshot[..|snapshot| - 1], snapshot[|snapshot| - 1];
      assert snapshot == init + [last];
      AliveFind(init, channels, id);
      FindSnoc(init, last, id);
      if last.id == id { FindIn(snapshot, |snapshot| - 1); }
      FindSnoc(Alive(init, channels), last, id);
      assert Alive(init, channels) + [] == Alive(init, channels);
    }
  }

  lemma {:induction false} AliveDistinct(snapshot: seq<Client>, channels: seq<Channel>)
    requires DistinctIds(snapshot) && forall k | 0 <= k < |snapshot| :: snapshot[k].id < |channels|
    ensures DistinctIds(Alive(snapshot, channels))
    ensures forall c | c in Alive(snapshot, channels) :: exists j :: 0 <= j < |snapshot| && snapshot[j].id == c.id
  {
    if snapshot != [] {
      AliveDistinct(snapshot[..|snapshot| - 1], channels);
    }
  }

  /** The queues after the first `k` clients of the list were offered `m`. */
  predicate Offered(snapshot: seq<Client>, k: nat, was: seq<Channel>, now: seq<Channel>, m: Message)
    requires k <= |snapshot|
  {
    && |now| == |was|
    && forall i: nat | i < |was| :: now[i] == if Find(snapshot[..k], i).Some? then TrySend(was[i], m) else was[i]
  }

  lemma {:induction false} OfferNext(snapshot: seq<Client>, k: nat, was: seq<Channel>, now: seq<Channel>, m: Message)
    requires DistinctIds(snapshot) && k < |snapshot| && snapshot[k].id < |was|
    requires Offered(snapshot, k, was, now, m)
    ensures now[snapshot[k].id] == was[snapshot[k].id]
    ensures Offered(snapshot, k + 1, was, now[snapshot[k].id := TrySend(now[snapshot[k].id], m)], m)
    ensures !Accepts(now[snapshot[k].id]) ==> Offered(snapshot, k + 1, was, now, m)
  {
    FindIn(snapshot, k);
    assert snapshot[..k + 1] == snapshot[..k] + [snapshot[k]];
    forall i: nat { FindSnoc(snapshot[..k], snapshot[k], i); }
  }

  /** The rebuilt list and the queues after the last offer, seen from one subscriber. */
  lemma {:induction false} PortAfterEmit(snapshot: seq<Client>, e: Event, m: Message, was: seq<Channel>,
                                         now: seq<Channel>, i: nat)
    requires DistinctIds(snapshot) && i < |was| && Offered(snapshot, |snapshot|, was, now, m)
    ensures PortOf(Find(Kept(snapshot, e), i), now[i]) == PortEmit(PortOf(Find(snapshot, i), was[i]), e, m)
  {
    KeptFind(snapshot, e, i);
    assert snapshot[..|snapshot|] == snapshot;
  }

  lemma {:induction false} PortAfterCheck(snapshot: seq<Client>, was: seq<Channel>, now: seq<Channel>, i: nat)
    requires DistinctIds(snapshot) && i < |was| && Offered(snapshot, |snapshot|, was, now, Ping)
    requires forall k | 0 <= k < |snapshot| :: snapshot[k].id < |was|
    ensures PortOf(Find(Alive(snapshot, was), i), now[i]) == PortCheck(PortOf(Find(snapshot, i), was[i]))
  {
    AliveFind(snapshot, was, i);
    assert snapshot[..|snapshot|] == snapshot;
  }

  /** Why the statements about runs ask that nothing lands between an emission's two locks: every
      subscription that lands there is lost, whatever the other clients and the event are. */
  lemma {:induction false} GapLosesSubscriptions(snapshot: seq<Client>, e: Event, late: Client)
    requires DistinctIds(snapshot) && Find(snapshot, late.id).None?
    ensures Find(snapshot + [late], late.id) == Some(late)
    ensures Find(Kept(snapshot, e), late.id).None?
    ensures Find(Kept(snapshot + [late], e), late.id) == Advance(late, e)
  {
    FindSnoc(snapshot, late, late.id);
    FindNone(snapshot, late.id);
    KeptFind(snapshot, e, late.id);
    KeptFind(snapshot + [late], e, late.id);
  }

  class RawEventEmitter {
    var clients: seq<Client>
    var channels: seq<Channel>

    ghost predicate Valid()
      reads this
    {
      && DistinctIds(clients)
      && forall k | 0 <= k < |clients| :: clients[k].id < |channels|
    }

    ghost function View(id: nat): Port
      requires id < |channels|
      reads this
    {
      PortOf(Find(clients, id), channels[id])
    }

    constructor ()
      ensures Valid() && clients == [] && channels == []
    {
      clients, channels := [], [];
    }

    method Subscribe(conditions: Option<seq<Condition>>) returns (id: nat)
      requires Valid()
      modifies this
      ensures Valid() && id == old(|channels|) && |channels| == id + 1
      ensures channels == old(channels) + [Channel([], true)]
      ensures View(id) == Port(if conditions.Some? then conditions.value else [], 0, true, Channel([], true))
      ensures forall i | 0 <= i < id :: View(i) == old(View(i))
    {
      id := |channels|;
      FindNone(clients, id);
      var c := Client(id, conditions, 0);
      forall i: nat { FindSnoc(clients, c, i); }
      clients := clients + [c];
      channels := channels + [Channel([], true)];
    }

    /** The counting part of the emission loop. */
    static method Count(client: Client, e: Event) returns (kept: Option<Client>)
      ensures kept == Advance(client, e)
    {
      var conditions := ConditionsOf(client);
      if conditions == [] { return Some(client); }
      var met := client.met;
      if MatchesAny(conditions, e) {
        met := met + 1;
      }
      kept := if met != |conditions| then Some(client.(met := met)) else None;
    }

    /** The emission loop over the list copied under the first lock: everyone is offered the message, and the
        list to write back is built. */
    method Offer(e: Event, m: Message) returns (newClients: seq<Client>)
      requires Valid()
      modifies this`channels
      ensures newClients == Kept(clients, e) && Offered(clients, |clients|, old(channels), channels, m)
    {
      newClients := [];
      ghost var was := channels;
      for k := 0 to |clients|
        invariant newClients == Kept(clients[..k], e) && Offered(clients, k, was, channels, m)
      {
        var client := clients[k];
        OfferNext(clients, k, was, channels, m);
        assert clients[..k + 1] == clients[..k] + [client];
        KeptSnoc(clients[..k], client, e);
        channels := channels[client.id := TrySend(channels[client.id], m)];
        var kept := Count(client, e);
        if kept.Some? {
          newClients := newClients + [kept.value];
        }
      }
      assert clients[..|clients|] == clients;
    }

    method SubscribeAll(late: seq<Option<seq<Condition>>>)
      requires Valid()
      modifies this
      ensures Valid() && channels == old(channels) + seq(|late|, _ => Channel([], true))
    {
      for k := 0 to |late|
        invariant Valid() && channels == old(channels) + seq(k, _ => Channel([], true))
      {
        var _ := Subscribe(late[k]);
      }
    }

    /** An emission: every port takes exactly its own step, whatever the order of the list.  A subscriber gets the
        message if and only if it is registered and connected with fewer than 100 messages queued; to the others
        nothing is queued.  The list is copied under one lock and written back under another; `late` are the
        subscriptions that land in between, and none of them survives. */
    method Emit(e: Event, m: Message, late: seq<Option<seq<Condition>>>)
      requires Valid()
      modifies this
      ensures Valid() && |channels| == old(|channels|) + |late|
      ensures forall i | 0 <= i < old(|channels|) :: View(i) == PortEmit(old(View(i)), e, m)
      ensures forall i | 0 <= i < old(|channels|) ::
                var p := old(View(i));
                View(i).channel == p.channel.(queue := p.channel.queue
                  + if p.registered && p.channel.open && |p.channel.queue| < 100 then [m] else [])
      ensures forall i | old(|channels|) <= i < |channels| :: View(i) == Port([], 0, false, Channel([], true))
      ensures clients == Kept(old(clients), e)
    {
      ghost var snapshot, was := clients, channels;
      var newClients := Offer(e, m);
      ghost var offered := channels;
      SubscribeAll(late);
      clients := newClients;
      KeptDistinct(snapshot, e);
      forall i | 0 <= i < |was| ensures View(i) == PortEmit(old(View(i)), e, m) {
        PortAfterEmit(snapshot, e, m, was, offered, i);
      }
      forall i | |was| <= i < |channels| ensures View(i) == Port([], 0, false, Channel([], true)) {
        KeptFind(snapshot, e, i);
        FindNone(snapshot, i);
      }
    }

    /** A connection check: a subscriber stays registered, and gets a keep-alive, if and only if it is connected
        with fewer than 100 messages queued. */
    method CheckConnection()
      requires Valid()
      modifies this
      ensures Valid() && |channels| == old(|channels|)
      ensures forall i | 0 <= i < |channels| :: View(i) == PortCheck(old(View(i)))
      ensures forall i | 0 <= i < |channels| ::
                var p := old(View(i));
                && View(i).registered == (p.registered && p.channel.open && |p.channel.queue| < 100)
                && View(i).channel == p.channel.(queue := p.channel.queue + if View(i).registered then [Ping] else [])
    {
      var alive := OfferPing();
      ghost var snapshot, was := clients, old(channels);
      AliveDistinct(snapshot, was);
      clients := alive;
      forall i | 0 <= i < |channels| ensures View(i) == PortCheck(old(View(i))) {
        PortAfterCheck(snapshot, was, channels, i);
      }
    }

    /** The loop of the connection check. */
    method OfferPing() returns (alive: seq<Client>)
      requires Valid()
      modifies this`channels
      ensures alive == Alive(clients, old(channels)) && Offered(clients, |clients|, old(channels), channels, Ping)
    {
      alive := [];
      ghost var was := channels;
      for k := 0 to |clients|
        invariant alive == Alive(clients[..k], was) && Offered(clients, k, was, channels, Ping)
      {
        var client := clients[k];
        OfferNext(clients, k, was, channels, Ping);
        assert clients[..k + 1] == clients[..k] + [client];
        AliveSnoc(clients[..k], client, was);
        if !Accepts(channels[client.id]) { continue; }
        channels := channels[client.id := TrySend(channels[client.id], Ping)];
        alive := alive + [client];
      }
      assert clients[..|clients|] == clients;
    }
  }
}
