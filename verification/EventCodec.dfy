/** A codec of events that meets what is asked of one: the statements about streams are not about nothing. */
module EventCodec {
  import opened Options
  import opened Events
  import opened EventStream

  // ---------------------------------------------------------------- numbers as visible bytes

  /** As many '1' as the number says, and a '0'. */
  function Number(n: nat): Bytes {
    if n == 0 then [48] else [49] + Number(n - 1)
  }

  function Numbers(ns: seq<nat>): Bytes {
    if ns == [] then [] else Number(ns[0]) + Numbers(ns[1..])
  }

  lemma {:induction false} NumberPrefix(n: nat, m: nat, a: Bytes, b: Bytes)
    requires Number(n) + a == Number(m) + b
    ensures n == m && a == b
  {
    assert (Number(n) + a)[0] == Number(n)[0] && (Number(m) + b)[0] == Number(m)[0];
    assert (Number(n) + a)[1..] == Number(n)[1..] + a && (Number(m) + b)[1..] == Number(m)[1..] + b;
    if n > 0 && m > 0 {
      assert Number(n)[1..] == Number(n - 1) && Number(m)[1..] == Number(m - 1);
      NumberPrefix(n - 1, m - 1, a, b);
    } else {
      assert [] + a == a && [] + b == b;
    }
  }

  lemma {:induction false} NumbersInjective(ns: seq<nat>, ms: seq<nat>)
    requires Numbers(ns) == Numbers(ms)
    ensures ns == ms
  {
    if ns != [] && ms != [] {
      NumberPrefix(ns[0], ms[0], Numbers(ns[1..]), Numbers(ms[1..]));
      NumbersInjective(ns[1..], ms[1..]);
      assert ns == [ns[0]] + ns[1..] && ms == [ms[0]] + ms[1..];
    }
  }

  predicate Visible(b: Bytes) { forall i | 0 <= i < |b| :: b[i] == 48 || b[i] == 49 }

  lemma {:induction false} NumberIsVisible(n: nat)
    ensures Visible(Number(n)) && Number(n) != []
  {
    if n > 0 { NumberIsVisible(n - 1); }
  }

  lemma {:induction false} NumbersAreVisible(ns: seq<nat>)
    ensures Visible(Numbers(ns))
  {
    if ns != [] {
      NumberIsVisible(ns[0]);
      NumbersAreVisible(ns[1..]);
    }
  }

  // ---------------------------------------------------------------- events as numbers

  function Text(s: string): seq<nat> { [|s|] + seq(|s|, i requires 0 <= i < |s| => s[i] as nat) }

  function Maybe(s: Option<string>): seq<nat> { if s.None? then [0] else [1] + Text(s.value) }

  function KindCode(k: EventKind): nat {
    match k
    case Error => 0
    case Normal => 1
    case Warning => 2
  }

  function ActorCode(k: ActorKind): nat {
    match k
    case Namespace => 0
    case Cargo => 1
    case Vm => 2
    case Job => 3
    case Resource => 4
    case Secret => 5
    case Process => 6
    case ContainerImage => 7
  }

  function MaybeActor(a: Option<Actor>): seq<nat> {
    if a.None? then [0] else [1, ActorCode(a.value.kind)] + Maybe(a.value.key)
  }

  function Spelled(e: Event): seq<nat> {
    [KindCode(e.kind)] + (Text(e.action) + (MaybeActor(e.actor) + Maybe(e.note)))
  }

  lemma {:induction false} TextPrefix(s: string, t: string, a: seq<nat>, b: seq<nat>)
    requires Text(s) + a == Text(t) + b
    ensures s == t && a == b
  {
    var l, r := Text(s) + a, Text(t) + b;
    assert l[0] == |s| && r[0] == |t|;
    assert forall i | 0 <= i < |s| :: l[i + 1] == s[i] as nat && r[i + 1] == t[i] as nat;
    assert l[|s| + 1..] == a && r[|t| + 1..] == b;
  }

  lemma {:induction false} Heads(x: nat, y: nat, a: seq<nat>, b: seq<nat>)
    requires [x] + a == [y] + b
    ensures x == y && a == b
  {
    assert ([x] + a)[0] == x && ([y] + b)[0] == y;
    assert ([x] + a)[1..] == a && ([y] + b)[1..] == b;
  }

  lemma {:induction false} MaybeUnfolds(s: Option<string>, a: seq<nat>)
    ensures Maybe(s) + a == if s.None? then [0] + a else [1] + (Text(s.value) + a)
  {}

  lemma {:induction false} MaybePrefix(s: Option<string>, t: Option<string>, a: seq<nat>, b: seq<nat>)
    requires Maybe(s) + a == Maybe(t) + b
    ensures s == t && a == b
  {
    MaybeUnfolds(s, a);
    MaybeUnfolds(t, b);
    var restS, restT := if s.None? then a else Text(s.value) + a, if t.None? then b else Text(t.value) + b;
    Heads(if s.None? then 0 else 1, if t.None? then 0 else 1, restS, restT);
    if s.Some? { TextPrefix(s.value, t.value, a, b); }
  }

  lemma {:induction false} ActorUnfolds(s: Option<Actor>, a: seq<nat>)
    ensures MaybeActor(s) + a
            == if s.None? then [0] + a else [1] + ([ActorCode(s.value.kind)] + (Maybe(s.value.key) + a))
  {}

  lemma {:induction false} ActorPrefix(s: Option<Actor>, t: Option<Actor>, a: seq<nat>, b: seq<nat>)
    requires MaybeActor(s) + a == MaybeActor(t) + b
    ensures s == t && a == b
  {
    ActorUnfolds(s, a);
    ActorUnfolds(t, b);
    var restS := if s.None? then a else [ActorCode(s.value.kind)] + (Maybe(s.value.key) + a);
    var restT := if t.None? then b else [ActorCode(t.value.kind)] + (Maybe(t.value.key) + b);
    Heads(if s.None? then 0 else 1, if t.None? then 0 else 1, restS, restT);
    if s.Some? {
      Heads(ActorCode(s.value.kind), ActorCode(t.value.kind), Maybe(s.value.key) + a, Maybe(t.value.key) + b);
      MaybePrefix(s.value.key, t.value.key, a, b);
    }
  }

  lemma {:induction false} SpelledInjective(e: Event, f: Event)
    requires Spelled(e) == Spelled(f)
    ensures e == f
  {
    assert Spelled(e)[0] == KindCode(e.kind) && Spelled(f)[0] == KindCode(f.kind);
    assert Spelled(e)[1..] == Text(e.action) + (MaybeActor(e.actor) + Maybe(e.note));
    assert Spelled(f)[1..] == Text(f.action) + (MaybeActor(f.actor) + Maybe(f.note));
    TextPrefix(e.action, f.action, MaybeActor(e.actor) + Maybe(e.note), MaybeActor(f.actor) + Maybe(f.note));
    ActorPrefix(e.actor, f.actor, Maybe(e.note), Maybe(f.note));
    assert Maybe(e.note) + [] == Maybe(f.note) + [];
    MaybePrefix(e.note, f.note, [], []);
  }

  // ---------------------------------------------------------------- the codec

  function Printed(e: Event): Bytes { Numbers(Spelled(e)) }

  lemma {:induction false} PrintedShape(e: Event)
    ensures Printed(e) != [] && !Blank(Printed(e)[0]) && NEWLINE !in Printed(e)
  {
    NumbersAreVisible(Spelled(e));
    NumberIsVisible(Spelled(e)[0]);
    assert Printed(e)[0] == Number(Spelled(e)[0])[0];
  }

  lemma {:induction false} PrintedInjective(e: Event, f: Event)
    requires Printed(e) == Printed(f)
    ensures e == f
  {
    NumbersInjective(Spelled(e), Spelled(f));
    SpelledInjective(e, f);
  }

  function Line(e: Event): Bytes { Printed(e) + [NEWLINE] }

  /** The event whose line it is, if there is one. */
  ghost function Parsed(line: Bytes): (e: Option<Event>)
    ensures e.Some? ==> Line(e.value) == line
    ensures e.None? ==> forall f :: Line(f) != line
  {
    if exists e :: Line(e) == line then
      var e :| Line(e) == line; Some(e)
    else None
  }

  lemma {:induction false} LineParses(e: Event)
    ensures Parsed(Line(e)) == Some(e)
  {
    var f := Parsed(Line(e)).value;
    assert Line(f)[..|Printed(f)|] == Printed(f) && Line(e)[..|Printed(e)|] == Printed(e);
    PrintedInjective(e, f);
  }

  lemma {:induction false} OneNewline(e: Event, n: nat)
    requires n < |Line(e)| && Line(e)[n] == NEWLINE
    ensures n == |Line(e)| - 1
  {
    PrintedShape(e);
    assert forall j | 0 <= j < |Printed(e)| :: Line(e)[j] == Printed(e)[j];
  }

  lemma {:induction false} LongerDoesNotParse(e: Event, rest: Bytes)
    requires rest != []
    ensures Parsed(Line(e) + rest) == None
  {
    var longer, n := Line(e) + rest, |Printed(e)|;
    assert longer[n] == NEWLINE && n < |longer| - 1;
    forall f ensures Line(f) != longer {
      if n < |Line(f)| && Line(f)[n] == NEWLINE { OneNewline(f, n); }
    }
  }

  /** There is a sound codec of events. */
  lemma {:induction false} SoundEventCodec() returns (c: Codec<Event>)
    ensures Sound(c)
  {
    c := Codec((e: Event) => Printed(e), (b: Bytes) => Parsed(b));
    forall e: Event ensures c.print_(e) != [] && !Blank(c.print_(e)[0]) && NEWLINE !in c.print_(e) {
      PrintedShape(e);
    }
    forall e: Event ensures c.parse(c.print_(e) + [NEWLINE]) == Some(e) {
      assert c.print_(e) + [NEWLINE] == Line(e);
      LineParses(e);
    }
    forall e: Event, rest: Bytes | rest != [] && !Blank(rest[0])
      ensures c.parse(c.print_(e) + [NEWLINE] + rest) == None
    {
      assert c.print_(e) + [NEWLINE] == Line(e);
      LongerDoesNotParse(e, rest);
    }
  }
}
