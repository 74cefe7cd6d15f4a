/** The event vocabulary shared by the event loop, the fan-out and the waiting client. */
module Events {

  import opened Options

  datatype EventKind = Error | Normal | Warning

  datatype ActorKind = Namespace | Cargo | Vm | Job | Resource | Secret | Process | ContainerImage

  datatype Action =
    | Create | Starting | Start | Updating | Update | Destroying | Destroy | Stopping
    | Stop | Restart | Finish | Fail | Die | Downloading | Download | Other(text: string)

  datatype Actor = Actor(key: Option<string>, kind: ActorKind)

  /** The fields of an event that the daemon or a client ever branches on. */
  datatype Event = Event(kind: EventKind, action: string, actor: Option<Actor>, note: Option<string>)

  datatype Condition = Condition(
    actorKey: Option<string>,
    actorKind: Option<ActorKind>,
    kinds: seq<EventKind>,
    actions: seq<Action>)

  function KindName(k: ActorKind): string {
    match k
    case Namespace => "Namespace"
    case Cargo => "Cargo"
    case Vm => "Vm"
    case Job => "Job"
    case Resource => "Resource"
    case Secret => "Secret"
    case Process => "Process"
    case ContainerImage => "ContainerImage"
  }

  function ParseAction(s: string): Action {
    if s == "create" then Create
    else if s == "starting" then Starting
    else if s == "start" then Start
    else if s == "updating" then Updating
    else if s == "update" then Update
    else if s == "destroying" then Destroying
    else if s == "destroy" then Destroy
    else if s == "stopping" then Stopping
    else if s == "stop" then Stop
    else if s == "restart" then Restart
    else if s == "finish" then Finish
    else if s == "fail" then Fail
    else if s == "die" then Die
    else if s == "downloading" then Downloading
    else if s == "download" then Download
    else Other(s)
  }

  function PrintAction(a: Action): string {
    match a
    case Create => "create"
    case Starting => "starting"
    case Start => "start"
    case Updating => "updating"
    case Update => "update"
    case Destroying => "destroying"
    case Destroy => "destroy"
    case Stopping => "stopping"
    case Stop => "stop"
    case Restart => "restart"
    case Finish => "finish"
    case Fail => "fail"
    case Die => "die"
    case Downloading => "downloading"
    case Download => "download"
    case Other(s) => s
  }

  /** Does event `e` satisfy condition `c`?  The related actor of a condition is never consulted. */
  predicate Matches(c: Condition, e: Event) {
    && e.actor.Some?
    && e.actor.value.key.Some?
    && c.actorKind == Some(e.actor.value.kind)
    && c.actorKey == Some(e.actor.value.key.value)
    && e.kind in c.kinds
    && ParseAction(e.action) in c.actions
  }

  lemma {:induction false} PrintParsed(s: string)
    ensures PrintAction(ParseAction(s)) == s
  {}

  lemma {:induction false} ParsePrinted(a: Action)
    requires !a.Other?
    ensures ParseAction(PrintAction(a)) == a
  {}

  /** Every text is the printed form of what it parses to, and an action survives the trip
      through its text exactly when it is not a free-form action spelled like a native one. */
  lemma {:induction false} ActionRoundTrip(a: Action, s: string)
    ensures PrintAction(ParseAction(s)) == s
    ensures ParseAction(PrintAction(a)) == a
            <==> (a.Other? ==> ParseAction(a.text).Other?)
  {
    PrintParsed(s);
    if a.Other? {
      PrintParsed(a.text);
    } else {
      ParsePrinted(a);
    }
  }

  /** Kind names hold no '@', so the '@' that separates a kind from a key in a task key is the first one. */
  lemma {:induction false} KindNameHasNoSeparator(k: ActorKind)
    ensures '@' !in KindName(k)
  {}

  lemma {:induction false} KindNameInjective(k: ActorKind, l: ActorKind)
    requires KindName(k) == KindName(l)
    ensures k == l
  {
    assert KindName(k)[0] == KindName(l)[0];
    assert |KindName(k)| == |KindName(l)|;
  }
}
