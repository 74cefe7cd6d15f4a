/** The daemon's event loop and its per-object task manager, as one interleaved state machine.

    One sequential loop takes events, possibly waits for the task that is registered for the same
    object, spawns a new task and then registers it.  Every task removes its own registration when
    its body ends, and only then runs its error handler.  Each lock acquisition of the shared map is
    one atomic step, and any task may take a step between any two steps of the loop: in particular a
    task may end before the loop has registered it. */
module EventLoop {
  import opened Options
  import opened Events

  // ---------------------------------------------------------------- what one event asks for

  datatype Policy = Wait | Abort | Proceed

  datatype Plan = Ignore | Run(key: string, policy: Policy, spawns: bool)

  function TaskKey(kind: ActorKind, key: string): string {
    KindName(kind) + "@" + key
  }

  /** Objects whose task bodies are serialised. */
  predicate Waits(kind: ActorKind) { kind == Cargo || kind == Vm }

  predicate Spawns(kind: ActorKind, action: Action) {
    match action
    case Starting => kind in {Job, Cargo, Vm}
    case Stopping => kind in {Job, Cargo, Vm}
    case Destroying => kind in {Job, Cargo, Vm}
    case Updating => kind in {Cargo, Vm}
    case _ => false
  }

  function ObjectKey(a: Actor): string {
    if a.key.Some? then a.key.value else ""
  }

  function PlanFor(e: Event): Plan {
    if e.kind != Normal || e.actor.None? then Ignore
    else
      var kind, action := e.actor.value.kind, ParseAction(e.action);
      Run(TaskKey(kind, ObjectKey(e.actor.value)),
          if Waits(kind) then Wait
          else if kind == Job && action == Destroying then Abort
          else Proceed,
          Spawns(kind, action))
  }

  // ---------------------------------------------------------------- state

  datatype Phase =
    | Ready               // spawned, never polled
    | Body                // the object's work is under way
    | Leaving(ok: bool)   // the body has ended, the registration is not removed yet
    | Handling            // the body failed and the error handler runs
    | Done
    | Aborted

  predicate Finished(p: Phase) { p.Done? || p.Aborted? }

  /** The body has not ended, or has ended without the task having left the map. */
  predicate Present(p: Phase) { p.Ready? || p.Body? || p.Leaving? }

  predicate Unfinished(p: Phase) { p.Ready? || p.Body? }

  datatype Task = Task(key: string, event: nat, phase: Phase)

  datatype Pc =
    | Idle
    | Fetching(plan: Plan)
    | Polling(plan: Plan, target: nat)
    | Clearing(plan: Plan)
    | Aborting(plan: Plan)
    | Dispatching(plan: Plan)
    | Inserting(plan: Plan, target: nat)

  datatype Mark = Began(task: nat) | Ended(task: nat)

  /** `tasks` lists every task ever spawned (its index is its identity), `slots` is the shared map,
      `log` records when bodies begin and end. */
  datatype State = State(
    received: seq<Event>,
    pc: Pc,
    tasks: seq<Task>,
    slots: map<string, nat>,
    log: seq<Mark>)

  const INIT: State := State([], Idle, [], map[], [])

  datatype Move =
    | Receive(e: Event)
    | LoopStep
    | Begin(t: nat)
    | End(t: nat, ok: bool)
    | Leave(t: nat)
    | Handled(t: nat)

  function SetPhase(tasks: seq<Task>, t: nat, p: Phase): (r: seq<Task>)
    requires t < |tasks|
    ensures |r| == |tasks|
    ensures forall u | 0 <= u < |r| ::
              && r[u].key == tasks[u].key && r[u].event == tasks[u].event
              && r[u].phase == if u == t then p else tasks[u].phase
  {
    tasks[t := tasks[t].(phase := p)]
  }

  /** Unregister `key`, aborting the registered task if it is still running. */
  function RemoveTask(s: State, key: string): State {
    if key in s.slots && s.slots[key] < |s.tasks| then
      var t := s.slots[key];
      var tasks := if Finished(s.tasks[t].phase) then s.tasks else SetPhase(s.tasks, t, Aborted);
      s.(tasks := tasks, slots := s.slots - {key})
    else s.(slots := s.slots - {key})
  }

  predicate LoopEnabled(s: State) {
    match s.pc
    case Idle => false
    case Polling(_, t) => t < |s.tasks| && Finished(s.tasks[t].phase)
    case _ => s.pc.plan.Run?
  }

  predicate Enabled(s: State, m: Move) {
    match m
    case Receive(_) => s.pc.Idle?
    case LoopStep => LoopEnabled(s)
    case Begin(t) => t < |s.tasks| && s.tasks[t].phase.Ready?
    case End(t, _) => t < |s.tasks| && s.tasks[t].phase.Body?
    case Leave(t) => t < |s.tasks| && s.tasks[t].phase.Leaving?
    case Handled(t) => t < |s.tasks| && s.tasks[t].phase.Handling?
  }

  function LoopNext(s: State): State
    requires LoopEnabled(s)
  {
    match s.pc
    case Fetching(p) =>
      if p.key in s.slots then s.(pc := Polling(p, s.slots[p.key])) else s.(pc := Dispatching(p))
    case Polling(p, t) => s.(pc := Clearing(p))
    case Clearing(p) => RemoveTask(s, p.key).(pc := Dispatching(p))
    case Aborting(p) => RemoveTask(s, p.key).(pc := Dispatching(p))
    case Dispatching(p) =>
      if !p.spawns then s.(pc := Idle)
      else s.(tasks := s.tasks + [Task(p.key, |s.received|, Ready)], pc := Inserting(p, |s.tasks|))
    case Inserting(p, t) => s.(slots := s.slots[p.key := t], pc := Idle)
  }

  function AfterReceive(p: Plan): Pc {
    match p
    case Ignore => Idle
    case Run(_, Wait, _) => Fetching(p)
    case Run(_, Abort, _) => Aborting(p)
    case Run(_, Proceed, _) => Dispatching(p)
  }

  function Next(s: State, m: Move): State
    requires Enabled(s, m)
  {
    match m
    case Receive(e) => s.(received := s.received + [e], pc := AfterReceive(PlanFor(e)))
    case LoopStep => LoopNext(s)
    case Begin(t) => s.(tasks := SetPhase(s.tasks, t, Body), log := s.log + [Began(t)])
    case End(t, ok) => s.(tasks := SetPhase(s.tasks, t, Leaving(ok)), log := s.log + [Ended(t)])
    case Leave(t) =>
      s.(tasks := SetPhase(s.tasks, t, if s.tasks[t].phase.ok then Done else Handling),
         slots := s.slots - {s.tasks[t].key})
    case Handled(t) => s.(tasks := SetPhase(s.tasks, t, Done))
  }

  /** A run is any finite sequence of enabled moves from the initial state. */
  predicate ValidRun(run: seq<Move>)
    decreases |run|, 0
  {
    run == [] || (ValidRun(run[..|run| - 1]) && Enabled(After(run[..|run| - 1]), run[|run| - 1]))
  }

  function After(run: seq<Move>): State
    requires ValidRun(run)
    decreases |run|, 1
  {
    if run == [] then INIT else Next(After(run[..|run| - 1]), run[|run| - 1])
  }

  // ---------------------------------------------------------------- task keys

  /** The task keys of the objects the loop waits for. */
  predicate SerialKey(k: string) {
    (|k| >= 6 && k[..6] == "Cargo@") || (|k| >= 3 && k[..3] == "Vm@")
  }

  lemma {:induction false} SerialKeyIff(kind: ActorKind, key: string)
    ensures SerialKey(TaskKey(kind, key)) <==> Waits(kind)
  {
    var k := TaskKey(kind, key);
    match kind {
      case Cargo => assert k[..6] == "Cargo@";
      case Vm => assert k[..3] == "Vm@";
      case Namespace => assert k[0] == 'N';
      case Job => assert k[0] == 'J';
      case Resource => assert k[0] == 'R';
      case Secret => assert k[0] == 'S';
      case Process => assert k[0] == 'P';
      case ContainerImage => assert k[1] == 'o';
    }
    if |k| >= 6 && k[..6] == "Cargo@" { assert k[..6][0] == 'C' && k[..6][1] == 'a'; assert k[1] == 'a'; }
    if |k| >= 3 && k[..3] == "Vm@" { assert k[..3][0] == 'V'; assert k[0] == 'V'; }
  }

  /** The first '@' of a task key is the one after the kind. */
  lemma {:induction false} FirstSeparator(kind: ActorKind, key: string)
    ensures var s, n := TaskKey(kind, key), |KindName(kind)|;
            && s[n] == '@' && s[..n] == KindName(kind) && s[n + 1..] == key
            && forall i | 0 <= i < n :: s[i] != '@'
  {
    KindNameHasNoSeparator(kind);
    var s := TaskKey(kind, key);
    assert forall i | 0 <= i < |KindName(kind)| :: s[i] == KindName(kind)[i];
  }

  /** Distinct objects have distinct task keys, whatever characters their names hold. */
  lemma {:induction false} TaskKeyInjective(k1: ActorKind, n1: string, k2: ActorKind, n2: string)
    requires TaskKey(k1, n1) == TaskKey(k2, n2)
    ensures k1 == k2 && n1 == n2
  {
    FirstSeparator(k1, n1);
    FirstSeparator(k2, n2);
    assert |KindName(k1)| == |KindName(k2)|;
    KindNameInjective(k1, k2);
  }

  // ---------------------------------------------------------------- the invariant

  /** No task of `key` is still in, or on its way into, the map. */
  predicate Quiet(s: State, key: string) {
    forall t | 0 <= t < |s.tasks| && s.tasks[t].key == key :: !Present(s.tasks[t].phase)
  }

  predicate SlotsOk(s: State) {
    forall k | k in s.slots :: s.slots[k] < |s.tasks| && s.tasks[s.slots[k]].key == k
  }

  predicate PlanOk(p: Plan) {
    p.Run? && (SerialKey(p.key) <==> p.policy == Wait)
  }

  predicate PcOk(s: State) {
    match s.pc
    case Idle => true
    case Fetching(p) => PlanOk(p) && p.policy == Wait
    case Polling(p, t) =>
      && PlanOk(p) && p.policy == Wait
      && t < |s.tasks| && s.tasks[t].key == p.key
      && (p.key in s.slots ==> s.slots[p.key] == t)
    case Clearing(p) =>
      && PlanOk(p) && p.policy == Wait && Quiet(s, p.key)
      && (p.key in s.slots ==> s.slots[p.key] < |s.tasks| && Finished(s.tasks[s.slots[p.key]].phase))
    case Aborting(p) => PlanOk(p) && p.policy == Abort
    case Dispatching(p) =>
      PlanOk(p) && (p.policy == Wait ==> Quiet(s, p.key) && p.key !in s.slots)
    case Inserting(p, t) =>
      && PlanOk(p) && |s.tasks| > 0 && t == |s.tasks| - 1 && s.tasks[t].key == p.key
      && (p.policy == Wait ==> p.key !in s.slots)
  }

  /** A present task of a waited-for object is the registered one, or is about to be registered. */
  predicate Covered(s: State) {
    forall t | 0 <= t < |s.tasks| && SerialKey(s.tasks[t].key) && Present(s.tasks[t].phase) ::
      (s.tasks[t].key in s.slots && s.slots[s.tasks[t].key] == t) || (s.pc.Inserting? && s.pc.target == t)
  }

  /** Tasks of one waited-for object leave the map before a later one of them exists. */
  predicate Ordered(s: State) {
    && (forall t, u | 0 <= t < u < |s.tasks| :: s.tasks[t].event < s.tasks[u].event)
    && (forall t | 0 <= t < |s.tasks| :: 1 <= s.tasks[t].event <= |s.received|)
    && (!s.pc.Idle? && !s.pc.Inserting? ==>
          |s.received| >= 1 && forall t | 0 <= t < |s.tasks| :: s.tasks[t].event < |s.received|)
    && (forall t, u | 0 <= t < u < |s.tasks| && s.tasks[t].key == s.tasks[u].key && SerialKey(s.tasks[t].key) ::
          !Present(s.tasks[t].phase))
  }

  predicate NeverAborted(s: State) {
    forall t | 0 <= t < |s.tasks| && SerialKey(s.tasks[t].key) :: !s.tasks[t].phase.Aborted?
  }

  predicate LogOk(s: State) {
    && (forall i | 0 <= i < |s.log| :: s.log[i].task < |s.tasks|)
    && (forall i, j | 0 <= i < j < |s.log| :: s.log[i] != s.log[j])
    && (forall t | 0 <= t < |s.tasks| :: s.tasks[t].phase.Ready? ==> Began(t) !in s.log)
    && (forall t | 0 <= t < |s.tasks| :: Unfinished(s.tasks[t].phase) ==> Ended(t) !in s.log)
    && (forall t | 0 <= t < |s.tasks| && SerialKey(s.tasks[t].key) ::
          (Ended(t) in s.log <==> !Unfinished(s.tasks[t].phase)))
  }

  /** When a body begins, the bodies of all earlier events on that object have ended. */
  predicate BodiesInOrder(s: State) {
    forall j, t | 0 <= j < |s.log| && s.log[j].Began? && 0 <= t < s.log[j].task < |s.tasks|
                  && s.tasks[t].key == s.tasks[s.log[j].task].key && SerialKey(s.tasks[t].key) ::
      Ended(t) in s.log[..j]
  }

  predicate Core(s: State) {
    SlotsOk(s) && PcOk(s) && Covered(s) && Ordered(s) && NeverAborted(s)
  }

  predicate Inv(s: State) {
    Core(s) && LogOk(s) && BodiesInOrder(s)
  }

  // ---------------------------------------------------------------- preservation

  lemma {:induction false} PlanForOk(e: Event)
    ensures PlanFor(e).Run? ==> PlanOk(PlanFor(e))
  {
    if PlanFor(e).Run? {
      SerialKeyIff(e.actor.value.kind, ObjectKey(e.actor.value));
    }
  }

  lemma {:induction false} ReceiveKeepsInv(s: State, e: Event)
    requires Inv(s) && Enabled(s, Receive(e))
    ensures Inv(Next(s, Receive(e)))
  {
    PlanForOk(e);
  }

  lemma {:induction false} FetchKeepsInv(s: State)
    requires Inv(s) && s.pc.Fetching?
    ensures Inv(LoopNext(s))
  {}

  lemma {:induction false} PollKeepsInv(s: State)
    requires Inv(s) && s.pc.Polling? && LoopEnabled(s)
    ensures Inv(LoopNext(s))
  {}

  /** Clearing after a wait only ever meets a finished task, so it aborts nothing. */
  lemma {:induction false} ClearKeepsInv(s: State)
    requires Inv(s) && s.pc.Clearing?
    ensures Inv(LoopNext(s))
    ensures LoopNext(s).tasks == s.tasks
  {
    var p := s.pc.plan;
    assert LoopNext(s) == s.(slots := s.slots - {p.key}, pc := Dispatching(p));
  }

  lemma {:induction false} AbortKeepsInv(s: State)
    requires Inv(s) && s.pc.Aborting?
    ensures Inv(LoopNext(s))
  {
    var s' := LoopNext(s);
    assert OnlyAborts(s, s');
    AbortKeepsCore(s, s');
    AbortKeepsLog(s, s');
  }

  /** Only tasks of objects that are not waited for changed, and those were aborted. */
  predicate OnlyAborts(s: State, s': State) {
    && |s'.tasks| == |s.tasks|
    && forall u | 0 <= u < |s.tasks| ::
         && s'.tasks[u].key == s.tasks[u].key && s'.tasks[u].event == s.tasks[u].event
         && (s'.tasks[u].phase == s.tasks[u].phase || (!SerialKey(s.tasks[u].key) && s'.tasks[u].phase.Aborted?))
  }

  lemma {:induction false} AbortKeepsCore(s: State, s': State)
    requires Core(s) && s.pc.Aborting? && s'.pc == Dispatching(s.pc.plan) && OnlyAborts(s, s')
    requires s'.received == s.received && s'.slots == s.slots - {s.pc.plan.key}
    ensures Core(s')
  {
    assert SlotsOk(s') && NeverAborted(s');
    assert Ordered(s');
    assert Covered(s');
  }

  /** Aborting tasks of objects that are not waited for disturbs nothing the invariant speaks of. */
  lemma {:induction false} AbortKeepsLog(s: State, s': State)
    requires LogOk(s) && BodiesInOrder(s) && OnlyAborts(s, s') && s'.log == s.log
    ensures LogOk(s') && BodiesInOrder(s')
  {}

  lemma {:induction false} DispatchKeepsInv(s: State)
    requires Inv(s) && s.pc.Dispatching?
    ensures Inv(LoopNext(s))
  {
    if s.pc.plan.spawns {
      var task := Task(s.pc.plan.key, |s.received|, Ready);
      SpawnKeepsInv(s, LoopNext(s), task);
    }
  }

  lemma {:induction false} SpawnKeepsInv(s: State, s': State, task: Task)
    requires Inv(s) && s.pc.Dispatching? && s'.pc == Inserting(s.pc.plan, |s.tasks|)
    requires s'.received == s.received && s'.log == s.log && s'.slots == s.slots
    requires task == Task(s.pc.plan.key, |s.received|, Ready)
    requires s'.tasks == s.tasks + [task]
    ensures Inv(s')
  {
    assert forall u | 0 <= u < |s.tasks| :: s'.tasks[u] == s.tasks[u];
    assert s'.tasks[|s.tasks|] == task;
    assert SlotsOk(s') && PcOk(s');
    assert Covered(s');
    assert Ordered(s');
    assert NeverAborted(s');
    SpawnKeepsLog(s, s', task);
  }

  lemma {:induction false} SpawnKeepsLog(s: State, s': State, task: Task)
    requires LogOk(s) && BodiesInOrder(s) && s'.log == s.log && s'.tasks == s.tasks + [task] && task.phase.Ready?
    ensures LogOk(s') && BodiesInOrder(s')
  {
    assert forall u | 0 <= u < |s.tasks| :: s'.tasks[u] == s.tasks[u];
    assert s'.tasks[|s.tasks|] == task;
  }

  lemma {:induction false} InsertKeepsInv(s: State)
    requires Inv(s) && s.pc.Inserting?
    ensures Inv(LoopNext(s))
  {
    InsertKeepsCore(s);
    assert LoopNext(s).tasks == s.tasks && LoopNext(s).log == s.log;
  }

  lemma {:induction false} InsertKeepsCore(s: State)
    requires Core(s) && s.pc.Inserting?
    ensures Core(LoopNext(s))
  {}

  lemma {:induction false} CoreUnderTaskStep(s: State, s': State, t: nat)
    requires Core(s) && t < |s.tasks| && |s'.tasks| == |s.tasks|
    requires s'.pc == s.pc && s'.received == s.received
    requires forall u | 0 <= u < |s.tasks| ::
               s'.tasks[u].key == s.tasks[u].key && s'.tasks[u].event == s.tasks[u].event
    requires forall u | 0 <= u < |s.tasks| && u != t :: s'.tasks[u].phase == s.tasks[u].phase
    requires !Finished(s.tasks[t].phase) && !s'.tasks[t].phase.Aborted?
    requires Present(s'.tasks[t].phase) ==> Present(s.tasks[t].phase)
    requires s'.slots == s.slots
             || (!Present(s'.tasks[t].phase) && Present(s.tasks[t].phase) && s'.slots == s.slots - {s.tasks[t].key})
    ensures Core(s')
  {
    assert SlotsOk(s');
    assert NeverAborted(s');
    assert Ordered(s');
    assert forall k :: Quiet(s, k) ==> Quiet(s', k);
    assert PcOk(s');
    assert Covered(s');
  }

  lemma {:induction false} BeginKeepsInv(s: State, t: nat)
    requires Inv(s) && Enabled(s, Begin(t))
    ensures Inv(Next(s, Begin(t)))
  {
    var s' := Next(s, Begin(t));
    CoreUnderTaskStep(s, s', t);
    BeginKeepsLog(s, t);
    BeginKeepsOrder(s, t);
  }

  lemma {:induction false} BeginKeepsLog(s: State, t: nat)
    requires LogOk(s) && Enabled(s, Begin(t))
    ensures LogOk(Next(s, Begin(t)))
  {
    assert forall m :: m in Next(s, Begin(t)).log <==> m in s.log || m == Began(t);
  }

  lemma {:induction false} BeginKeepsOrder(s: State, t: nat)
    requires Inv(s) && Enabled(s, Begin(t))
    ensures BodiesInOrder(Next(s, Begin(t)))
  {
    var s' := Next(s, Begin(t));
    forall j, u | 0 <= j < |s'.log| && s'.log[j].Began? && 0 <= u < s'.log[j].task < |s'.tasks|
                  && s'.tasks[u].key == s'.tasks[s'.log[j].task].key && SerialKey(s'.tasks[u].key)
      ensures Ended(u) in s'.log[..j]
    {
      if j < |s.log| {
        assert s'.log[j] == s.log[j] && s'.log[..j] == s.log[..j];
      } else {
        assert s'.log[..j] == s.log;
        assert !Present(s.tasks[u].phase);
      }
    }
  }

  lemma {:induction false} EndKeepsLog(s: State, t: nat, ok: bool)
    requires LogOk(s) && Enabled(s, End(t, ok))
    ensures LogOk(Next(s, End(t, ok)))
  {
    assert forall m :: m in Next(s, End(t, ok)).log <==> m in s.log || m == Ended(t);
  }

  lemma {:induction false} EndKeepsOrder(s: State, t: nat, ok: bool)
    requires BodiesInOrder(s) && LogOk(s) && Enabled(s, End(t, ok))
    ensures BodiesInOrder(Next(s, End(t, ok)))
  {
    var s' := Next(s, End(t, ok));
    assert forall j | 0 <= j < |s.log| :: s'.log[j] == s.log[j] && s'.log[..j] == s.log[..j];
  }

  lemma {:induction false} EndKeepsInv(s: State, t: nat, ok: bool)
    requires Inv(s) && Enabled(s, End(t, ok))
    ensures Inv(Next(s, End(t, ok)))
  {
    CoreUnderTaskStep(s, Next(s, End(t, ok)), t);
    EndKeepsLog(s, t, ok);
    EndKeepsOrder(s, t, ok);
  }

  lemma {:induction false} LeaveKeepsInv(s: State, t: nat)
    requires Inv(s) && Enabled(s, Leave(t))
    ensures Inv(Next(s, Leave(t)))
  {
    CoreUnderTaskStep(s, Next(s, Leave(t)), t);
  }

  lemma {:induction false} HandledKeepsInv(s: State, t: nat)
    requires Inv(s) && Enabled(s, Handled(t))
    ensures Inv(Next(s, Handled(t)))
  {
    CoreUnderTaskStep(s, Next(s, Handled(t)), t);
  }

  lemma {:induction false} StepKeepsInv(s: State, m: Move)
    requires Inv(s) && Enabled(s, m)
    ensures Inv(Next(s, m))
  {
    match m {
      case Receive(e) => ReceiveKeepsInv(s, e);
      case Begin(t) => BeginKeepsInv(s, t);
      case End(t, ok) => EndKeepsInv(s, t, ok);
      case Leave(t) => LeaveKeepsInv(s, t);
      case Handled(t) => HandledKeepsInv(s, t);
      case LoopStep =>
        match s.pc {
          case Fetching(_) => FetchKeepsInv(s);
          case Polling(_, _) => PollKeepsInv(s);
          case Clearing(_) => ClearKeepsInv(s);
          case Aborting(_) => AbortKeepsInv(s);
          case Dispatching(_) => DispatchKeepsInv(s);
          case Inserting(_, _) => InsertKeepsInv(s);
        }
    }
  }

  lemma {:induction false} RunKeepsInv(run: seq<Move>)
    requires ValidRun(run)
    ensures Inv(After(run))
  {
    if run != [] {
      RunKeepsInv(run[..|run| - 1]);
      StepKeepsInv(After(run[..|run| - 1]), run[|run| - 1]);
    }
  }

  // ---------------------------------------------------------------- tasks and the events they answer

  /** Event number `i` (counting from 1) calls for a task. */
  predicate Wanted(s: State, i: nat) {
    1 <= i <= |s.received| && PlanFor(s.received[i - 1]).Run? && PlanFor(s.received[i - 1]).spawns
  }

  predicate Answered(s: State, i: nat) {
    exists t :: 0 <= t < |s.tasks| && s.tasks[t].event == i
  }

  /** Tasks answer exactly the events that call for one, each under the key of its event's object;
      only the last event may still be on its way to its task. */
  ghost predicate Provenance(s: State) {
    && (!s.pc.Idle? ==> |s.received| >= 1 && s.pc.plan == PlanFor(s.received[|s.received| - 1]))
    && (forall t | 0 <= t < |s.tasks| ::
          Wanted(s, s.tasks[t].event) && s.tasks[t].key == PlanFor(s.received[s.tasks[t].event - 1]).key)
    && (forall i: nat | Wanted(s, i) && (s.pc.Idle? || s.pc.Inserting? || i < |s.received|) :: Answered(s, i))
  }

  predicate Settled(s: State) { s.pc.Idle? || s.pc.Inserting? }

  lemma {:induction false} StillAnswered(s: State, s': State, i: nat)
    requires |s.tasks| <= |s'.tasks| && forall t | 0 <= t < |s.tasks| :: s'.tasks[t].event == s.tasks[t].event
    requires Answered(s, i)
    ensures Answered(s', i)
  {
    var t :| 0 <= t < |s.tasks| && s.tasks[t].event == i;
    assert s'.tasks[t].event == i;
  }

  /** The tasks are the same but for their phases. */
  predicate SameTasks(s: State, s': State) {
    && |s'.tasks| == |s.tasks|
    && forall t | 0 <= t < |s.tasks| :: s'.tasks[t].event == s.tasks[t].event && s'.tasks[t].key == s.tasks[t].key
  }

  lemma {:induction false} FrameKeepsOrigin(s: State, s': State, t: nat)
    requires s'.received == s.received && SameTasks(s, s') && t < |s.tasks|
    requires Wanted(s, s.tasks[t].event) && s.tasks[t].key == PlanFor(s.received[s.tasks[t].event - 1]).key
    ensures Wanted(s', s'.tasks[t].event) && s'.tasks[t].key == PlanFor(s'.received[s'.tasks[t].event - 1]).key
  {}

  lemma {:induction false} FrameKeepsAnswer(s: State, s': State, i: nat)
    requires s'.received == s.received && SameTasks(s, s') && Wanted(s', i)
    requires Settled(s') ==> Settled(s) || !Wanted(s, |s.received|)
    requires Settled(s') || i < |s'.received|
    requires Wanted(s, i) && (Settled(s) || i < |s.received|) ==> Answered(s, i)
    ensures Answered(s', i)
  {
    assert Wanted(s, i);
    StillAnswered(s, s', i);
  }

  lemma {:induction false} FrameKeepsProvenance(s: State, s': State)
    requires Provenance(s) && s'.received == s.received && SameTasks(s, s')
    requires s'.pc.Idle? || (!s.pc.Idle? && s'.pc.plan == s.pc.plan)
    requires Settled(s') ==> Settled(s) || !Wanted(s, |s.received|)
    ensures Provenance(s')
  {
    forall i: nat | Wanted(s', i) && (Settled(s') || i < |s'.received|) ensures Answered(s', i) {
      FrameKeepsAnswer(s, s', i);
    }
    forall t | 0 <= t < |s'.tasks|
      ensures Wanted(s', s'.tasks[t].event) && s'.tasks[t].key == PlanFor(s'.received[s'.tasks[t].event - 1]).key
    {
      FrameKeepsOrigin(s, s', t);
    }
  }

  lemma {:induction false} ReceiveKeepsProvenance(s: State, e: Event)
    requires Provenance(s) && s.pc.Idle?
    ensures Provenance(Next(s, Receive(e)))
  {
    var s' := Next(s, Receive(e));
    assert s'.tasks == s.tasks && s'.received == s.received + [e];
    forall t | 0 <= t < |s.tasks|
      ensures Wanted(s', s.tasks[t].event) && s.tasks[t].key == PlanFor(s'.received[s.tasks[t].event - 1]).key
    {
      WantedEarlier(s, s', s.tasks[t].event);
    }
    forall i: nat | Wanted(s', i) && (Settled(s') || i < |s'.received|) ensures Answered(s', i) {
      WantedEarlier(s, s', i);
      StillAnswered(s, s', i);
    }
  }

  /** One more event received changes nothing about the earlier ones. */
  lemma {:induction false} WantedEarlier(s: State, s': State, i: nat)
    requires |s'.received| == |s.received| + 1 && s'.received[..|s.received|] == s.received
    ensures i <= |s.received| ==> (Wanted(s', i) <==> Wanted(s, i))
    ensures 1 <= i <= |s.received| ==> s'.received[i - 1] == s.received[i - 1]
  {
    if 1 <= i <= |s.received| { assert s'.received[i - 1] == s'.received[..|s.received|][i - 1]; }
  }

  lemma {:induction false} SpawnKeepsProvenance(s: State, s': State, task: Task)
    requires Provenance(s) && s.pc.Dispatching? && s.pc.plan.Run? && s.pc.plan.spawns
    requires s'.received == s.received && s'.pc == Inserting(s.pc.plan, |s.tasks|)
    requires task == Task(s.pc.plan.key, |s.received|, Ready) && s'.tasks == s.tasks + [task]
    ensures Provenance(s')
  {
    var n := |s.tasks|;
    forall i: nat | Wanted(s', i) ensures Answered(s', i) {
      if i == |s.received| {
        assert s'.tasks[n].event == i;
      } else {
        assert Wanted(s, i);
        StillAnswered(s, s', i);
      }
    }
    forall t | 0 <= t < n + 1
      ensures Wanted(s', s'.tasks[t].event) && s'.tasks[t].key == PlanFor(s'.received[s'.tasks[t].event - 1]).key
    {
      if t < n { assert s'.tasks[t] == s.tasks[t] && Wanted(s, s.tasks[t].event); }
    }
  }

  lemma {:induction false} StepKeepsProvenance(s: State, m: Move)
    requires Provenance(s) && Enabled(s, m)
    ensures Provenance(Next(s, m))
  {
    if m.Receive? {
      ReceiveKeepsProvenance(s, m.e);
    } else if m.LoopStep? && s.pc.Dispatching? && s.pc.plan.spawns {
      SpawnKeepsProvenance(s, Next(s, m), Task(s.pc.plan.key, |s.received|, Ready));
    } else {
      FrameKeepsProvenance(s, Next(s, m));
    }
  }

  lemma {:induction false} RunKeepsProvenance(run: seq<Move>)
    requires ValidRun(run)
    ensures Provenance(After(run))
  {
    if run != [] {
      RunKeepsProvenance(run[..|run| - 1]);
      StepKeepsProvenance(After(run[..|run| - 1]), run[|run| - 1]);
    }
  }

  // ---------------------------------------------------------------- the theorems

  predicate AtMostOneBody(s: State, key: string) {
    forall t, u | 0 <= t < |s.tasks| && 0 <= u < |s.tasks| && s.tasks[t].key == key && s.tasks[u].key == key
                  && Unfinished(s.tasks[t].phase) && Unfinished(s.tasks[u].phase) :: t == u
  }

  /** In every interleaving, for every cargo or vm: at most one task body is unfinished; a body only
      begins once the body of every earlier event on the object has ended; and no body is cut short. */
  lemma {:induction false} BodiesAreSerialised(run: seq<Move>, kind: ActorKind, key: string)
    requires ValidRun(run) && Waits(kind)
    ensures AtMostOneBody(After(run), TaskKey(kind, key))
    ensures var s := After(run);
            forall t, u | 0 <= t < |s.tasks| && 0 <= u < |s.tasks| && s.tasks[t].event < s.tasks[u].event
                          && s.tasks[t].key == TaskKey(kind, key) == s.tasks[u].key ::
              && Ended(t) in s.log
              && (forall j | 0 <= j < |s.log| && s.log[j] == Began(u) :: Ended(t) in s.log[..j])
    ensures var s := After(run);
            forall t | 0 <= t < |s.tasks| && s.tasks[t].key == TaskKey(kind, key) :: !s.tasks[t].phase.Aborted?
  {
    RunKeepsInv(run);
    SerialKeyIff(kind, key);
    var s := After(run);
    forall t, u | 0 <= t < |s.tasks| && 0 <= u < |s.tasks| && s.tasks[t].event < s.tasks[u].event
                  && s.tasks[t].key == TaskKey(kind, key) == s.tasks[u].key
      ensures Ended(t) in s.log
      ensures forall j | 0 <= j < |s.log| && s.log[j] == Began(u) :: Ended(t) in s.log[..j]
    {
      assert t < u;
      assert !Present(s.tasks[t].phase);
    }
  }

  /** A task that ends unregisters itself or nothing: never a later task of the same cargo or vm. */
  lemma {:induction false} LeavingRemovesNoLaterTask(run: seq<Move>, t: nat)
    requires ValidRun(run) && Enabled(After(run), Leave(t)) && SerialKey(After(run).tasks[t].key)
    ensures var s, s' := After(run), Next(After(run), Leave(t));
            forall k | k in s.slots && k !in s'.slots :: s.slots[k] == t
  {
    RunKeepsInv(run);
  }

  /** Is the move a step of the task that is polled? */
  predicate MovesTask(m: Move, t: nat) {
    match m
    case Begin(u) => u == t
    case End(u, _) => u == t
    case Leave(u) => u == t
    case Handled(u) => u == t
    case _ => false
  }

  /** A step of the loop itself, or of the task it polls. */
  predicate Helps(s: State, m: Move) {
    m.LoopStep? || (s.pc.Polling? && MovesTask(m, s.pc.target))
  }

  /** The loop never waits for something that cannot happen: until it is idle again either the loop or the
      task it polls can move, and a polled task that has not finished always can. */
  lemma {:induction false} NoDeadlock(run: seq<Move>)
    requires ValidRun(run)
    ensures var s := After(run);
            && (!s.pc.Idle? ==> exists m :: Enabled(s, m) && Helps(s, m))
            && (s.pc.Polling? ==> s.pc.target < |s.tasks|)
            && (s.pc.Polling? && !Finished(s.tasks[s.pc.target].phase) ==>
                  exists m :: Enabled(s, m) && MovesTask(m, s.pc.target))
  {
    RunKeepsInv(run);
    var s := After(run);
    if s.pc.Polling? && !LoopEnabled(s) {
      var t := s.pc.target;
      var m := match s.tasks[t].phase
               case Ready => Begin(t)
               case Body => End(t, true)
               case Leaving(_) => Leave(t)
               case _ => Handled(t);
      assert Enabled(s, m) && MovesTask(m, t) && Helps(s, m);
    } else if !s.pc.Idle? {
      assert Enabled(s, LoopStep) && Helps(s, LoopStep);
    }
  }

  function PhaseRank(p: Phase): nat {
    match p
    case Ready => 4
    case Body => 3
    case Leaving(_) => 2
    case Handling => 1
    case _ => 0
  }

  /** How many steps of the loop and of the task it polls are left at most until it is idle. */
  function Rank(s: State): nat {
    match s.pc
    case Idle => 0
    case Inserting(_, _) => 1
    case Dispatching(_) => 2
    case Clearing(_) => 3
    case Aborting(_) => 3
    case Polling(_, t) => 4 + if t < |s.tasks| then PhaseRank(s.tasks[t].phase) else 0
    case Fetching(_) => 9
  }

  /** While the loop is busy, every step of it or of the task it polls brings it closer to idle, and no
      other step sets it back. */
  lemma {:induction false} RankFalls(s: State, m: Move)
    requires Inv(s) && Enabled(s, m) && !s.pc.Idle?
    ensures Rank(Next(s, m)) <= Rank(s)
    ensures Helps(s, m) ==> Rank(Next(s, m)) < Rank(s)
    ensures Next(s, m).received == s.received
  {
    if m.LoopStep? { LoopRankFalls(s); }
  }

  lemma {:induction false} LoopRankFalls(s: State)
    requires PcOk(s) && LoopEnabled(s)
    ensures Rank(LoopNext(s)) < Rank(s) && LoopNext(s).received == s.received
  {}

  lemma {:induction false} HelpfulStep(run: seq<Move>) returns (m: Move)
    requires ValidRun(run) && !After(run).pc.Idle?
    ensures ValidRun(run + [m]) && Rank(After(run + [m])) < Rank(After(run))
    ensures After(run + [m]).received == After(run).received
  {
    RunKeepsInv(run);
    NoDeadlock(run);
    m :| Enabled(After(run), m) && Helps(After(run), m);
    RankFalls(After(run), m);
    Extend(run, m);
  }

  /** From every point of every run the loop is at most nine helpful steps away from taking the next event. */
  lemma {:induction false} ReturnsToIdle(run: seq<Move>) returns (longer: seq<Move>)
    requires ValidRun(run)
    ensures ValidRun(longer) && run <= longer && After(longer).pc.Idle?
    ensures |longer| - |run| <= Rank(After(run)) <= 9 && After(longer).received == After(run).received
    decreases Rank(After(run))
  {
    RankIsSmall(run);
    if After(run).pc.Idle? {
      longer := run;
    } else {
      var m := HelpfulStep(run);
      longer := ReturnsToIdle(run + [m]);
    }
  }

  lemma {:induction false} RankIsSmall(run: seq<Move>)
    requires ValidRun(run)
    ensures Rank(After(run)) <= 9
  {}

  // ---------------------------------------------------------------- jobs are the exception

  lemma {:induction false} Extend(run: seq<Move>, m: Move)
    requires ValidRun(run) && Enabled(After(run), m)
    ensures ValidRun(run + [m]) && After(run + [m]) == Next(After(run), m)
  {
    assert (run + [m])[..|run|] == run;
  }

  function JobStart(key: string): Event {
    Event(Normal, "starting", Some(Actor(Some(key), Job)), None)
  }

  function JobDestroy(key: string): Event {
    Event(Normal, "destroying", Some(Actor(Some(key), Job)), None)
  }

  /** The state after an event that proceeds without waiting: one more task, registered whatever was
      registered before. */
  function WithTask(s: State, e: Event, k: string): State {
    s.(received := s.received + [e],
       tasks := s.tasks + [Task(k, |s.received| + 1, Ready)],
       slots := s.slots[k := |s.tasks|])
  }

  lemma {:induction false} ProceedSteps(s: State, e: Event, k: string)
    requires s.pc.Idle? && PlanFor(e) == Run(k, Proceed, true)
    ensures Enabled(s, Receive(e)) && LoopEnabled(Next(s, Receive(e))) && LoopEnabled(LoopNext(Next(s, Receive(e))))
    ensures LoopNext(LoopNext(Next(s, Receive(e)))) == WithTask(s, e, k)
  {}

  lemma {:induction false} TwoLoopSteps(run: seq<Move>) returns (run': seq<Move>)
    requires ValidRun(run) && LoopEnabled(After(run)) && LoopEnabled(LoopNext(After(run)))
    ensures ValidRun(run') && After(run') == LoopNext(LoopNext(After(run)))
  {
    Extend(run, LoopStep);
    Extend(run + [LoopStep], LoopStep);
    run' := run + [LoopStep] + [LoopStep];
  }

  lemma {:induction false} Proceeds(run: seq<Move>, e: Event, k: string) returns (run': seq<Move>)
    requires ValidRun(run) && After(run).pc.Idle? && PlanFor(e) == Run(k, Proceed, true)
    ensures ValidRun(run') && After(run') == WithTask(After(run), e, k)
  {
    ProceedSteps(After(run), e, k);
    Extend(run, Receive(e));
    run' := TwoLoopSteps(run + [Receive(e)]);
  }

  /** The state after an event that aborts: the task registered for its key, if there is one, is aborted and
      unregistered, and one more task is registered. */
  function WithAbort(s: State, e: Event, k: string): State {
    WithTask(RemoveTask(s, k), e, k)
  }

  lemma {:induction false} AbortSteps(s: State, e: Event, k: string)
    requires s.pc.Idle? && PlanFor(e) == Run(k, Abort, true)
    ensures Enabled(s, Receive(e))
    ensures var s1 := Next(s, Receive(e));
            && LoopEnabled(s1) && LoopEnabled(LoopNext(s1)) && LoopEnabled(LoopNext(LoopNext(s1)))
            && LoopNext(LoopNext(LoopNext(s1))) == WithAbort(s, e, k)
  {
    var s1 := Next(s, Receive(e));
    assert LoopNext(s1) == RemoveTask(s1, k).(pc := Dispatching(PlanFor(e)));
    assert RemoveTask(s1, k).tasks == RemoveTask(s, k).tasks && RemoveTask(s1, k).slots == RemoveTask(s, k).slots;
  }

  lemma {:induction false} Aborts(run: seq<Move>, e: Event, k: string) returns (run': seq<Move>)
    requires ValidRun(run) && After(run).pc.Idle? && PlanFor(e) == Run(k, Abort, true)
    ensures ValidRun(run') && After(run') == WithAbort(After(run), e, k)
  {
    AbortSteps(After(run), e, k);
    Extend(run, Receive(e));
    run' := TwoLoopSteps(run + [Receive(e)]);
    Extend(run', LoopStep);
    run' := run' + [LoopStep];
  }

  lemma {:induction false} JobPlans(key: string)
    ensures PlanFor(JobStart(key)) == Run(TaskKey(Job, key), Proceed, true)
    ensures PlanFor(JobDestroy(key)) == Run(TaskKey(Job, key), Abort, true)
  {}

  lemma {:induction false} TwoJobStarts(key: string) returns (run: seq<Move>)
    ensures ValidRun(run) && After(run).pc.Idle?
    ensures var k := TaskKey(Job, key);
            && After(run).tasks == [Task(k, 1, Ready), Task(k, 2, Ready)]
            && After(run).slots == map[k := 1] && |After(run).received| == 2
  {
    JobPlans(key);
    run := TwoTasks(JobStart(key), TaskKey(Job, key));
  }

  lemma {:induction false} WithTwoTasks(e: Event, k: string)
    ensures var s := WithTask(WithTask(INIT, e, k), e, k);
            && s.pc.Idle? && s.tasks == [Task(k, 1, Ready), Task(k, 2, Ready)]
            && s.slots == map[k := 1] && |s.received| == 2
  {}

  lemma {:induction false} TwoTasks(e: Event, k: string) returns (run: seq<Move>)
    requires PlanFor(e) == Run(k, Proceed, true)
    ensures ValidRun(run) && After(run).pc.Idle?
    ensures After(run).tasks == [Task(k, 1, Ready), Task(k, 2, Ready)]
    ensures After(run).slots == map[k := 1] && |After(run).received| == 2
  {
    run := Proceeds([], e, k);
    run := Proceeds(run, e, k);
    WithTwoTasks(e, k);
  }

  /** Two starts of one job run side by side, and the first to end unregisters the second. */
  lemma {:induction false} JobsOverlap(key: string) returns (run: seq<Move>)
    ensures ValidRun(run) && !AtMostOneBody(After(run), TaskKey(Job, key))
    ensures After(run).slots == map[TaskKey(Job, key) := 1]
    ensures |After(run).tasks| == 2 && After(run).tasks[0].phase == After(run).tasks[1].phase == Body
    ensures var s := Next(Next(After(run), End(0, true)), Leave(0));
            s.tasks[1].phase == Body && s.slots == map[]
  {
    var k := TaskKey(Job, key);
    run := TwoJobStarts(key);
    Extend(run, Begin(0));
    run := run + [Begin(0)];
    Extend(run, Begin(1));
    run := run + [Begin(1)];
    var s := After(run);
    assert s.tasks == [Task(k, 1, Body), Task(k, 2, Body)];
    assert Unfinished(s.tasks[0].phase) && Unfinished(s.tasks[1].phase);
    assert s.slots - {k} == map[];
  }

  /** Task 0 runs unregistered while task 2 is the registered deletion of the job. */
  lemma {:induction false} StrayTask(key: string) returns (run: seq<Move>)
    ensures ValidRun(run) && After(run).pc.Idle? && After(run).slots == map[TaskKey(Job, key) := 2]
    ensures var k := TaskKey(Job, key);
            After(run).tasks == [Task(k, 1, Body), Task(k, 2, Aborted), Task(k, 3, Ready)]
    ensures |After(run).received| == 3 && After(run).received[2] == JobDestroy(key)
  {
    var k := TaskKey(Job, key);
    run := TwoJobStarts(key);
    BeginsFirst(After(run), k);
    Extend(run, Begin(0));
    run := run + [Begin(0)];
    JobPlans(key);
    AbortsSecond(After(run), k);
    run := Aborts(run, JobDestroy(key), k);
  }

  lemma {:induction false} BeginsFirst(s: State, k: string)
    requires s.tasks == [Task(k, 1, Ready), Task(k, 2, Ready)]
    ensures Enabled(s, Begin(0))
    ensures var s' := Next(s, Begin(0));
            && s'.tasks == [Task(k, 1, Body), Task(k, 2, Ready)]
            && s'.slots == s.slots && s'.received == s.received && s'.pc == s.pc
  {}

  lemma {:induction false} AbortsSecond(s: State, k: string)
    requires s.tasks == [Task(k, 1, Body), Task(k, 2, Ready)] && s.slots == map[k := 1]
    ensures RemoveTask(s, k).tasks == [Task(k, 1, Body), Task(k, 2, Aborted)] && RemoveTask(s, k).slots == map[]
  {}

  /** When the stray task ends it unregisters the deletion, so a second destruction aborts nothing. */
  lemma {:induction false} StrayTaskLeaves(key: string) returns (run: seq<Move>)
    ensures ValidRun(run) && After(run).pc.Idle? && After(run).slots == map[]
    ensures var k := TaskKey(Job, key);
            After(run).tasks == [Task(k, 1, Done), Task(k, 2, Aborted), Task(k, 3, Ready)]
    ensures |After(run).received| == 3 && After(run).received[2] == JobDestroy(key)
  {
    var k := TaskKey(Job, key);
    run := StrayTask(key);
    Extend(run, End(0, true));
    run := run + [End(0, true)];
    Extend(run, Leave(0));
    run := run + [Leave(0)];
    assert After(run).tasks == [Task(k, 1, Done), Task(k, 2, Aborted), Task(k, 3, Ready)];
    assert After(run).slots == map[k := 2] - {k};
  }

  /** Two deletions of one job run side by side: nothing keeps a job from being cleared twice at once. */
  lemma {:induction false} JobDeletedTwice(key: string) returns (run: seq<Move>)
    ensures ValidRun(run) && |After(run).tasks| == 4 && |After(run).received| == 4
    ensures var s, k := After(run), TaskKey(Job, key);
            && s.tasks[2] == Task(k, 3, Body) && s.tasks[3] == Task(k, 4, Body)
            && s.received[2] == s.received[3] == JobDestroy(key)
  {
    var k := TaskKey(Job, key);
    run := StrayTaskLeaves(key);
    JobPlans(key);
    run := Aborts(run, JobDestroy(key), k);
    Extend(run, Begin(2));
    run := run + [Begin(2)];
    Extend(run, Begin(3));
    run := run + [Begin(3)];
  }

  /** A spawning plan is for a job, a cargo or a vm. */
  lemma {:induction false} SpawnKinds(e: Event)
    requires PlanFor(e).Run? && PlanFor(e).spawns
    ensures e.actor.Some? && e.actor.value.kind in {Job, Cargo, Vm}
    ensures PlanFor(e).key == TaskKey(e.actor.value.kind, ObjectKey(e.actor.value))
  {}

  lemma {:induction false} NoTaskWithoutSpawn(run: seq<Move>, kind: ActorKind, key: string, t: nat)
    requires ValidRun(run) && t < |After(run).tasks| && After(run).tasks[t].key == TaskKey(kind, key)
    ensures kind in {Job, Cargo, Vm}
  {
    RunKeepsProvenance(run);
    var e := EventOf(After(run), t);
    SpawnKinds(e);
    TaskKeyInjective(kind, key, e.actor.value.kind, ObjectKey(e.actor.value));
  }

  lemma {:induction false} EventOf(s: State, t: nat) returns (e: Event)
    requires Provenance(s) && t < |s.tasks|
    ensures PlanFor(e).Run? && PlanFor(e).spawns && s.tasks[t].key == PlanFor(e).key
  {
    assert Wanted(s, s.tasks[t].event);
    e := s.received[s.tasks[t].event - 1];
  }

  /** Exactly the objects that are not jobs have their bodies serialised in every run. */
  lemma {:induction false} SerialisedIffNotJob(kind: ActorKind, key: string)
    ensures (forall run | ValidRun(run) :: AtMostOneBody(After(run), TaskKey(kind, key))) <==> kind != Job
  {
    if kind == Job {
      var run := JobsOverlap(key);
    } else {
      forall run | ValidRun(run) ensures AtMostOneBody(After(run), TaskKey(kind, key)) {
        if Waits(kind) {
          BodiesAreSerialised(run, kind, key);
        } else {
          var s := After(run);
          forall t | 0 <= t < |s.tasks| ensures s.tasks[t].key != TaskKey(kind, key) {
            if s.tasks[t].key == TaskKey(kind, key) {
              NoTaskWithoutSpawn(run, kind, key, t);
            }
          }
        }
      }
    }
  }
}
