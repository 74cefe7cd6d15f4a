/** The event loop's dispatch, stated on the events themselves: which event gets a task, which task is aborted
    by what, and what the failure of a task tells those who wait for it. */
module Dispatch {
  import opened Options
  import opened Events
  import opened EventLoop
  import ES = EventStream

  /** The events of this action text and kind are answered by a task. */
  predicate CallsForTask(e: Event) {
    && e.kind == Normal && e.actor.Some?
    && ((e.action in {"starting", "stopping", "destroying"} && e.actor.value.kind in {Job, Cargo, Vm})
        || (e.action == "updating" && e.actor.value.kind in {Cargo, Vm}))
  }

  /** The task key of the object an event is about; a missing key is the empty one. */
  function KeyOf(a: Actor): string {
    (match a.kind
     case Job => "Job@"
     case Cargo => "Cargo@"
     case Vm => "Vm@"
     case _ => "")
    + if a.key.Some? then a.key.value else ""
  }

  lemma {:induction false} PlanOnFields(e: Event)
    ensures PlanFor(e).Run? && PlanFor(e).spawns <==> CallsForTask(e)
    ensures CallsForTask(e) ==> PlanFor(e).key == KeyOf(e.actor.value)
  {}

  lemma {:induction false} WantedOnFields(s: State, i: nat)
    ensures Wanted(s, i) <==> 1 <= i <= |s.received| && CallsForTask(s.received[i - 1])
    ensures Wanted(s, i) ==> PlanFor(s.received[i - 1]).key == KeyOf(s.received[i - 1].actor.value)
  {
    if 1 <= i <= |s.received| { PlanOnFields(s.received[i - 1]); }
  }

  lemma {:induction false} AnsweredIffWanted(s: State, i: nat)
    requires Provenance(s) && (s.pc.Idle? || i < |s.received|)
    ensures Answered(s, i) <==> Wanted(s, i)
  {
    if t :| 0 <= t < |s.tasks| && s.tasks[t].event == i { assert Wanted(s, s.tasks[t].event); }
  }

  /** The task's event calls for a task, which has the key of the event's object. */
  predicate Answers(s: State, t: nat)
    requires t < |s.tasks|
  {
    var i := s.tasks[t].event;
    && 1 <= i <= |s.received| && CallsForTask(s.received[i - 1])
    && s.tasks[t].key == KeyOf(s.received[i - 1].actor.value)
  }

  lemma {:induction false} AnswersItsEvent(s: State, t: nat)
    requires t < |s.tasks| && Wanted(s, s.tasks[t].event)
    requires s.tasks[t].key == PlanFor(s.received[s.tasks[t].event - 1]).key
    ensures Answers(s, t)
  {
    WantedOnFields(s, s.tasks[t].event);
  }

  lemma {:induction false} AllAnswer(s: State)
    requires Provenance(s)
    ensures forall t | 0 <= t < |s.tasks| :: Answers(s, t)
  {
    forall t | 0 <= t < |s.tasks| ensures Answers(s, t) {
      assert Wanted(s, s.tasks[t].event);
      AnswersItsEvent(s, t);
    }
  }

  /** Over every run: once the loop is idle or has gone on to a later event, an event has a task if and only if
      it is a normal event about an actor that is starting, stopping or destroying a job, cargo or vm, or
      updating a cargo or vm. */
  lemma {:induction false} TaskPerEvent(run: seq<Move>, i: nat)
    requires ValidRun(run) && 1 <= i <= |After(run).received|
    requires After(run).pc.Idle? || i < |After(run).received|
    ensures var s := After(run);
            (exists t :: 0 <= t < |s.tasks| && s.tasks[t].event == i) <==> CallsForTask(s.received[i - 1])
  {
    RunKeepsProvenance(run);
    var s := After(run);
    AnsweredIffWanted(s, i);
    WantedOnFields(s, i);
    assert Answered(s, i) <==> exists t :: 0 <= t < |s.tasks| && s.tasks[t].event == i;
  }

  /** In every run each task answers one such event, under the key of the event's object, and no two tasks
      answer the same. */
  lemma {:induction false} EventPerTask(run: seq<Move>, t: nat)
    requires ValidRun(run) && t < |After(run).tasks|
    ensures var s := After(run);
            Answers(s, t) && forall u | 0 <= u < |s.tasks| && u != t :: s.tasks[u].event != s.tasks[t].event
  {
    KeyInRun(run, t);
    EventsDiffer(run, t);
  }

  lemma {:induction false} KeyInRun(run: seq<Move>, t: nat)
    requires ValidRun(run) && t < |After(run).tasks|
    ensures Answers(After(run), t)
  {
    RunKeepsProvenance(run);
    AllAnswer(After(run));
  }

  lemma {:induction false} EventsDiffer(run: seq<Move>, t: nat)
    requires ValidRun(run) && t < |After(run).tasks|
    ensures var s := After(run);
            forall u | 0 <= u < |s.tasks| && u != t :: s.tasks[u].event != s.tasks[t].event
  {
    RunKeepsInv(run);
    assert Ordered(After(run));
  }

  /** The run has received these events and dealt with all of them. */
  predicate Handles(run: seq<Move>, events: seq<Event>) {
    ValidRun(run) && After(run).pc.Idle? && After(run).received == events
  }

  lemma {:induction false} OneMoreEvent(run: seq<Move>, events: seq<Event>, e: Event) returns (run': seq<Move>)
    requires Handles(run, events)
    ensures Handles(run', events + [e])
  {
    Extend(run, Receive(e));
    run' := ReturnsToIdle(run + [Receive(e)]);
  }

  /** Any sequence of events can be received, and each is dealt with before the next. */
  lemma {:induction false} AnyEventsArrive(events: seq<Event>)
    ensures exists run :: Handles(run, events)
  {
    if events == [] {
      assert Handles([], []);
    } else {
      var n := |events| - 1;
      AnyEventsArrive(events[..n]);
      var run :| Handles(run, events[..n]);
      run := OneMoreEvent(run, events[..n], events[n]);
      assert events[..n] + [events[n]] == events;
    }
  }

  // ---------------------------------------------------------------- what aborts a task

  /** An event that destroys the job of this task key. */
  predicate DestroysJob(e: Event, key: string) {
    && e.kind == Normal && e.action == "destroying" && e.actor.Some? && e.actor.value.kind == Job
    && key == KeyOf(e.actor.value)
  }

  /** A later event than the task's own destroys the task's job. */
  predicate JobDestroyedSince(s: State, t: nat)
    requires t < |s.tasks|
  {
    exists i :: s.tasks[t].event <= i < |s.received| && DestroysJob(s.received[i], s.tasks[t].key)
  }

  predicate AbortsExplained(s: State) {
    forall t | 0 <= t < |s.tasks| && s.tasks[t].phase.Aborted? :: JobDestroyedSince(s, t)
  }

  lemma {:induction false} AbortIsDestroy(e: Event)
    ensures PlanFor(e).Run? && PlanFor(e).policy == Abort <==>
            e.actor.Some? && DestroysJob(e, KeyOf(e.actor.value))
    ensures PlanFor(e).Run? && PlanFor(e).policy == Abort ==> PlanFor(e).key == KeyOf(e.actor.value)
  {}

  lemma {:induction false} StillDestroyed(s: State, s': State, t: nat)
    requires t < |s.tasks| <= |s'.tasks| && s'.tasks[t].event == s.tasks[t].event && s'.tasks[t].key == s.tasks[t].key
    requires s.received <= s'.received && JobDestroyedSince(s, t)
    ensures JobDestroyedSince(s', t)
  {
    var i :| s.tasks[t].event <= i < |s.received| && DestroysJob(s.received[i], s.tasks[t].key);
    assert s'.received[i] == s.received[i];
  }

  /** The abort step: the aborted task is a task of the job that the last event destroys. */
  lemma {:induction false} AbortExplains(s: State, t: nat)
    requires SlotsOk(s) && s.pc.Aborting? && s.pc.plan.Run? && s.pc.plan.policy == Abort && t < |s.tasks|
    requires |s.received| > 0 && s.pc.plan == PlanFor(s.received[|s.received| - 1])
    requires s.tasks[t].event < |s.received|
    requires LoopNext(s).tasks[t].phase.Aborted? && !s.tasks[t].phase.Aborted?
    ensures JobDestroyedSince(s, t)
  {
    var n := |s.received|;
    var key := s.pc.plan.key;
    AbortIsDestroy(s.received[n - 1]);
    AbortsTheRegistered(s, key, t);
    assert s.tasks[t].key == key;
    assert DestroysJob(s.received[n - 1], s.tasks[t].key);
  }

  lemma {:induction false} AbortsTheRegistered(s: State, key: string, t: nat)
    requires t < |s.tasks| && RemoveTask(s, key).tasks[t].phase.Aborted? && !s.tasks[t].phase.Aborted?
    ensures key in s.slots && s.slots[key] == t
  {}

  lemma {:induction false} AbortingState(s: State, t: nat)
    requires Inv(s) && Provenance(s) && s.pc.Aborting? && t < |s.tasks|
    ensures SlotsOk(s) && s.pc.plan.Run? && s.pc.plan.policy == Abort
    ensures |s.received| > 0 && s.pc.plan == PlanFor(s.received[|s.received| - 1])
    ensures s.tasks[t].event < |s.received|
  {}

  lemma {:induction false} NoOtherAborts(s: State, m: Move, t: nat)
    requires Inv(s) && Enabled(s, m) && t < |s.tasks| && !(m.LoopStep? && s.pc.Aborting?)
    requires Next(s, m).tasks[t].phase.Aborted?
    ensures s.tasks[t].phase.Aborted?
  {
    if m.LoopStep? && s.pc.Clearing? { ClearKeepsInv(s); }
  }

  lemma {:induction false} TasksStay(s: State, m: Move)
    requires Enabled(s, m)
    ensures |s.tasks| <= |Next(s, m).tasks| && s.received <= Next(s, m).received
    ensures forall t | 0 <= t < |s.tasks| ::
              Next(s, m).tasks[t].event == s.tasks[t].event && Next(s, m).tasks[t].key == s.tasks[t].key
    ensures forall t | |s.tasks| <= t < |Next(s, m).tasks| :: Next(s, m).tasks[t].phase.Ready?
  {}

  lemma {:induction false} StepKeepsExplained(s: State, m: Move)
    requires Inv(s) && Provenance(s) && AbortsExplained(s) && Enabled(s, m)
    ensures AbortsExplained(Next(s, m))
  {
    var s' := Next(s, m);
    TasksStay(s, m);
    forall t | 0 <= t < |s'.tasks| && s'.tasks[t].phase.Aborted? ensures JobDestroyedSince(s', t) {
      if !s.tasks[t].phase.Aborted? {
        if m.LoopStep? && s.pc.Aborting? { AbortingState(s, t); AbortExplains(s, t); } else { NoOtherAborts(s, m, t); }
      }
      StillDestroyed(s, s', t);
    }
  }

  /** In every run a task is cut short only by a later event that destroys its job: tasks of cargoes and vms
      never are, and starting or stopping a job cuts none short. */
  lemma {:induction false} OnlyDestructionAborts(run: seq<Move>)
    requires ValidRun(run)
    ensures AbortsExplained(After(run))
  {
    if run != [] {
      var before := run[..|run| - 1];
      OnlyDestructionAborts(before);
      RunKeepsInv(before);
      RunKeepsProvenance(before);
      StepKeepsExplained(After(before), run[|run| - 1]);
    }
  }

  /** The loop's answer to an event that destroys a job: its first step leaves the registered task of the job
      finished and unregistered, whatever tasks did in between. */
  lemma {:induction false} DestructionAborts(s: State, e: Event, tasks: seq<Task>, slots: map<string, nat>)
    requires s.pc.Idle? && e.actor.Some? && DestroysJob(e, KeyOf(e.actor.value))
    ensures var s' := Next(s, Receive(e)).(tasks := tasks, slots := slots);
            var key := KeyOf(e.actor.value);
            && LoopEnabled(s') && key !in LoopNext(s').slots
            && (key in slots && slots[key] < |tasks| ==> Finished(LoopNext(s').tasks[slots[key]].phase))
  {
    AbortIsDestroy(e);
  }

  // ---------------------------------------------------------------- failures are handled

  /** What the moves so far tell about a task's phase: before its body ends there has been no end; a body that
      failed is followed by the error handler, and the task is only over when that has run. */
  predicate PhaseTold(run: seq<Move>, t: nat, p: Phase) {
    && (p.Ready? || p.Body? ==> End(t, true) !in run && End(t, false) !in run)
    && (p.Leaving? && p.ok ==> End(t, false) !in run)
    && (p.Done? && End(t, false) in run ==> Handled(t) in run)
  }

  ghost predicate PhasesTold(run: seq<Move>, s: State) {
    && (forall t | 0 <= t < |s.tasks| :: PhaseTold(run, t, s.tasks[t].phase))
    && (forall t: nat, ok | End(t, ok) in run :: t < |s.tasks|)
  }

  lemma {:induction false} StepTells(run: seq<Move>, s: State, m: Move)
    requires Enabled(s, m) && PhasesTold(run, s)
    ensures PhasesTold(run + [m], Next(s, m))
  {
    var s' := Next(s, m);
    TasksStay(s, m);
    forall t | 0 <= t < |s'.tasks| ensures PhaseTold(run + [m], t, s'.tasks[t].phase) {
      if t < |s.tasks| { assert PhaseTold(run, t, s.tasks[t].phase); }
    }
  }

  /** In every run, a task whose body failed and that is over without having been aborted has run its error
      handler. */
  lemma {:induction false} FailuresAreHandled(run: seq<Move>)
    requires ValidRun(run)
    ensures PhasesTold(run, After(run))
    ensures forall t | 0 <= t < |After(run).tasks| && After(run).tasks[t].phase.Done? && End(t, false) in run ::
              Handled(t) in run
  {
    if run != [] {
      var before, m := run[..|run| - 1], run[|run| - 1];
      FailuresAreHandled(before);
      StepTells(before, After(before), m);
      assert before + [m] == run;
    }
    forall t | 0 <= t < |After(run).tasks| && After(run).tasks[t].phase.Done? && End(t, false) in run
      ensures Handled(t) in run
    {
      assert PhaseTold(run, t, After(run).tasks[t].phase);
    }
  }

  /** The steps a task takes from its spawning to its end, as its body succeeds or fails. */
  function Course(t: nat, ok: bool): seq<Move> {
    [Begin(t), End(t, ok), Leave(t)] + if ok then [] else [Handled(t)]
  }

  /** Next states of moves that are enabled one after the other. */
  predicate Follows(s: State, moves: seq<Move>, s': State)
    decreases |moves|
  {
    if moves == [] then s == s' else Enabled(s, moves[0]) && Follows(Next(s, moves[0]), moves[1..], s')
  }

  /** Whatever the loop and the other tasks are doing, a spawned task can run its course, and may succeed or fail. */
  lemma {:induction false} TasksMayFail(s: State, t: nat, ok: bool) returns (s': State)
    requires t < |s.tasks| && s.tasks[t].phase.Ready?
    ensures Follows(s, Course(t, ok), s')
    ensures t < |s'.tasks| && s'.tasks[t] == s.tasks[t].(phase := Done) && s'.pc == s.pc
  {
    var s1 := Next(s, Begin(t));
    var s2 := Next(s1, End(t, ok));
    var s3 := Next(s2, Leave(t));
    s' := if ok then s3 else Next(s3, Handled(t));
    var rest := if ok then [] else [Handled(t)];
    assert Follows(s3, rest, s') by { if !ok { assert rest[1..] == []; } }
    var c := Course(t, ok);
    assert c[1..] == [End(t, ok), Leave(t)] + rest && c[1..][1..] == [Leave(t)] + rest && c[1..][1..][1..] == rest;
    assert Follows(s2, c[1..][1..], s');
    assert Follows(s1, c[1..], s');
  }

  // ---------------------------------------------------------------- what a failed task tells its waiters

  /** What a failed task reports: nothing for an action no task answers. */
  function Outcome(a: Action): Option<Action> {
    match a
    case Starting => Some(Start)
    case Stopping => Some(Stop)
    case Updating => Some(Update)
    case Destroying => Some(Destroy)
    case _ => None
  }

  /** The event the error handler of a task emits; `e` is the event the task answers. */
  function FailureEvent(e: Event, err: string): Option<Event> {
    var a := Outcome(ParseAction(e.action));
    if a.Some? then Some(Event(Error, PrintAction(a.value), e.actor, Some(err))) else None
  }

  /** `f` reports that what `e` asked for failed with `err`: under the same actor, with the error as its note
      and the finished form of the action. */
  predicate Reports(f: Event, e: Event, err: string) {
    && f.kind == Error && f.actor == e.actor && f.note == Some(err)
    && match e.action
       case "starting" => f.action == "start"
       case "stopping" => f.action == "stop"
       case "updating" => f.action == "update"
       case "destroying" => f.action == "destroy"
       case _ => false
  }

  ghost predicate FailsWaiters(f: Event, key: string, kind: ActorKind) {
    && ES.ErrorFor(key, f)
    && forall actions :: Matches(ES.WaitCondition(key, kind, actions), f) <==> ParseAction(f.action) in actions
  }

  ghost predicate FailureIsSeen(e: Event, err: string) {
    var f := FailureEvent(e, err);
    && f.Some? && Reports(f.value, e, err)
    && e.actor.Some?
    && (e.actor.value.key.Some? ==> FailsWaiters(f.value, e.actor.value.key.value, e.actor.value.kind))
  }

  lemma {:induction false} FailureOnFields(e: Event, err: string)
    requires CallsForTask(e)
    ensures FailureIsSeen(e, err)
  {}

  /** The failure of any task in any run is reported, and every waiter on the object's key fails on seeing the
      report; it ends the stream of a waiter on that object exactly when the waiter waits for that action. */
  lemma {:induction false} FailureReachesWaiters(run: seq<Move>, t: nat, err: string)
    requires ValidRun(run) && t < |After(run).tasks|
    ensures var s := After(run);
            1 <= s.tasks[t].event <= |s.received| && FailureIsSeen(s.received[s.tasks[t].event - 1], err)
  {
    KeyInRun(run, t);
    FailureOnFields(After(run).received[After(run).tasks[t].event - 1], err);
  }
}
