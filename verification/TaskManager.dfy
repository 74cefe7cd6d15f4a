/** The task manager's own methods, each one or two critical sections on the shared map, against the steps
    of the event loop's state machine. */
module TaskManagement {
  import opened Options
  import opened Events
  import opened EventLoop

  /** The state machine's view of a manager at a point of the loop. */
  function View(received: seq<Event>, pc: Pc, spawned: seq<Task>, tasks: map<string, nat>, log: seq<Mark>): State {
    State(received, pc, spawned, tasks, log)
  }

  /** The tasks and the map as one look at the manager finds them. */
  type Look = (seq<Task>, map<string, nat>)

  class TaskManager {
    var spawned: seq<Task>
    var tasks: map<string, nat>

    constructor ()
      ensures spawned == INIT.tasks && tasks == INIT.slots
    {
      spawned, tasks := [], map[];
    }

    method GetTask(key: string) returns (t: Option<nat>)
      ensures t == if key in tasks then Some(tasks[key]) else None
    {
      t := if key in tasks then Some(tasks[key]) else None;
    }

    /** Abort the registered task if it is still running, and unregister it. */
    method RemoveTask(key: string)
      modifies this
      ensures forall received, pc, log ::
                View(received, pc, spawned, tasks, log)
                        == EventLoop.RemoveTask(old(View(received, pc, spawned, tasks, log)), key)
    {
      if key in tasks {
        var t := tasks[key];
        if t < |spawned| && !Finished(spawned[t].phase) {
          spawned := SetPhase(spawned, t, Aborted);
        }
      }
      tasks := tasks - {key};
    }

    /** Spawn, then register; `meanwhile` is what other tasks make of the manager between the two, which may
        include that the new task has already ended and unregistered its key.  The two halves are the loop's
        dispatch and insert steps. */
    method AddTask(key: string, event: nat, meanwhile: Look -> Look) returns (t: nat)
      modifies this
      ensures t == |old(spawned)|
      ensures var spawn := (old(spawned) + [Task(key, event, Ready)], old(tasks));
              forall received: seq<Event>, policy, log | |received| == event ::
                var p := Plan.Run(key, policy, true);
                && LoopNext(old(View(received, Dispatching(p), spawned, tasks, log)))
                   == View(received, Inserting(p, t), spawn.0, spawn.1, log)
                && View(received, Idle, spawned, tasks, log)
                   == LoopNext(View(received, Inserting(p, t), meanwhile(spawn).0, meanwhile(spawn).1, log))
    {
      t := |spawned|;
      spawned := spawned + [Task(key, event, Ready)];
      var look := meanwhile((spawned, tasks));
      spawned, tasks := look.0, look.1;
      tasks := tasks[key := t];
    }

    /** The polling wait.  `seen` is what other tasks have made of the manager at each successive look: the
        first to find the registered task, then one for each poll, and one more for the removal that follows
        the poll that finds it finished.  Between two looks only tasks move.  The wait goes on while the polls
        last; when it ends it has unregistered the key and aborted nothing. */
    method WaitTask(key: string, seen: seq<Look>) returns (done: bool)
      requires |seen| > 0 && Reaches((spawned, tasks), seen[0])
      requires forall i | 0 <= i < |seen| - 1 :: Reaches(seen[i], seen[i + 1])
      modifies this
      ensures key !in seen[0].1 ==> done && (spawned, tasks) == seen[0]
      ensures key in seen[0].1 ==>
                (done <==> exists i :: 0 < i < |seen| - 1 && Over(seen[i].0, seen[0].1[key]))
      ensures key in seen[0].1 && done ==>
                exists i :: 0 < i < |seen| - 1 && Over(seen[i].0, seen[0].1[key])
                            && (forall j | 0 < j < i :: !Over(seen[j].0, seen[0].1[key]))
                            && Removed(seen[i + 1], key, (spawned, tasks))
                            && (spawned, tasks) == (seen[i + 1].0, seen[i + 1].1 - {key})
    {
      spawned, tasks := seen[0].0, seen[0].1;
      var task := GetTask(key);
      if task.None? { return true; }
      var i := 1;
      while i < |seen| - 1
        invariant 1 <= i && task == Some(seen[0].1[key])
        invariant i <= |seen| ==> Remaining(seen[0].1, seen[i - 1].1)
        invariant forall j | 0 < j < i && j < |seen| - 1 :: !Over(seen[j].0, task.value)
      {
        OthersOnlyLeave(seen[i - 1], seen[i]);
        spawned, tasks := seen[i].0, seen[i].1;
        if Over(spawned, task.value) {
          OthersOnlyLeave(seen[i], seen[i + 1]);
          spawned, tasks := seen[i + 1].0, seen[i + 1].1;
          RemoveTask(key);
          NothingToAbort(seen[i + 1], key, (spawned, tasks));
          return true;
        }
        i := i + 1;
      }
      done := false;
    }
  }

  // ---------------------------------------------------------------- what other tasks can do meanwhile

  function StateOf(look: Look): State { View([], Idle, look.0, look.1, []) }

  predicate TaskMove(m: Move) { m.Begin? || m.End? || m.Leave? || m.Handled? }

  predicate Steps(a: Look, moves: seq<Move>, b: Look)
    decreases |moves|
  {
    if moves == [] then a == b
    else
      && TaskMove(moves[0]) && Enabled(StateOf(a), moves[0])
      && var s := Next(StateOf(a), moves[0]);
         Steps((s.tasks, s.slots), moves[1..], b)
  }

  /** Steps of tasks lead from one look to the other. */
  ghost predicate Reaches(a: Look, b: Look) { exists moves :: Steps(a, moves, b) }

  /** What is registered later was registered before, for the same task. */
  predicate Remaining(before: map<string, nat>, now: map<string, nat>) {
    forall k | k in now :: k in before && now[k] == before[k]
  }

  lemma {:induction false} StepsOnlyLeave(a: Look, moves: seq<Move>, b: Look)
    requires Steps(a, moves, b)
    ensures |b.0| == |a.0| && Remaining(a.1, b.1)
    ensures forall t | 0 <= t < |a.0| && Finished(a.0[t].phase) :: b.0[t] == a.0[t]
    decreases |moves|
  {
    if moves != [] {
      var s := Next(StateOf(a), moves[0]);
      StepsOnlyLeave((s.tasks, s.slots), moves[1..], b);
    }
  }

  /** Tasks only ever unregister, and a finished one stays as it is. */
  lemma {:induction false} OthersOnlyLeave(a: Look, b: Look)
    requires Reaches(a, b)
    ensures |b.0| == |a.0| && Remaining(a.1, b.1)
    ensures forall t | 0 <= t < |a.0| && Finished(a.0[t].phase) :: b.0[t] == a.0[t]
  {
    var moves :| Steps(a, moves, b);
    StepsOnlyLeave(a, moves, b);
  }

  lemma {:induction false} NothingToAbort(before: Look, key: string, now: Look)
    requires Removed(before, key, now) && (key in before.1 ==> Over(before.0, before.1[key]))
    ensures now == (before.0, before.1 - {key})
  {
    assert View([], Idle, now.0, now.1, []) == EventLoop.RemoveTask(View([], Idle, before.0, before.1, []), key);
  }

  predicate Over(spawned: seq<Task>, t: nat) { t < |spawned| && Finished(spawned[t].phase) }

  /** The map and the tasks after removing `key`, as the state machine has it. */
  ghost predicate Removed(before: Look, key: string, now: Look) {
    forall received, pc, log ::
      View(received, pc, now.0, now.1, log) == EventLoop.RemoveTask(View(received, pc, before.0, before.1, log), key)
  }

  /** When the registered task has finished and nothing else happens, a wait is the loop's fetch, poll and
      clear steps, and it leaves all tasks as they were. */
  lemma {:induction false} WaitIsThreeSteps(before: Look, key: string, now: Look,
                                            received: seq<Event>, plan: Plan, log: seq<Mark>)
    requires key in before.1 && Over(before.0, before.1[key]) && Removed(before, key, now)
    requires plan.Run? && plan.key == key
    ensures now.0 == before.0 && now.1 == before.1 - {key}
    ensures View(received, Dispatching(plan), now.0, now.1, log)
            == LoopNext(LoopNext(LoopNext(View(received, Fetching(plan), before.0, before.1, log))))
  {
    assert View(received, Idle, now.0, now.1, log)
        == EventLoop.RemoveTask(View(received, Idle, before.0, before.1, log), key);
  }
}
