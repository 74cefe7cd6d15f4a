/** The proxy's reload debouncer: each request aborts the current task and spawns one that sleeps for
    750 ms and then reloads.  Time is counted in milliseconds and a sleep ends exactly when it is due. */
module Debouncer {
  import opened Options

  const DELAY: nat := 750

  datatype Phase = Sleeping | Reloading | Finished | Aborted

  /** `due` is when the sleep ends, `started` when the reload began, if it did. */
  datatype Task = Task(due: nat, phase: Phase, started: Option<nat>)

  predicate Ended(t: Task) { t.phase.Finished? || t.phase.Aborted? }

  /** Abort the latest task if it has not ended, and spawn the next one. */
  function Handled(tasks: seq<Task>, now: nat): seq<Task> {
    var n := |tasks|;
    (if n > 0 && !Ended(tasks[n - 1]) then tasks[n - 1 := tasks[n - 1].(phase := Aborted)] else tasks)
    + [Task(now + DELAY, Sleeping, None)]
  }

  class SystemEvent {
    /** Every task ever spawned; the handle in use is the last one. */
    var tasks: seq<Task>

    constructor ()
      ensures tasks == []
    {
      tasks := [];
    }

    method Handle(now: nat)
      modifies this
      ensures tasks == Handled(old(tasks), now)
    {
      var n := |tasks|;
      if n > 0 && !Ended(tasks[n - 1]) {
        tasks := tasks[n - 1 := tasks[n - 1].(phase := Aborted)];
      }
      tasks := tasks + [Task(now + DELAY, Sleeping, None)];
    }
  }

  // ---------------------------------------------------------------- runs

  /** `requests` holds the times at which reloads were requested; task `i` answers request `i`. */
  datatype State = State(now: nat, requests: seq<nat>, tasks: seq<Task>)

  const INIT: State := State(0, [], [])

  datatype Move = Request | Pass(ms: nat) | Wake(i: nat) | Complete(i: nat)

  predicate Enabled(s: State, m: Move) {
    match m
    case Request => true
    case Pass(ms) => forall i | 0 <= i < |s.tasks| && s.tasks[i].phase.Sleeping? :: s.now + ms <= s.tasks[i].due
    case Wake(i) => i < |s.tasks| && s.tasks[i].phase.Sleeping? && s.now == s.tasks[i].due
    case Complete(i) => i < |s.tasks| && s.tasks[i].phase.Reloading?
  }

  function Next(s: State, m: Move): State
    requires Enabled(s, m)
  {
    match m
    case Request => s.(requests := s.requests + [s.now], tasks := Handled(s.tasks, s.now))
    case Pass(ms) => s.(now := s.now + ms)
    case Wake(i) => s.(tasks := s.tasks[i := s.tasks[i].(phase := Reloading, started := Some(s.now))])
    case Complete(i) => s.(tasks := s.tasks[i := s.tasks[i].(phase := Finished)])
  }

  predicate ValidRun(run: seq<Move>)
    decreases |run|, 0
  {
    run == [] || (ValidRun(run[..|run| - 1]) && Enabled(After(run[..|run| - 1]), run[|run| - 1]))
  }

  function After(run: seq<Move>): State
    requires ValidRun(run)
    decreases |run|, 1
  {
    if run == [] then INIT else Next(After(run[..|run| - 1]), run[|run| - 1])
  }

  // ---------------------------------------------------------------- the invariant

  /** The task answers a request made at `r`: it starts its reload 750 ms later or not at all, and has
      only stopped sleeping without starting if it was aborted. */
  predicate Answers(t: Task, r: nat) {
    && t.due == r + DELAY
    && (t.started.Some? ==> t.started.value == t.due)
    && (t.phase.Sleeping? ==> t.started.None?)
    && (t.phase.Reloading? || t.phase.Finished? ==> t.started.Some?)
  }

  predicate Inv(s: State) {
    var n := |s.requests|;
    && |s.tasks| == n
    && (forall i, j | 0 <= i <= j < n :: s.requests[i] <= s.requests[j])
    && (forall i | 0 <= i < n :: s.requests[i] <= s.now && Answers(s.tasks[i], s.requests[i]))
    && (forall i | 0 <= i < n - 1 :: Ended(s.tasks[i]))
    && (forall i | 0 <= i < n - 1 ::
          if s.tasks[i].started.Some? then s.requests[i] + DELAY <= s.requests[i + 1]
          else s.requests[i + 1] <= s.requests[i] + DELAY)
    && (n > 0 ==> !s.tasks[n - 1].phase.Aborted?)
    && (n > 0 ==> if s.tasks[n - 1].phase.Sleeping? then s.now <= s.tasks[n - 1].due else s.tasks[n - 1].due <= s.now)
  }

  lemma {:induction false} HandledTasks(tasks: seq<Task>, now: nat)
    ensures var r, n := Handled(tasks, now), |tasks|;
            && |r| == n + 1 && r[n] == Task(now + DELAY, Sleeping, None)
            && (forall i | 0 <= i < n - 1 :: r[i] == tasks[i])
            && (n > 0 ==> r[n - 1] == if Ended(tasks[n - 1]) then tasks[n - 1] else tasks[n - 1].(phase := Aborted))
  {}

  lemma {:induction false} RequestKeepsInv(s: State)
    requires Inv(s)
    ensures Inv(Next(s, Request))
  {
    var s', n := Next(s, Request), |s.requests|;
    HandledTasks(s.tasks, s.now);
    assert s'.requests == s.requests + [s.now];
    if n > 0 {
      var last := s.tasks[n - 1];
      assert Answers(last, s.requests[n - 1]);
      assert Answers(s'.tasks[n - 1], s.requests[n - 1]) && Ended(s'.tasks[n - 1]);
      assert if last.started.Some? then last.due <= s.now else s.now <= last.due;
    }
    forall i | 0 <= i < n + 1 ensures s'.requests[i] <= s'.now && Answers(s'.tasks[i], s'.requests[i]) {
      if i < n - 1 { assert s'.tasks[i] == s.tasks[i]; }
    }
    forall i | 0 <= i < n
      ensures Ended(s'.tasks[i])
      ensures if s'.tasks[i].started.Some? then s'.requests[i] + DELAY <= s'.requests[i + 1]
              else s'.requests[i + 1] <= s'.requests[i] + DELAY
    {
      if i < n - 1 { assert s'.tasks[i] == s.tasks[i]; }
    }
  }

  lemma {:induction false} TaskStepKeepsInv(s: State, i: nat, t: Task)
    requires Inv(s) && i < |s.tasks| && !Ended(s.tasks[i]) && Answers(t, s.requests[i])
    requires t.phase.Reloading? || t.phase.Finished?
    requires s.tasks[i].due <= s.now
    ensures Inv(s.(tasks := s.tasks[i := t]))
  {
    assert i == |s.tasks| - 1;
    assert Answers(s.tasks[i], s.requests[i]);
  }

  lemma {:induction false} StepKeepsInv(s: State, m: Move)
    requires Inv(s) && Enabled(s, m)
    ensures Inv(Next(s, m))
  {
    match m {
      case Request => RequestKeepsInv(s);
      case Pass(_) =>
      case Wake(i) => TaskStepKeepsInv(s, i, s.tasks[i].(phase := Reloading, started := Some(s.now)));
      case Complete(i) => TaskStepKeepsInv(s, i, s.tasks[i].(phase := Finished));
    }
  }

  lemma {:induction false} RunKeepsInv(run: seq<Move>)
    requires ValidRun(run)
    ensures Inv(After(run))
  {
    if run != [] {
      RunKeepsInv(run[..|run| - 1]);
      StepKeepsInv(After(run[..|run| - 1]), run[|run| - 1]);
    }
  }

  // ---------------------------------------------------------------- the theorems

  /** In every run: at most one reload task has not ended, and while the latest request has not been
      followed by a reload start, its task is asleep and will start one 750 ms after the request. */
  lemma {:induction false} OnePendingReload(run: seq<Move>)
    requires ValidRun(run)
    ensures var s := After(run);
            && |s.tasks| == |s.requests|
            && (forall i, j | 0 <= i < |s.tasks| && 0 <= j < |s.tasks| && !Ended(s.tasks[i]) && !Ended(s.tasks[j]) ::
                  i == j)
            && (s.requests != [] && s.tasks[|s.tasks| - 1].started.None? ==>
                  && s.tasks[|s.tasks| - 1].phase.Sleeping?
                  && s.tasks[|s.tasks| - 1].due == s.requests[|s.requests| - 1] + 750
                  && s.now <= s.tasks[|s.tasks| - 1].due)
  {
    RunKeepsInv(run);
  }

  /** The time by which request `i` must have been answered: the next request, or now. */
  function Until(s: State, i: nat): nat
    requires i < |s.requests|
  {
    if i + 1 < |s.requests| then s.requests[i + 1] else s.now
  }

  /** Which requests lead to a reload: those followed by more than 750 ms of silence do, 750 ms later;
      those followed by less do not. */
  lemma {:induction false} StartsAfterSilence(run: seq<Move>, i: nat)
    requires ValidRun(run) && i < |After(run).requests|
    ensures var s := After(run);
            && |s.tasks| == |s.requests| && s.requests[i] <= Until(s, i)
            && (Until(s, i) - s.requests[i] > 750 ==> s.tasks[i].started == Some(s.requests[i] + 750))
            && (Until(s, i) - s.requests[i] < 750 ==> s.tasks[i].started == None)
            && (s.tasks[i].started.Some? ==> s.tasks[i].started == Some(s.requests[i] + 750))
  {
    RunKeepsInv(run);
    var s := After(run);
    assert Answers(s.tasks[i], s.requests[i]);
  }

  /** A burst, requests `i` to `j` with gaps under 750 ms and silence of more than 750 ms after it, starts
      exactly one reload, 750 ms after its last request. */
  lemma {:induction false} BurstStartsOneReload(run: seq<Move>, i: nat, j: nat)
    requires ValidRun(run) && i <= j < |After(run).requests|
    requires forall k | i <= k < j :: After(run).requests[k + 1] < After(run).requests[k] + 750
    requires Until(After(run), j) > After(run).requests[j] + 750
    ensures var s := After(run);
            && |s.tasks| == |s.requests|
            && s.tasks[j].started == Some(s.requests[j] + 750)
            && (forall k | i <= k < j :: s.tasks[k].started == None)
  {
    StartsAfterSilence(run, j);
    forall k | i <= k < j ensures After(run).tasks[k].started == None {
      StartsAfterSilence(run, k);
    }
  }

  lemma {:induction false} Extend(run: seq<Move>, m: Move)
    requires ValidRun(run) && Enabled(After(run), m)
    ensures ValidRun(run + [m]) && After(run + [m]) == Next(After(run), m)
  {
    assert (run + [m])[..|run|] == run;
  }

  /** No sleep ends before `t`. */
  predicate Quiet(s: State, t: nat) {
    forall i | 0 <= i < |s.tasks| && s.tasks[i].phase.Sleeping? :: t <= s.tasks[i].due
  }

  lemma {:induction false} WakesInTime(s: State)
    requires Inv(s) && |s.tasks| > 0 && s.tasks[|s.tasks| - 1].phase.Sleeping?
    ensures var n := |s.tasks|;
            && s.now <= s.tasks[n - 1].due
            && var wait := Pass(s.tasks[n - 1].due - s.now);
               && Enabled(s, wait) && Enabled(Next(s, wait), Wake(n - 1))
               && var s' := Next(Next(s, wait), Wake(n - 1));
                  s'.now == s.tasks[n - 1].due && s'.requests == s.requests && forall t :: Quiet(s', t)
  {}

  lemma {:induction false} QuietIff(s: State, t: nat)
    requires Inv(s)
    ensures Quiet(s, t) <==>
            (|s.tasks| > 0 && s.tasks[|s.tasks| - 1].phase.Sleeping? ==> t <= s.tasks[|s.tasks| - 1].due)
  {}

  /** Time can always go on: a sleep that ends on the way starts its reload. */
  lemma {:induction false} TimePasses(run: seq<Move>, t: nat) returns (run': seq<Move>)
    requires ValidRun(run) && After(run).now <= t
    ensures ValidRun(run') && After(run').now == t && After(run').requests == After(run).requests
  {
    RunKeepsInv(run);
    run' := run;
    var s := After(run);
    QuietIff(s, t);
    if !Quiet(s, t) {
      WakesInTime(s);
      var wait, wake := Pass(s.tasks[|s.tasks| - 1].due - s.now), Wake(|s.tasks| - 1);
      Extend(run, wait);
      Extend(run + [wait], wake);
      run' := run + [wait] + [wake];
      assert Quiet(After(run'), t);
    }
    var rest := Pass(t - After(run').now);
    Extend(run', rest);
    run' := run' + [rest];
  }

  /** Requests may come at any times whatever. */
  lemma {:induction false} AnyRequestsArrive(times: seq<nat>) returns (run: seq<Move>)
    requires forall i, j | 0 <= i <= j < |times| :: times[i] <= times[j]
    ensures ValidRun(run) && After(run).requests == times
    ensures After(run).now == if times == [] then 0 else times[|times| - 1]
  {
    if times == [] {
      run := [];
    } else {
      var n := |times| - 1;
      run := AnyRequestsArrive(times[..n]);
      if n > 0 { assert times[..n][n - 1] == times[n - 1]; }
      run := TimePasses(run, times[n]);
      Extend(run, Request);
      run := run + [Request];
      assert times[..n] + [times[n]] == times;
    }
  }
}
