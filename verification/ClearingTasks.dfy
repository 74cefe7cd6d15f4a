/** Task bodies clear objects: the event loop and the store, running together.

    A clearing is begun by an unfinished deletion body of its own object, after it has read the object, and
    that body ends only when its clearing has.  An aborted body may leave a clearing behind. */
module ClearingTasks {
  import opened Events
  import opened Store
  import E = EventLoop
  import R = StoreRuns
  import KeyClaims

  /** `host` tells which task began a clearing operation. */
  datatype State = State(loop: E.State, store: R.State, host: map<nat, nat>)

  const INIT: State := State(E.INIT, R.INIT, map[])

  datatype Move =
    | Loop(move: E.Move)
    | Clear(n: nat, id: ObjId, task: nat)
    | Statement(step: R.Move)

  function ActorOf(k: Kind): ActorKind {
    match k
    case CargoKind => Cargo
    case VmKind => Vm
    case JobKind => Job
  }

  function KeyOf(id: ObjId): string { E.TaskKey(ActorOf(id.kind), id.key) }

  /** Is operation `n` a clearing under way that the task began? */
  predicate Hosts(s: State, t: nat, n: nat) {
    n in s.store.ops && R.Clears(s.store.ops[n]) && n in s.host && s.host[n] == t
  }

  predicate Free(s: State, t: nat) { forall n | n in s.store.ops :: !Hosts(s, t, n) }

  predicate Enabled(s: State, m: Move) {
    match m
    case Loop(move) => E.Enabled(s.loop, move) && (move.End? ==> Free(s, move.t))
    case Clear(n, id, t) =>
      && R.Enabled(s.store, R.Begin(n, R.ClearRow(id)))
      && t < |s.loop.tasks| && s.loop.tasks[t].phase.Body? && s.loop.tasks[t].key == KeyOf(id) && Free(s, t)
    case Statement(step) => R.Enabled(s.store, step) && !(step.Begin? && step.op.ClearRow?)
  }

  function Next(s: State, m: Move): State
    requires Enabled(s, m)
  {
    match m
    case Loop(move) => s.(loop := E.Next(s.loop, move))
    case Clear(n, id, t) => s.(store := R.Next(s.store, R.Begin(n, R.ClearRow(id))), host := s.host[n := t])
    case Statement(step) => s.(store := R.Next(s.store, step))
  }

  predicate ValidRun(run: seq<Move>)
    decreases |run|, 0
  {
    run == [] || (ValidRun(run[..|run| - 1]) && Enabled(After(run[..|run| - 1]), run[|run| - 1]))
  }

  function After(run: seq<Move>): State
    requires ValidRun(run)
    decreases |run|, 1
  {
    if run == [] then INIT else Next(After(run[..|run| - 1]), run[|run| - 1])
  }

  // ---------------------------------------------------------------- who clears what

  /** Every clearing under way was begun by a task of its object whose body is not over or was aborted,
      and no task has begun two of them. */
  predicate HostsOk(s: State) {
    && (forall n | n in s.store.ops && R.Clears(s.store.ops[n]) ::
          && n in s.host && s.host[n] < |s.loop.tasks|
          && s.loop.tasks[s.host[n]].key == KeyOf(s.store.ops[n].id)
          && (s.loop.tasks[s.host[n]].phase.Body? || s.loop.tasks[s.host[n]].phase.Aborted?))
    && (forall n, m | n in s.store.ops && m in s.store.ops && n != m
                      && R.Clears(s.store.ops[n]) && R.Clears(s.store.ops[m]) :: s.host[n] != s.host[m])
  }

  lemma {:induction false} TasksPersist(s: E.State, m: E.Move, t: nat)
    requires E.Enabled(s, m) && t < |s.tasks|
    ensures t < |E.Next(s, m).tasks| && E.Next(s, m).tasks[t].key == s.tasks[t].key
    ensures s.tasks[t].phase.Aborted? ==> E.Next(s, m).tasks[t].phase.Aborted?
    ensures s.tasks[t].phase.Body? && !(m.End? && m.t == t) ==>
              E.Next(s, m).tasks[t].phase.Body? || E.Next(s, m).tasks[t].phase.Aborted?
  {}

  lemma {:induction false} LoopKeepsHosts(s: State, m: E.Move)
    requires HostsOk(s) && Enabled(s, Loop(m))
    ensures HostsOk(Next(s, Loop(m)))
  {
    var s' := Next(s, Loop(m));
    forall n | n in s'.store.ops && R.Clears(s'.store.ops[n])
      ensures && s'.host[n] < |s'.loop.tasks|
              && s'.loop.tasks[s'.host[n]].key == KeyOf(s'.store.ops[n].id)
              && (s'.loop.tasks[s'.host[n]].phase.Body? || s'.loop.tasks[s'.host[n]].phase.Aborted?)
    {
      assert Hosts(s, s.host[n], n);
      TasksPersist(s.loop, m, s.host[n]);
    }
  }

  /** A statement continues a clearing, ends it, or has nothing to do with it. */
  lemma {:induction false} ClearingsContinue(s: R.State, m: R.Move, n: nat)
    requires R.Enabled(s, m) && !(m.Begin? && m.op.ClearRow?)
    requires n in R.Next(s, m).ops && R.Clears(R.Next(s, m).ops[n])
    ensures n in s.ops && R.Clears(s.ops[n]) && R.Next(s, m).ops[n].id == s.ops[n].id
  {}

  lemma {:induction false} StatementKeepsHosts(s: State, m: R.Move)
    requires HostsOk(s) && Enabled(s, Statement(m))
    ensures HostsOk(Next(s, Statement(m)))
  {
    var s' := Next(s, Statement(m));
    forall n | n in s'.store.ops && R.Clears(s'.store.ops[n])
      ensures n in s.store.ops && R.Clears(s.store.ops[n]) && s'.store.ops[n].id == s.store.ops[n].id
    {
      ClearingsContinue(s.store, m, n);
    }
  }

  lemma {:induction false} ClearKeepsHosts(s: State, n: nat, id: ObjId, t: nat)
    requires HostsOk(s) && Enabled(s, Clear(n, id, t))
    ensures HostsOk(Next(s, Clear(n, id, t)))
  {
    var s' := Next(s, Clear(n, id, t));
    forall q | q in s.store.ops && R.Clears(s.store.ops[q]) ensures s.host[q] != t && s'.host[q] == s.host[q] {
      assert !Hosts(s, t, q);
    }
  }

  lemma {:induction false} RunKeepsHosts(run: seq<Move>)
    requires ValidRun(run)
    ensures HostsOk(After(run)) && E.Inv(After(run).loop)
  {
    if run != [] {
      var s, m := After(run[..|run| - 1]), run[|run| - 1];
      RunKeepsHosts(run[..|run| - 1]);
      match m {
        case Loop(move) =>
          LoopKeepsHosts(s, move);
          E.StepKeepsInv(s.loop, move);
        case Clear(n, id, t) => ClearKeepsHosts(s, n, id, t);
        case Statement(step) => StatementKeepsHosts(s, step);
      }
    }
  }

  // ---------------------------------------------------------------- the theorems

  /** The same run, seen from the store alone. */
  function StoreMoves(run: seq<Move>): seq<R.Move> {
    if run == [] then []
    else
      var before, last := StoreMoves(run[..|run| - 1]), run[|run| - 1];
      match last
      case Loop(_) => before
      case Clear(n, id, _) => before + [R.Begin(n, R.ClearRow(id))]
      case Statement(step) => before + [step]
  }

  lemma {:induction false} ExtendStore(run: seq<R.Move>, m: R.Move)
    requires R.ValidRun(run) && R.Enabled(R.After(run), m)
    ensures R.ValidRun(run + [m]) && R.After(run + [m]) == R.Next(R.After(run), m)
  {
    assert (run + [m])[..|run|] == run;
  }

  lemma {:induction false} StoreRunIsValid(run: seq<Move>)
    requires ValidRun(run)
    ensures R.ValidRun(StoreMoves(run)) && R.After(StoreMoves(run)) == After(run).store
  {
    if run != [] {
      var init, m := run[..|run| - 1], run[|run| - 1];
      StoreRunIsValid(init);
      match m {
        case Loop(_) =>
        case Clear(n, id, _) => ExtendStore(StoreMoves(init), R.Begin(n, R.ClearRow(id)));
        case Statement(step) => ExtendStore(StoreMoves(init), step);
      }
    }
  }

  lemma {:induction false} BodiesHaveOwnKeys(s: E.State, t: nat, u: nat)
    requires E.Inv(s) && t < |s.tasks| && u < |s.tasks| && t != u && E.SerialKey(s.tasks[t].key)
    requires s.tasks[t].phase.Body? && (s.tasks[u].phase.Body? || s.tasks[u].phase.Aborted?)
    ensures s.tasks[t].key != s.tasks[u].key
  {}

  /** Bodies of cargoes and vms being serialised, a cargo or vm is never cleared twice at once. */
  lemma {:induction false} SerialClearsAreApart(s: State, n: nat, id: ObjId, t: nat)
    requires HostsOk(s) && E.Inv(s.loop) && Enabled(s, Clear(n, id, t)) && !id.kind.JobKind?
    ensures R.Apart(s.store, R.Begin(n, R.ClearRow(id)))
  {
    E.SerialKeyIff(ActorOf(id.kind), id.key);
    forall q | q in s.store.ops && R.Clears(s.store.ops[q]) ensures s.store.ops[q].id != id {
      assert !Hosts(s, t, q);
      BodiesHaveOwnKeys(s.loop, t, s.host[q]);
    }
  }

  /** No job is cleared twice at once. */
  predicate JobClearsApart(run: seq<Move>)
    requires ValidRun(run)
  {
    run == [] ||
    (JobClearsApart(run[..|run| - 1])
     && (run[|run| - 1].Clear? && run[|run| - 1].id.kind.JobKind? ==>
           R.Apart(After(run[..|run| - 1]).store, R.Begin(run[|run| - 1].n, R.ClearRow(run[|run| - 1].id)))))
  }

  lemma {:induction false} ExtendApart(run: seq<R.Move>, m: R.Move)
    requires R.ValidRun(run) && R.Enabled(R.After(run), m) && R.ClearsApart(run) && R.Apart(R.After(run), m)
    ensures R.ValidRun(run + [m]) && R.ClearsApart(run + [m])
  {
    ExtendStore(run, m);
    assert (run + [m])[..|run|] == run;
  }

  lemma {:induction false} OnlyJobsOverlap(run: seq<Move>)
    requires ValidRun(run) && JobClearsApart(run)
    ensures R.ValidRun(StoreMoves(run)) && R.ClearsApart(StoreMoves(run))
  {
    StoreRunIsValid(run);
    if run != [] {
      var init, m := run[..|run| - 1], run[|run| - 1];
      OnlyJobsOverlap(init);
      StoreRunIsValid(init);
      RunKeepsHosts(init);
      match m {
        case Loop(_) =>
        case Clear(n, id, t) =>
          if !id.kind.JobKind? { SerialClearsAreApart(After(init), n, id, t); }
          ExtendApart(StoreMoves(init), R.Begin(n, R.ClearRow(id)));
        case Statement(step) => ExtendApart(StoreMoves(init), step);
      }
    }
  }

  /** The loop, its tasks and the store together: as long as no job is cleared twice at once, no key is ever
      held by two of the cargo, vm and job tables, nor can it come to be. */
  lemma {:induction false} KeysStayDisjoint(run: seq<Move>)
    requires ValidRun(run) && JobClearsApart(run)
    ensures KeysDisjoint(After(run).store.t) && KeyClaims.Safe(After(run).store)
  {
    StoreRunIsValid(run);
    OnlyJobsOverlap(run);
    KeyClaims.ApartNeverTears(StoreMoves(run));
    KeyClaims.DisjointForGoodIff(StoreMoves(run));
  }

  // ---------------------------------------------------------------- one job, cleared twice by two bodies

  lemma {:induction false} Extend(run: seq<Move>, m: Move)
    requires ValidRun(run) && Enabled(After(run), m)
    ensures ValidRun(run + [m]) && After(run + [m]) == Next(After(run), m)
  {
    assert (run + [m])[..|run|] == run;
  }

  /** The task that began the clearing runs under the cleared object's own kind and key, and its body is not over
      unless it was aborted. */
  predicate ClearedByOwnTask(s: State, n: nat)
    requires n in s.store.ops && R.Clears(s.store.ops[n])
  {
    && n in s.host && s.host[n] < |s.loop.tasks|
    && var task, id := s.loop.tasks[s.host[n]], s.store.ops[n].id;
       && (task.phase.Body? || task.phase.Aborted?)
       && task.key == match id.kind
                      case CargoKind => "Cargo@" + id.key
                      case VmKind => "Vm@" + id.key
                      case JobKind => "Job@" + id.key
  }

  lemma {:induction false} HostIsOwnTask(s: State, n: nat)
    requires HostsOk(s) && n in s.store.ops && R.Clears(s.store.ops[n])
    ensures ClearedByOwnTask(s, n)
  {}

  /** In every joint run each clearing under way was begun by a task of its own object. */
  lemma {:induction false} ClearedByItsOwnTask(run: seq<Move>, n: nat)
    requires ValidRun(run) && n in After(run).store.ops && R.Clears(After(run).store.ops[n])
    ensures ClearedByOwnTask(After(run), n)
  {
    RunKeepsHosts(run);
    HostIsOwnTask(After(run), n);
  }

  /** The loop's own runs are joint runs in which nothing happens to the store. */
  lemma {:induction false} LoopAlone(moves: seq<E.Move>) returns (run: seq<Move>)
    requires E.ValidRun(moves)
    ensures ValidRun(run) && After(run) == State(E.After(moves), R.INIT, map[])
  {
    run := [];
    if moves != [] {
      var last := moves[|moves| - 1];
      run := LoopAlone(moves[..|moves| - 1]);
      Extend(run, Loop(last));
      run := run + [Loop(last)];
    }
  }

  /** Operations 1 and 2 are begun by tasks 2 and 3. */
  function Hosted(m: R.Move): Move {
    if m.Begin? && m.op.ClearRow? then Clear(m.n, m.op.id, m.n + 1) else Statement(m)
  }

  predicate TwoBodies(s: E.State, id: ObjId) {
    |s.tasks| == 4 && forall t | 2 <= t < 4 :: s.tasks[t].phase.Body? && s.tasks[t].key == KeyOf(id)
  }

  /** With two unfinished bodies of the object, the store's runs that clear it twice are joint runs. */
  lemma {:induction false} StoreBeside(loop: seq<Move>, moves: seq<R.Move>, id: ObjId) returns (run: seq<Move>)
    requires ValidRun(loop) && After(loop).store == R.INIT && After(loop).host == map[]
    requires TwoBodies(After(loop).loop, id) && R.ValidRun(moves) && KeyClaims.ClearsOnly(moves, id)
    ensures ValidRun(run) && After(run).loop == After(loop).loop && After(run).store == R.After(moves)
    ensures forall n | n in After(run).host :: After(run).host[n] == n + 1
  {
    if moves == [] {
      run := loop;
    } else {
      var init, last := moves[..|moves| - 1], moves[|moves| - 1];
      run := StoreBeside(loop, init, id);
      HostedIsEnabled(After(run), last, id);
      Extend(run, Hosted(last));
      run := run + [Hosted(last)];
    }
  }

  lemma {:induction false} HostedIsEnabled(s: State, m: R.Move, id: ObjId)
    requires TwoBodies(s.loop, id) && R.Enabled(s.store, m) && (forall n | n in s.host :: s.host[n] == n + 1)
    requires m.Begin? && m.op.ClearRow? ==> m.n in {1, 2} && m.op.id == id
    ensures Enabled(s, Hosted(m))
    ensures var s' := Next(s, Hosted(m));
            s'.store == R.Next(s.store, m) && s'.loop == s.loop && forall n | n in s'.host :: s'.host[n] == n + 1
  {}

  lemma {:induction false} TwoDeletions(key: string) returns (loop: seq<Move>)
    ensures ValidRun(loop) && After(loop).store == R.INIT && After(loop).host == map[]
    ensures TwoBodies(After(loop).loop, ObjId(JobKind, key))
  {
    var deletions := E.JobDeletedTwice(key);
    DeletionsAreBodies(E.After(deletions), key);
    loop := LoopAlone(deletions);
  }

  lemma {:induction false} DeletionsAreBodies(s: E.State, key: string)
    requires |s.tasks| == 4 && s.tasks[2].phase.Body? && s.tasks[3].phase.Body?
    requires s.tasks[2].key == s.tasks[3].key == E.TaskKey(Job, key)
    ensures TwoBodies(s, ObjId(JobKind, key))
  {}

  lemma {:induction false} OverlapIsNeeded(run: seq<Move>)
    requires ValidRun(run) && !KeysDisjoint(After(run).store.t)
    ensures !JobClearsApart(run)
  {
    if JobClearsApart(run) { KeysStayDisjoint(run); }
  }

  /** What `KeysStayDisjoint` assumes is needed: a run of loop, tasks and store, from their common start, in
      which two deletion bodies of one job clear it at once and a job and a cargo end with its key. */
  lemma {:induction false} TwoBodiesOneKey(key: string) returns (run: seq<Move>)
    ensures ValidRun(run) && !JobClearsApart(run)
    ensures ObjId(JobKind, key) in After(run).store.t.rows && ObjId(CargoKind, key) in After(run).store.t.rows
  {
    var loop := TwoDeletions(key);
    var statements := KeyClaims.TwoTablesOneKey(key);
    run := StoreBeside(loop, statements, ObjId(JobKind, key));
    OverlapIsNeeded(run);
  }
}
