/** What completed creations, puts and clearings leave in the store, whatever operations on other keys do in
    between. */
module CompletedOperations {
  import opened Options
  import opened Store
  import opened StoreRuns

  // ---------------------------------------------------------------- one key's part of the store

  /** All that is stored under one key: its specs, its status, and the rows of that key in the object tables. */
  datatype Part = Part(specs: map<Uuid, SpecRow>, status: Option<Status>, rows: map<ObjId, Row>)

  function SpecsOf(specs: map<Uuid, SpecRow>, key: string): map<Uuid, SpecRow> {
    map u | u in specs && specs[u].kindKey == key :: specs[u]
  }

  function RowsOf(rows: map<ObjId, Row>, key: string): map<ObjId, Row> {
    map id | id in rows && id.key == key :: rows[id]
  }

  function PartOf(t: Tables, key: string): Part {
    Part(SpecsOf(t.specs, key), if key in t.statuses then Some(t.statuses[key]) else None, RowsOf(t.rows, key))
  }

  /** A statement changes nothing of any key but its own. */
  lemma {:induction false} StatementKeepsOthers(t: Tables, op: Op, c: Choice, key: string)
    requires RowsPermit(t, op, c) && KeyOf(op) != key
    ensures PartOf(Effect(t, op, c), key) == PartOf(t, key)
  {
    StatementKeepsSpecs(t, op, c, key);
    StatementKeepsRows(t, op, c, key);
  }

  lemma {:induction false} StatementKeepsSpecs(t: Tables, op: Op, c: Choice, key: string)
    requires RowsPermit(t, op, c) && KeyOf(op) != key
    ensures SpecsOf(Effect(t, op, c).specs, key) == SpecsOf(t.specs, key)
  {
    InsertingKeepsSpecs(t, c.spec, c.data, key);
    DeletingKeepsSpecs(t, KeyOf(op), key);
  }

  lemma {:induction false} InsertingKeepsSpecs(t: Tables, u: Uuid, row: SpecRow, key: string)
    ensures u !in t.specs && row.kindKey != key ==> SpecsOf(InsertSpec(t, u, row).specs, key) == SpecsOf(t.specs, key)
  {}

  lemma {:induction false} DeletingKeepsSpecs(t: Tables, deleted: string, key: string)
    ensures deleted != key ==> SpecsOf(DeleteSpecs(t, deleted).specs, key) == SpecsOf(t.specs, key)
  {}

  lemma {:induction false} StatementKeepsRows(t: Tables, op: Op, c: Choice, key: string)
    requires KeyOf(op) != key
    ensures RowsOf(Effect(t, op, c).rows, key) == RowsOf(t.rows, key)
    ensures key in Effect(t, op, c).statuses <==> key in t.statuses
    ensures key in t.statuses ==> Effect(t, op, c).statuses[key] == t.statuses[key]
  {}

  /** No operation but `n` works on the key. */
  predicate Sole(s: State, n: nat, key: string) {
    forall q | q in s.ops && q != n :: KeyOf(s.ops[q]) != key
  }

  /** A move that has nothing to do with operation `n` or the key. */
  predicate Elsewhere(s: State, m: Move, n: nat, key: string)
    requires Enabled(s, m)
  {
    match m
    case Begin(_, op) => KeyOf(op) != key
    case Advance(q, _) => q != n
    case GiveUp(q) => q != n
    case ForeignSpec(c) => c.data.kindKey != key
    case ForeignDelete(k) => k != key
  }

  lemma {:induction false} ElsewhereKeepsPart(s: State, m: Move, n: nat, key: string)
    requires Enabled(s, m) && Sole(s, n, key) && Elsewhere(s, m, n, key)
    ensures PartOf(Next(s, m).t, key) == PartOf(s.t, key)
  {
    match m {
      case Advance(q, c) => StatementKeepsOthers(s.t, s.ops[q], c, key);
      case ForeignSpec(c) => InsertingKeepsSpecs(s.t, c.spec, c.data, key);
      case ForeignDelete(k) => DeletingKeepsSpecs(s.t, k, key);
      case _ =>
    }
  }

  lemma {:induction false} ElsewhereKeeps(s: State, m: Move, n: nat, key: string)
    requires Enabled(s, m) && n in s.ops && Sole(s, n, key) && Elsewhere(s, m, n, key)
    ensures PartOf(Next(s, m).t, key) == PartOf(s.t, key)
    ensures n in Next(s, m).ops && Next(s, m).ops[n] == s.ops[n] && Sole(Next(s, m), n, key)
  {
    ElsewhereKeepsPart(s, m, n, key);
  }

  // ---------------------------------------------------------------- an operation alone on its key

  /** Move number `start` of the run begins operation `n` as `op`, on a key that no other operation works on; the
      operation is under way until the last move, and since its beginning nothing else has worked on its key. */
  ghost predicate Alone(run: seq<Move>, start: nat, n: nat, op: Op)
    requires ValidRun(run)
  {
    && start < |run|
    && var before, m := After(run[..|run| - 1]), run[|run| - 1];
       if |run| == start + 1 then m == Begin(n, op) && Sole(before, n, KeyOf(op))
       else
         && Alone(run[..|run| - 1], start, n, op) && n in before.ops
         && ((m.Advance? && m.n == n) || Elsewhere(before, m, n, KeyOf(op)))
  }

  /** What is stored under the operation's key when it begins. */
  ghost function Found(run: seq<Move>, start: nat, n: nat, op: Op): Part
    requires ValidRun(run) && Alone(run, start, n, op)
  {
    if |run| == start + 1 then PartOf(After(run[..|run| - 1]).t, KeyOf(op)) else Found(run[..|run| - 1], start, n, op)
  }

  /** What the operation's statements were sent with, in order. */
  function Sent(run: seq<Move>, start: nat, n: nat): seq<Choice> {
    if |run| <= start + 1 then []
    else
      Sent(run[..|run| - 1], start, n)
      + if run[|run| - 1].Advance? && run[|run| - 1].n == n then [run[|run| - 1].c] else []
  }

  /** The operation is over: it has issued its last statement. */
  predicate Over(s: State, n: nat) { n !in s.ops }

  // ---------------------------------------------------------------- what a completed operation leaves

  /** A cargo or vm has been created: the key, which had no status, has the created status and one more spec, the
      one that was sent, and the object's row, new in its table, carries the sent name and points to that spec. */
  ghost predicate Created(kind: Kind, key: string, spec: Choice, name: string, was: Part, now: Part) {
    && was.status.None? && spec.spec !in was.specs && ObjId(kind, key) !in was.rows
    && now == Part(was.specs[spec.spec := spec.data],
                   Some(Status(StatusKind.Create, StatusKind.Create, StatusKind.Create, StatusKind.Create)),
                   was.rows[ObjId(kind, key) := Row(name, key, Some(spec.spec))])
  }

  /** A job has been created: no spec, the rest as for a cargo. */
  ghost predicate JobCreated(key: string, name: string, was: Part, now: Part) {
    && was.status.None? && ObjId(JobKind, key) !in was.rows
    && now == Part(was.specs,
                   Some(Status(StatusKind.Create, StatusKind.Create, StatusKind.Create, StatusKind.Create)),
                   was.rows[ObjId(JobKind, key) := Row(name, key, None)])
  }

  /** A spec has been put: stored beside the earlier ones, with the sent status, and the row carries the sent name
      and points to it. */
  ghost predicate Put(id: ObjId, status: Status, spec: Choice, name: string, was: Part, now: Part) {
    && spec.spec !in was.specs && id in was.rows
    && now == Part(was.specs[spec.spec := spec.data], Some(status),
                   was.rows[id := was.rows[id].(name := name, specKey := Some(spec.spec))])
  }

  /** An object has been cleared: its row and status are gone, and unless it is a job every spec of its key. */
  ghost predicate Cleared(id: ObjId, was: Part, now: Part) {
    now == Part(if id.kind.JobKind? then was.specs else map[], None, was.rows - {id})
  }

  // ---------------------------------------------------------------- how far the operation has come

  /** After some statements of a cargo creation. */
  ghost predicate CargoStage(s: State, n: nat, key: string, cs: seq<Choice>, was: Part) {
    var now := PartOf(s.t, key);
    match |cs|
    case 0 => n in s.ops && s.ops[n] == CargoSpec(key) && now == was
    case 1 =>
      && n in s.ops && s.ops[n] == CargoStatus(key, cs[0].spec)
      && cs[0].spec !in was.specs && now == was.(specs := was.specs[cs[0].spec := cs[0].data])
    case 2 =>
      && n in s.ops && s.ops[n] == CargoRow(key, cs[0].spec) && was.status.None?
      && cs[0].spec !in was.specs && now == was.(specs := was.specs[cs[0].spec := cs[0].data], status := Some(CREATED))
    case 3 => n !in s.ops && Created(CargoKind, key, cs[0], cs[2].name, was, now)
    case _ => false
  }

  /** After some statements of a vm creation. */
  ghost predicate VmStage(s: State, n: nat, key: string, cs: seq<Choice>, was: Part) {
    var now := PartOf(s.t, key);
    match |cs|
    case 0 => n in s.ops && s.ops[n] == VmStatus(key) && now == was
    case 1 => n in s.ops && s.ops[n] == VmSpec(key) && was.status.None? && now == was.(status := Some(CREATED))
    case 2 =>
      && n in s.ops && s.ops[n] == VmRow(key, cs[1].spec) && was.status.None?
      && cs[1].spec !in was.specs && now == was.(specs := was.specs[cs[1].spec := cs[1].data], status := Some(CREATED))
    case 3 => n !in s.ops && Created(VmKind, key, cs[1], cs[2].name, was, now)
    case _ => false
  }

  /** After some statements of a job creation. */
  ghost predicate JobStage(s: State, n: nat, key: string, cs: seq<Choice>, was: Part) {
    var now := PartOf(s.t, key);
    match |cs|
    case 0 => n in s.ops && s.ops[n] == JobStatus(key) && now == was
    case 1 => n in s.ops && s.ops[n] == JobRow(key) && was.status.None? && now == was.(status := Some(CREATED))
    case 2 => n !in s.ops && JobCreated(key, cs[1].name, was, now)
    case _ => false
  }

  /** After some statements of a put. */
  ghost predicate PutStage(s: State, n: nat, id: ObjId, cs: seq<Choice>, was: Part) {
    var now := PartOf(s.t, id.key);
    match |cs|
    case 0 => n in s.ops && s.ops[n] == PutStatus(id) && now == was
    case 1 => n in s.ops && s.ops[n] == PutSpec(id) && now == was.(status := Some(cs[0].status))
    case 2 =>
      && n in s.ops && s.ops[n] == PutRow(id, cs[1].spec) && cs[1].spec !in was.specs && id in was.rows
      && now == was.(specs := was.specs[cs[1].spec := cs[1].data], status := Some(cs[0].status))
    case 3 => n !in s.ops && Put(id, cs[0].status, cs[1], cs[2].name, was, now)
    case _ => false
  }

  /** After some statements of a clearing. */
  ghost predicate ClearStage(s: State, n: nat, id: ObjId, cs: seq<Choice>, was: Part) {
    var now := PartOf(s.t, id.key);
    match |cs|
    case 0 => n in s.ops && s.ops[n] == ClearRow(id) && now == was
    case 1 =>
      && n in s.ops && s.ops[n] == (if id.kind.JobKind? then ClearStatus(id) else ClearSpecs(id))
      && now == was.(rows := was.rows - {id})
    case 2 =>
      if id.kind.JobKind? then n !in s.ops && Cleared(id, was, now)
      else n in s.ops && s.ops[n] == ClearStatus(id) && now == was.(specs := map[], rows := was.rows - {id})
    case 3 => !id.kind.JobKind? && n !in s.ops && Cleared(id, was, now)
    case _ => false
  }

  ghost predicate Stage(s: State, n: nat, op: Op, cs: seq<Choice>, was: Part)
    requires Initial(op)
  {
    match op
    case CargoSpec(key) => CargoStage(s, n, key, cs, was)
    case VmStatus(key) => VmStage(s, n, key, cs, was)
    case JobStatus(key) => JobStage(s, n, key, cs, was)
    case PutStatus(id) => PutStage(s, n, id, cs, was)
    case ClearRow(id) => ClearStage(s, n, id, cs, was)
  }

  lemma {:induction false} CargoNext(s: State, n: nat, key: string, cs: seq<Choice>, was: Part, c: Choice)
    requires CargoStage(s, n, key, cs, was) && Enabled(s, Advance(n, c))
    ensures CargoStage(Next(s, Advance(n, c)), n, key, cs + [c], was)
  {}

  lemma {:induction false} VmNext(s: State, n: nat, key: string, cs: seq<Choice>, was: Part, c: Choice)
    requires VmStage(s, n, key, cs, was) && Enabled(s, Advance(n, c))
    ensures VmStage(Next(s, Advance(n, c)), n, key, cs + [c], was)
  {}

  lemma {:induction false} JobNext(s: State, n: nat, key: string, cs: seq<Choice>, was: Part, c: Choice)
    requires JobStage(s, n, key, cs, was) && Enabled(s, Advance(n, c))
    ensures JobStage(Next(s, Advance(n, c)), n, key, cs + [c], was)
  {}

  lemma {:induction false} PutNext(s: State, n: nat, id: ObjId, cs: seq<Choice>, was: Part, c: Choice)
    requires PutStage(s, n, id, cs, was) && Enabled(s, Advance(n, c))
    ensures PutStage(Next(s, Advance(n, c)), n, id, cs + [c], was)
  {}

  lemma {:induction false} ClearNext(s: State, n: nat, id: ObjId, cs: seq<Choice>, was: Part, c: Choice)
    requires ClearStage(s, n, id, cs, was) && Enabled(s, Advance(n, c))
    ensures ClearStage(Next(s, Advance(n, c)), n, id, cs + [c], was)
  {}

  lemma {:induction false} StageNext(s: State, n: nat, op: Op, cs: seq<Choice>, was: Part, c: Choice)
    requires Initial(op) && Stage(s, n, op, cs, was) && Enabled(s, Advance(n, c)) && Sole(s, n, KeyOf(op))
    ensures Stage(Next(s, Advance(n, c)), n, op, cs + [c], was) && Sole(Next(s, Advance(n, c)), n, KeyOf(op))
  {
    match op {
      case CargoSpec(key) => CargoNext(s, n, key, cs, was, c);
      case VmStatus(key) => VmNext(s, n, key, cs, was, c);
      case JobStatus(key) => JobNext(s, n, key, cs, was, c);
      case PutStatus(id) => PutNext(s, n, id, cs, was, c);
      case ClearRow(id) => ClearNext(s, n, id, cs, was, c);
    }
  }

  lemma {:induction false} StageStays(s: State, m: Move, n: nat, op: Op, cs: seq<Choice>, was: Part)
    requires Initial(op) && Stage(s, n, op, cs, was) && n in s.ops && Sole(s, n, KeyOf(op))
    requires Enabled(s, m) && Elsewhere(s, m, n, KeyOf(op))
    ensures Stage(Next(s, m), n, op, cs, was) && Sole(Next(s, m), n, KeyOf(op))
  {
    ElsewhereKeeps(s, m, n, KeyOf(op));
  }

  lemma {:induction false} StageInRun(run: seq<Move>, start: nat, n: nat, op: Op)
    requires ValidRun(run) && Alone(run, start, n, op)
    ensures Initial(op) && Stage(After(run), n, op, Sent(run, start, n), Found(run, start, n, op))
    ensures Sole(After(run), n, KeyOf(op))
  {
    var init, m := run[..|run| - 1], run[|run| - 1];
    if |run| > start + 1 {
      StageInRun(init, start, n, op);
      if m.Advance? && m.n == n {
        StageNext(After(init), n, op, Sent(init, start, n), Found(init, start, n, op), m.c);
      } else {
        StageStays(After(init), m, n, op, Sent(init, start, n), Found(init, start, n, op));
      }
    }
  }

  // ---------------------------------------------------------------- the theorems

  /** A cargo creation that is alone on its key and over has stored what was sent, and nothing else. */
  lemma {:induction false} CompletedCargo(run: seq<Move>, start: nat, n: nat, key: string)
    requires ValidRun(run) && Alone(run, start, n, CargoSpec(key)) && Over(After(run), n)
    ensures var cs := Sent(run, start, n);
            |cs| == 3 && Created(CargoKind, key, cs[0], cs[2].name, Found(run, start, n, CargoSpec(key)),
                                 PartOf(After(run).t, key))
  {
    StageInRun(run, start, n, CargoSpec(key));
  }

  lemma {:induction false} CompletedVm(run: seq<Move>, start: nat, n: nat, key: string)
    requires ValidRun(run) && Alone(run, start, n, VmStatus(key)) && Over(After(run), n)
    ensures var cs := Sent(run, start, n);
            |cs| == 3 && Created(VmKind, key, cs[1], cs[2].name, Found(run, start, n, VmStatus(key)),
                                 PartOf(After(run).t, key))
  {
    StageInRun(run, start, n, VmStatus(key));
  }

  lemma {:induction false} CompletedJob(run: seq<Move>, start: nat, n: nat, key: string)
    requires ValidRun(run) && Alone(run, start, n, JobStatus(key)) && Over(After(run), n)
    ensures var cs := Sent(run, start, n);
            |cs| == 2 && JobCreated(key, cs[1].name, Found(run, start, n, JobStatus(key)), PartOf(After(run).t, key))
  {
    StageInRun(run, start, n, JobStatus(key));
  }

  /** A put that is alone on its key and over has stored the sent spec beside the earlier ones and the sent status,
      and the row carries the sent name and points to the sent spec. */
  lemma {:induction false} CompletedPut(run: seq<Move>, start: nat, n: nat, id: ObjId)
    requires ValidRun(run) && Alone(run, start, n, PutStatus(id)) && Over(After(run), n)
    ensures var cs := Sent(run, start, n);
            |cs| == 3 && Put(id, cs[0].status, cs[1], cs[2].name, Found(run, start, n, PutStatus(id)),
                             PartOf(After(run).t, id.key))
  {
    StageInRun(run, start, n, PutStatus(id));
  }

  /** A clearing that is alone on its key and over has left no row of the object, no status of its key and, unless
      it is a job, no spec of it. */
  lemma {:induction false} CompletedClearing(run: seq<Move>, start: nat, n: nat, id: ObjId)
    requires ValidRun(run) && Alone(run, start, n, ClearRow(id)) && Over(After(run), n)
    ensures Cleared(id, Found(run, start, n, ClearRow(id)), PartOf(After(run).t, id.key))
  {
    StageInRun(run, start, n, ClearRow(id));
  }

  /** A put to an object that is not there, alone on its key, stores no spec and changes no row, however far it
      gets; it can only have set the status, if the key had one. */
  lemma {:induction false} PutToNothing(run: seq<Move>, start: nat, n: nat, id: ObjId)
    requires ValidRun(run) && Alone(run, start, n, PutStatus(id)) && id !in Found(run, start, n, PutStatus(id)).rows
    ensures var was, now, cs := Found(run, start, n, PutStatus(id)), PartOf(After(run).t, id.key), Sent(run, start, n);
            && now.specs == was.specs && now.rows == was.rows
            && now.status == if cs == [] then was.status else Some(cs[0].status)
  {
    StageInRun(run, start, n, PutStatus(id));
  }

  /** A creation on a key that has a status, alone on its key, changes no row and no status, however far it gets; a
      cargo creation leaves its spec behind, a vm or job creation nothing. */
  lemma {:induction false} CreationOnTakenKey(run: seq<Move>, start: nat, n: nat, op: Op)
    requires ValidRun(run) && Alone(run, start, n, op) && (op.CargoSpec? || op.VmStatus? || op.JobStatus?)
    requires Found(run, start, n, op).status.Some?
    ensures var was, now, cs := Found(run, start, n, op), PartOf(After(run).t, op.key), Sent(run, start, n);
            if op.CargoSpec? && cs != [] then now == was.(specs := was.specs[cs[0].spec := cs[0].data]) else now == was
  {
    StageInRun(run, start, n, op);
  }

  // ---------------------------------------------------------------- every feasible operation can complete

  /** The object is there to be changed, or its key is free; the drawn spec key has never been drawn. */
  predicate Feasible(t: Tables, op: Op, c: Choice) {
    match op
    case CargoSpec(key) => key !in t.statuses && Fresh(t, c.spec) && c.data.kindKey == key
    case VmStatus(key) => key !in t.statuses && Fresh(t, c.spec) && c.data.kindKey == key
    case JobStatus(key) => key !in t.statuses
    case PutStatus(id) => !id.kind.JobKind? && id in t.rows && Fresh(t, c.spec) && c.data.kindKey == id.key
    case ClearRow(id) => id in t.rows && forall j | j in t.rows && j.key == id.key :: j == id
    case _ => false
  }

  /** Operation `n` can issue its last `k` statements, each sent with `c`, one after the other. */
  predicate CanFinish(s: State, n: nat, c: Choice, k: nat)
    decreases k
  {
    if k == 0 then n !in s.ops
    else n in s.ops && Enabled(s, Advance(n, c)) && CanFinish(Next(s, Advance(n, c)), n, c, k - 1)
  }

  lemma {:induction false} LastStatement(s: State, n: nat, c: Choice)
    requires n in s.ops && Enabled(s, Advance(n, c)) && Continue(s.ops[n], c).None?
    ensures CanFinish(s, n, c, 1)
  {
    assert CanFinish(Next(s, Advance(n, c)), n, c, 0);
  }

  /** Rows have their status, so a free key has no row. */
  lemma {:induction false} RowsHaveStatus(t: Tables)
    requires Sound(t)
    ensures forall id | id in t.rows :: id.key in t.statuses && t.rows[id].statusKey == id.key
  {
    forall id | id in t.rows ensures id.key in t.statuses && t.rows[id].statusKey == id.key {
      assert RowSound(t, id);
    }
  }

  lemma {:induction false} CargoFinishes(s: State, n: nat, key: string, c: Choice)
    requires Sound(s.t) && Feasible(s.t, CargoSpec(key), c) && n in s.ops && s.ops[n] == CargoSpec(key)
    ensures CanFinish(s, n, c, 3)
  {
    RowsHaveStatus(s.t);
    var s1 := Next(s, Advance(n, c));
    var s2 := Next(s1, Advance(n, c));
    LastStatement(s2, n, c);
    assert CanFinish(s1, n, c, 2);
  }

  lemma {:induction false} VmFinishes(s: State, n: nat, key: string, c: Choice)
    requires Sound(s.t) && Feasible(s.t, VmStatus(key), c) && n in s.ops && s.ops[n] == VmStatus(key)
    ensures CanFinish(s, n, c, 3)
  {
    RowsHaveStatus(s.t);
    var s1 := Next(s, Advance(n, c));
    var s2 := Next(s1, Advance(n, c));
    LastStatement(s2, n, c);
    assert CanFinish(s1, n, c, 2);
  }

  lemma {:induction false} JobFinishes(s: State, n: nat, key: string, c: Choice)
    requires Sound(s.t) && Feasible(s.t, JobStatus(key), c) && n in s.ops && s.ops[n] == JobStatus(key)
    ensures CanFinish(s, n, c, 2)
  {
    RowsHaveStatus(s.t);
    LastStatement(Next(s, Advance(n, c)), n, c);
  }

  lemma {:induction false} PutFinishes(s: State, n: nat, id: ObjId, c: Choice)
    requires Sound(s.t) && Feasible(s.t, PutStatus(id), c) && n in s.ops && s.ops[n] == PutStatus(id)
    ensures CanFinish(s, n, c, 3)
  {
    RowsHaveStatus(s.t);
    var s1 := Next(s, Advance(n, c));
    var s2 := Next(s1, Advance(n, c));
    LastStatement(s2, n, c);
    assert CanFinish(s1, n, c, 2);
  }

  /** Without the row, which is alone on its key, nothing refers to the key's specs and status. */
  lemma {:induction false} ClearedIsUnreferenced(t: Tables, id: ObjId)
    requires Sound(t) && id in t.rows && forall j | j in t.rows && j.key == id.key :: j == id
    ensures SpecsUnreferenced(DeleteRow(t, id), id.key) && StatusUnreferenced(DeleteRow(t, id), id.key)
  {
    forall j | j in t.rows && j != id
      ensures t.rows[j].statusKey != id.key
      ensures t.rows[j].specKey.Some? ==>
                t.rows[j].specKey.value in t.specs && t.specs[t.rows[j].specKey.value].kindKey != id.key
    {
      assert RowSound(t, j);
    }
  }

  lemma {:induction false} ClearingFinishes(s: State, n: nat, id: ObjId, c: Choice)
    requires Sound(s.t) && Feasible(s.t, ClearRow(id), c) && n in s.ops && s.ops[n] == ClearRow(id)
    ensures CanFinish(s, n, c, if id.kind.JobKind? then 2 else 3)
  {
    ClearedIsUnreferenced(s.t, id);
    var s1 := Next(s, Advance(n, c));
    if id.kind.JobKind? {
      LastStatement(s1, n, c);
    } else {
      var s2 := Next(s1, Advance(n, c));
      LastStatement(s2, n, c);
      assert CanFinish(s1, n, c, 2);
    }
  }

  lemma {:induction false} Finishes(s: State, n: nat, op: Op, c: Choice) returns (k: nat)
    requires Sound(s.t) && Feasible(s.t, op, c) && n in s.ops && s.ops[n] == op
    ensures CanFinish(s, n, c, k)
  {
    match op {
      case CargoSpec(key) => CargoFinishes(s, n, key, c); k := 3;
      case VmStatus(key) => VmFinishes(s, n, key, c); k := 3;
      case JobStatus(key) => JobFinishes(s, n, key, c); k := 2;
      case PutStatus(id) => PutFinishes(s, n, id, c); k := 3;
      case ClearRow(id) => ClearingFinishes(s, n, id, c); k := if id.kind.JobKind? then 2 else 3;
    }
  }

  lemma {:induction false} AdvancesAlone(run: seq<Move>, start: nat, n: nat, op: Op, c: Choice)
    requires ValidRun(run) && Alone(run, start, n, op) && n in After(run).ops && Enabled(After(run), Advance(n, c))
    requires forall x | x in Sent(run, start, n) :: x == c
    ensures var longer := run + [Advance(n, c)];
            && ValidRun(longer) && Alone(longer, start, n, op)
            && After(longer) == Next(After(run), Advance(n, c))
            && forall x | x in Sent(longer, start, n) :: x == c
  {
    var longer := run + [Advance(n, c)];
    assert longer[..|longer| - 1] == run;
    assert Sent(longer, start, n) == Sent(run, start, n) + [c];
  }

  lemma {:induction false} RunsOut(run: seq<Move>, start: nat, n: nat, op: Op, c: Choice, k: nat)
    returns (run': seq<Move>)
    requires ValidRun(run) && Alone(run, start, n, op) && CanFinish(After(run), n, c, k)
    requires forall x | x in Sent(run, start, n) :: x == c
    ensures ValidRun(run') && Alone(run', start, n, op) && Over(After(run'), n)
    ensures forall x | x in Sent(run', start, n) :: x == c
    decreases k
  {
    if k == 0 {
      run' := run;
    } else {
      AdvancesAlone(run, start, n, op, c);
      run' := RunsOut(run + [Advance(n, c)], start, n, op, c, k - 1);
    }
  }

  /** From every point of every run, an operation that is feasible, on a key nobody works on, can be carried
      through alone. */
  lemma {:induction false} FeasibleCompletes(run: seq<Move>, n: nat, op: Op, c: Choice) returns (run': seq<Move>)
    requires ValidRun(run) && n !in After(run).ops && Sole(After(run), n, KeyOf(op)) && Feasible(After(run).t, op, c)
    ensures ValidRun(run') && Alone(run', |run|, n, op) && Over(After(run'), n)
    ensures forall x | x in Sent(run', |run|, n) :: x == c
  {
    RunKeepsRefs(run);
    var begun := run + [Begin(n, op)];
    assert begun[..|begun| - 1] == run;
    var k := Finishes(After(begun), n, op, c);
    run' := RunsOut(begun, |run|, n, op, c, k);
  }
}
