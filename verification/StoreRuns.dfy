/** Creations, updates and deletions of objects, statement by statement and in any interleaving, each
    possibly stopping half way. */
module StoreRuns {
  import opened Options
  import opened Store

  /** An operation, named by the statement it is about to issue.  Cargoes store their spec before they
      claim their status, vms afterwards, and jobs have no spec of their own. */
  datatype Op =
    | CargoSpec(key: string)
    | CargoStatus(key: string, spec: Uuid)
    | CargoRow(key: string, spec: Uuid)
    | VmStatus(key: string)
    | VmSpec(key: string)
    | VmRow(key: string, spec: Uuid)
    | JobStatus(key: string)
    | JobRow(key: string)
    | PutStatus(id: ObjId)
    | PutSpec(id: ObjId)
    | PutRow(id: ObjId, spec: Uuid)
    | ClearRow(id: ObjId)
    | ClearSpecs(id: ObjId)
    | ClearStatus(id: ObjId)

  function KeyOf(op: Op): string {
    match op
    case PutStatus(id) => id.key
    case PutSpec(id) => id.key
    case PutRow(id, _) => id.key
    case ClearRow(id) => id.key
    case ClearSpecs(id) => id.key
    case ClearStatus(id) => id.key
    case _ => op.key
  }

  predicate Initial(op: Op) {
    op.CargoSpec? || op.VmStatus? || op.JobStatus? || (op.PutStatus? && !op.id.kind.JobKind?) || op.ClearRow?
  }

  predicate Clears(op: Op) { op.ClearRow? || op.ClearSpecs? || op.ClearStatus? }

  datatype State = State(t: Tables, ops: map<nat, Op>)

  /** What the statements write: a fresh spec key, a spec and a name. */
  datatype Choice = Choice(spec: Uuid, data: SpecRow, name: string, status: Status)

  datatype Move =
    | Begin(n: nat, op: Op)
    | Advance(n: nat, c: Choice)
    | GiveUp(n: nat)
    | ForeignSpec(c: Choice)           // a resource or resource kind stores a spec
    | ForeignDelete(key: string)       // a resource or resource kind deletes its specs

  /** The statement finds the rows it needs, foreign keys aside. */
  predicate RowsPermit(t: Tables, op: Op, c: Choice) {
    match op
    case CargoSpec(k) => Fresh(t, c.spec) && c.data.kindKey == k
    case VmSpec(k) => Fresh(t, c.spec) && c.data.kindKey == k
    case PutSpec(id) => Fresh(t, c.spec) && c.data.kindKey == id.key && id in t.rows
    case CargoStatus(k, _) => k !in t.statuses
    case VmStatus(k) => k !in t.statuses
    case JobStatus(k) => k !in t.statuses
    case CargoRow(k, _) => ObjId(CargoKind, k) !in t.rows
    case VmRow(k, _) => ObjId(VmKind, k) !in t.rows
    case JobRow(k) => ObjId(JobKind, k) !in t.rows
    case PutStatus(id) => id.key in t.statuses
    case PutRow(id, _) => id in t.rows
    case _ => true
  }

  /** The foreign keys let the statement pass. */
  predicate KeysPermit(t: Tables, op: Op) {
    match op
    case CargoRow(k, u) => k in t.statuses && u in t.specs
    case VmRow(k, u) => k in t.statuses && u in t.specs
    case JobRow(k) => k in t.statuses
    case PutRow(id, u) => u in t.specs
    case ClearSpecs(id) => SpecsUnreferenced(t, id.key)
    case ClearStatus(id) => StatusUnreferenced(t, id.key)
    case _ => true
  }

  function Effect(t: Tables, op: Op, c: Choice): Tables {
    match op
    case CargoSpec(_) => InsertSpec(t, c.spec, c.data)
    case VmSpec(_) => InsertSpec(t, c.spec, c.data)
    case PutSpec(_) => InsertSpec(t, c.spec, c.data)
    case CargoStatus(k, _) => SetStatus(t, k, CREATED)
    case VmStatus(k) => SetStatus(t, k, CREATED)
    case JobStatus(k) => SetStatus(t, k, CREATED)
    case CargoRow(k, u) => SetRow(t, ObjId(CargoKind, k), Row(c.name, k, Some(u)))
    case VmRow(k, u) => SetRow(t, ObjId(VmKind, k), Row(c.name, k, Some(u)))
    case JobRow(k) => SetRow(t, ObjId(JobKind, k), Row(c.name, k, None))
    case PutStatus(id) => SetStatus(t, id.key, c.status)
    case PutRow(id, u) =>
      if id in t.rows then SetRow(t, id, t.rows[id].(name := c.name, specKey := Some(u))) else t
    case ClearRow(id) => DeleteRow(t, id)
    case ClearSpecs(id) => DeleteSpecs(t, id.key)
    case ClearStatus(id) => DeleteStatus(t, id.key)
  }

  /** The statement after this one, if any. */
  function Continue(op: Op, c: Choice): Option<Op> {
    match op
    case CargoSpec(k) => Some(CargoStatus(k, c.spec))
    case CargoStatus(k, u) => Some(CargoRow(k, u))
    case VmStatus(k) => Some(VmSpec(k))
    case VmSpec(k) => Some(VmRow(k, c.spec))
    case JobStatus(k) => Some(JobRow(k))
    case PutStatus(id) => Some(PutSpec(id))
    case PutSpec(id) => Some(PutRow(id, c.spec))
    case ClearRow(id) => Some(if id.kind.JobKind? then ClearStatus(id) else ClearSpecs(id))
    case ClearSpecs(id) => Some(ClearStatus(id))
    case _ => None
  }

  function WithOp(ops: map<nat, Op>, n: nat, op: Option<Op>): map<nat, Op> {
    if op.Some? then ops[n := op.value] else ops - {n}
  }

  /** A clearing begins when its object has been read, so the object exists then. */
  predicate MayBegin(s: State, op: Op) {
    Initial(op) && (op.ClearRow? ==> op.id in s.t.rows)
  }

  predicate Enabled(s: State, m: Move) {
    match m
    case Begin(n, op) => n !in s.ops && MayBegin(s, op)
    case Advance(n, c) => n in s.ops && RowsPermit(s.t, s.ops[n], c) && KeysPermit(s.t, s.ops[n])
    case GiveUp(n) => n in s.ops
    case ForeignSpec(c) => Fresh(s.t, c.spec)
    case ForeignDelete(k) => SpecsUnreferenced(s.t, k)
  }

  function Next(s: State, m: Move): State
    requires Enabled(s, m)
  {
    match m
    case Begin(n, op) => s.(ops := s.ops[n := op])
    case Advance(n, c) => State(Effect(s.t, s.ops[n], c), WithOp(s.ops, n, Continue(s.ops[n], c)))
    case GiveUp(n) => s.(ops := s.ops - {n})
    case ForeignSpec(c) => s.(t := InsertSpec(s.t, c.spec, c.data))
    case ForeignDelete(k) => s.(t := DeleteSpecs(s.t, k))
  }

  const INIT: State := State(EMPTY, map[])

  predicate ValidRun(run: seq<Move>)
    decreases |run|, 0
  {
    run == [] || (ValidRun(run[..|run| - 1]) && Enabled(After(run[..|run| - 1]), run[|run| - 1]))
  }

  function After(run: seq<Move>): State
    requires ValidRun(run)
    decreases |run|, 1
  {
    if run == [] then INIT else Next(After(run[..|run| - 1]), run[|run| - 1])
  }

  // ---------------------------------------------------------------- references, in every run

  /** A spec an operation remembers is one stored for its key, as long as it is stored at all. */
  predicate Remembers(t: Tables, op: Op) {
    (op.CargoStatus? || op.CargoRow? || op.VmRow? || op.PutRow?) ==>
      op.spec in t.used && (op.spec in t.specs ==> t.specs[op.spec].kindKey == KeyOf(op))
  }

  /** Jobs have no specs to put or to clear. */
  predicate SuitsKind(op: Op) {
    op.ClearSpecs? || op.PutStatus? || op.PutSpec? || op.PutRow? ==> !op.id.kind.JobKind?
  }

  predicate Refs(s: State) {
    Sound(s.t) && forall n | n in s.ops :: Remembers(s.t, s.ops[n]) && SuitsKind(s.ops[n])
  }

  lemma {:induction false} EffectKeepsSound(t: Tables, op: Op, c: Choice)
    requires Sound(t) && Remembers(t, op) && SuitsKind(op) && RowsPermit(t, op, c) && KeysPermit(t, op)
    ensures Sound(Effect(t, op, c))
  {
    var t' := Effect(t, op, c);
    forall id | id in t'.rows ensures RowSound(t', id) {
      if id in t.rows { assert RowSound(t, id); }
    }
  }

  /** What one statement does to what another operation remembers: nothing that matters. */
  lemma {:induction false} EffectKeepsMemory(t: Tables, op: Op, c: Choice, other: Op)
    requires Remembers(t, other) && RowsPermit(t, op, c)
    ensures Remembers(Effect(t, op, c), other)
  {}

  lemma {:induction false} ContinueRemembers(t: Tables, op: Op, c: Choice)
    requires Remembers(t, op) && SuitsKind(op) && RowsPermit(t, op, c) && Continue(op, c).Some?
    ensures Remembers(Effect(t, op, c), Continue(op, c).value) && SuitsKind(Continue(op, c).value)
  {}

  lemma {:induction false} StepKeepsRefs(s: State, m: Move)
    requires Refs(s) && Enabled(s, m)
    ensures Refs(Next(s, m))
  {
    match m {
      case Advance(n, c) =>
        var op, s' := s.ops[n], Next(s, m);
        EffectKeepsSound(s.t, op, c);
        forall q | q in s'.ops ensures Remembers(s'.t, s'.ops[q]) && SuitsKind(s'.ops[q]) {
          if q == n {
            ContinueRemembers(s.t, op, c);
          } else {
            EffectKeepsMemory(s.t, op, c, s.ops[q]);
          }
        }
      case ForeignSpec(c) =>
        forall id | id in s.t.rows ensures RowSound(Next(s, m).t, id) { assert RowSound(s.t, id); }
      case _ =>
    }
  }

  lemma {:induction false} RunKeepsRefs(run: seq<Move>)
    requires ValidRun(run)
    ensures Refs(After(run))
  {
    if run != [] {
      RunKeepsRefs(run[..|run| - 1]);
      StepKeepsRefs(After(run[..|run| - 1]), run[|run| - 1]);
    }
  }

  // ---------------------------------------------------------------- clearings apart

  /** The step does not begin a second clearing of an object that is being cleared. */
  predicate Apart(s: State, m: Move) {
    m.Begin? && m.op.ClearRow? ==> forall q | q in s.ops :: !(Clears(s.ops[q]) && s.ops[q].id == m.op.id)
  }

  predicate ClearsApart(run: seq<Move>)
    requires ValidRun(run)
  {
    run == [] || (ClearsApart(run[..|run| - 1]) && Apart(After(run[..|run| - 1]), run[|run| - 1]))
  }

  /** The operation holds the status row of its key: it has created it and not yet handed it to a row, or
      has deleted the row and not yet the status. */
  predicate Claims(op: Op) {
    op.CargoRow? || op.VmSpec? || op.VmRow? || op.JobRow? || op.ClearSpecs? || op.ClearStatus?
  }

  /** Each key has at most one holder, a row or a claiming operation, and a held key has its status. */
  predicate OneHolder(s: State) {
    && KeysDisjoint(s.t)
    && (forall n, id | n in s.ops && Claims(s.ops[n]) && id in s.t.rows :: id.key != KeyOf(s.ops[n]))
    && (forall n, m | n in s.ops && m in s.ops && n != m && Claims(s.ops[n]) && Claims(s.ops[m]) ::
          KeyOf(s.ops[n]) != KeyOf(s.ops[m]))
    && (forall n | n in s.ops && Claims(s.ops[n]) :: KeyOf(s.ops[n]) in s.t.statuses)
  }

  predicate ClearsOk(s: State) {
    && (forall n | n in s.ops && s.ops[n].ClearRow? :: s.ops[n].id in s.t.rows)
    && (forall n, m | n in s.ops && m in s.ops && n != m && Clears(s.ops[n]) && Clears(s.ops[m]) ::
          s.ops[n].id != s.ops[m].id)
    && (forall n | n in s.ops && s.ops[n].ClearSpecs? :: !s.ops[n].id.kind.JobKind?)
    && (forall n | n in s.ops && (s.ops[n].PutStatus? || s.ops[n].PutSpec? || s.ops[n].PutRow?) ::
          !s.ops[n].id.kind.JobKind?)
  }

  predicate Inv(s: State) {
    && Sound(s.t)
    && (forall n | n in s.ops :: Remembers(s.t, s.ops[n]))
    && OneHolder(s)
    && ClearsOk(s)
  }

  // ---------------------------------------------------------------- preservation

  lemma {:induction false} BeginKeepsHolder(s: State, n: nat, op: Op)
    requires OneHolder(s) && n !in s.ops && Initial(op)
    ensures OneHolder(s.(ops := s.ops[n := op]))
  {
    assert !Claims(op);
  }

  lemma {:induction false} BeginKeepsClears(s: State, n: nat, op: Op)
    requires ClearsOk(s) && n !in s.ops && Initial(op) && (op.ClearRow? ==> op.id in s.t.rows)
    requires Apart(s, Begin(n, op))
    ensures ClearsOk(s.(ops := s.ops[n := op]))
  {}

  lemma {:induction false} BeginKeepsInv(s: State, n: nat, op: Op)
    requires Inv(s) && Enabled(s, Begin(n, op)) && Apart(s, Begin(n, op))
    ensures Inv(Next(s, Begin(n, op)))
  {
    BeginKeepsHolder(s, n, op);
    BeginKeepsClears(s, n, op);
    var ops := s.ops[n := op];
    forall m | m in ops ensures Remembers(s.t, ops[m]) {}
  }

  lemma {:induction false} GiveUpKeepsInv(s: State, n: nat)
    requires Inv(s) && Enabled(s, GiveUp(n))
    ensures Inv(Next(s, GiveUp(n)))
  {}

  /** New specs get new keys, so nothing that is remembered or referenced changes its owner. */
  lemma {:induction false} InsertSpecKeepsInv(s: State, u: Uuid, row: SpecRow)
    requires Inv(s) && Fresh(s.t, u)
    ensures Inv(s.(t := InsertSpec(s.t, u, row)))
  {
    var t' := InsertSpec(s.t, u, row);
    assert forall v | v in s.t.specs :: v in t'.specs && t'.specs[v] == s.t.specs[v];
  }

  lemma {:induction false} DeleteSpecsKeepsInv(s: State, key: string)
    requires Inv(s) && SpecsUnreferenced(s.t, key)
    ensures Inv(s.(t := DeleteSpecs(s.t, key)))
  {}

  lemma {:induction false} SetStatusKeepsInv(s: State, key: string, status: Status)
    requires Inv(s)
    ensures Inv(s.(t := SetStatus(s.t, key, status)))
  {}

  /** Nobody but operation `n` has anything to do with the status row of `key`. */
  predicate Unheld(s: State, n: nat, key: string) {
    && key in s.t.statuses
    && (forall id | id in s.t.rows :: id.key != key)
    && (forall m | m in s.ops && m != n && Claims(s.ops[m]) :: KeyOf(s.ops[m]) != key)
  }

  /** Replacing operation `n` by a later stage that holds no more than before. */
  lemma {:induction false} ReplaceKeepsInv(s: State, n: nat, op: Op)
    requires Inv(s) && n in s.ops && Remembers(s.t, op) && KeyOf(op) == KeyOf(s.ops[n])
    requires Claims(op) ==> Claims(s.ops[n]) || Unheld(s, n, KeyOf(op))
    requires Clears(op) ==> Clears(s.ops[n]) && op.id == s.ops[n].id && !op.ClearRow?
    requires op.ClearSpecs? || op.PutStatus? || op.PutSpec? || op.PutRow? ==> !op.id.kind.JobKind?
    ensures Inv(s.(ops := s.ops[n := op]))
  {
    var s' := s.(ops := s.ops[n := op]);
    assert OneHolder(s');
    assert ClearsOk(s');
  }

  lemma {:induction false} SpecStepAfter(s: State, n: nat, c: Choice)
    requires Inv(s) && n in s.ops && (s.ops[n].CargoSpec? || s.ops[n].VmSpec? || s.ops[n].PutSpec?)
    requires c.spec in s.t.used && c.spec in s.t.specs && s.t.specs[c.spec].kindKey == KeyOf(s.ops[n])
    ensures Inv(s.(ops := s.ops[n := Continue(s.ops[n], c).value]))
  {
    ReplaceKeepsInv(s, n, Continue(s.ops[n], c).value);
  }

  lemma {:induction false} SpecStepKeepsInv(s: State, n: nat, c: Choice)
    requires Inv(s) && Enabled(s, Advance(n, c))
    requires s.ops[n].CargoSpec? || s.ops[n].VmSpec? || s.ops[n].PutSpec?
    ensures Inv(Next(s, Advance(n, c)))
  {
    var s1, op := s.(t := InsertSpec(s.t, c.spec, c.data)), Continue(s.ops[n], c).value;
    InsertSpecKeepsInv(s, c.spec, c.data);
    SpecStepAfter(s1, n, c);
    assert Next(s, Advance(n, c)) == s1.(ops := s1.ops[n := op]);
  }

  lemma {:induction false} ClaimStepAfter(s: State, n: nat, c: Choice)
    requires Inv(s) && n in s.ops && (s.ops[n].CargoStatus? || s.ops[n].VmStatus? || s.ops[n].JobStatus?)
    requires Unheld(s, n, KeyOf(s.ops[n]))
    ensures Inv(s.(ops := s.ops[n := Continue(s.ops[n], c).value]))
  {
    ReplaceKeepsInv(s, n, Continue(s.ops[n], c).value);
  }

  /** Claiming: nobody can hold a key whose status does not exist. */
  lemma {:induction false} ClaimKeepsInv(s: State, n: nat, c: Choice)
    requires Inv(s) && Enabled(s, Advance(n, c))
    requires s.ops[n].CargoStatus? || s.ops[n].VmStatus? || s.ops[n].JobStatus?
    ensures Inv(Next(s, Advance(n, c)))
  {
    var k, op := KeyOf(s.ops[n]), Continue(s.ops[n], c).value;
    assert forall id | id in s.t.rows :: id.key != k;
    SetStatusKeepsInv(s, k, CREATED);
    var s1 := s.(t := SetStatus(s.t, k, CREATED));
    ClaimStepAfter(s1, n, c);
    assert Next(s, Advance(n, c)) == s1.(ops := s1.ops[n := op]);
  }

  lemma {:induction false} RefsOfInv(s: State)
    requires Inv(s)
    ensures Refs(s)
  {}

  lemma {:induction false} RowStepKeepsHolder(s: State, n: nat, c: Choice)
    requires Refs(s) && OneHolder(s) && Enabled(s, Advance(n, c))
    requires s.ops[n].CargoRow? || s.ops[n].VmRow? || s.ops[n].JobRow?
    ensures OneHolder(Next(s, Advance(n, c)))
  {}

  lemma {:induction false} RowStepKeepsClears(s: State, n: nat, c: Choice)
    requires ClearsOk(s) && Enabled(s, Advance(n, c))
    requires s.ops[n].CargoRow? || s.ops[n].VmRow? || s.ops[n].JobRow?
    ensures ClearsOk(Next(s, Advance(n, c)))
  {}

  lemma {:induction false} RowStepKeepsInv(s: State, n: nat, c: Choice)
    requires Inv(s) && Enabled(s, Advance(n, c))
    requires s.ops[n].CargoRow? || s.ops[n].VmRow? || s.ops[n].JobRow?
    ensures Inv(Next(s, Advance(n, c)))
  {
    RefsOfInv(s);
    StepKeepsRefs(s, Advance(n, c));
    RowStepKeepsHolder(s, n, c);
    RowStepKeepsClears(s, n, c);
  }

  lemma {:induction false} PutRowKeepsInv(s: State, s': State, n: nat)
    requires OneHolder(s) && ClearsOk(s) && Refs(s') && s'.ops == s.ops - {n}
    requires s'.t.rows.Keys == s.t.rows.Keys && s'.t.statuses == s.t.statuses
    ensures Inv(s')
  {
    assert OneHolder(s');
    assert ClearsOk(s');
  }

  lemma {:induction false} PutStatusKeepsInv(s: State, n: nat, c: Choice)
    requires Inv(s) && Enabled(s, Advance(n, c)) && s.ops[n].PutStatus?
    ensures Inv(Next(s, Advance(n, c)))
  {
    var s1 := s.(t := SetStatus(s.t, KeyOf(s.ops[n]), c.status));
    SetStatusKeepsInv(s, KeyOf(s.ops[n]), c.status);
    ReplaceKeepsInv(s1, n, PutSpec(s.ops[n].id));
    assert Next(s, Advance(n, c)) == s1.(ops := s1.ops[n := PutSpec(s.ops[n].id)]);
  }

  lemma {:induction false} PutStepKeepsInv(s: State, n: nat, c: Choice)
    requires Inv(s) && Enabled(s, Advance(n, c))
    requires s.ops[n].PutStatus? || s.ops[n].PutRow?
    ensures Inv(Next(s, Advance(n, c)))
  {
    if s.ops[n].PutStatus? {
      PutStatusKeepsInv(s, n, c);
    } else {
      RefsOfInv(s);
      StepKeepsRefs(s, Advance(n, c));
      PutRowKeepsInv(s, Next(s, Advance(n, c)), n);
    }
  }

  lemma {:induction false} ClearRowKeepsInv(s: State, n: nat, c: Choice)
    requires Inv(s) && Enabled(s, Advance(n, c)) && s.ops[n].ClearRow?
    ensures Inv(Next(s, Advance(n, c)))
  {
    var id := s.ops[n].id;
    var op := if id.kind.JobKind? then ClearStatus(id) else ClearSpecs(id);
    assert RowSound(s.t, id);
    HandOverKeepsHolder(s, n, op);
  }

  /** The clearing operation takes over from the row it deletes. */
  lemma {:induction false} HandOverKeepsHolder(s: State, n: nat, op: Op)
    requires Inv(s) && n in s.ops && s.ops[n].ClearRow? && s.ops[n].id.key in s.t.statuses
    requires op.ClearStatus? || (op.ClearSpecs? && !op.id.kind.JobKind?)
    requires op.id == s.ops[n].id
    ensures Inv(State(DeleteRow(s.t, op.id), s.ops[n := op]))
  {
    assert op.id in s.t.rows;
    assert forall m | m in s.ops && m != n && Claims(s.ops[m]) :: KeyOf(s.ops[m]) != op.id.key;
    DeleteRowKeepsSound(s.t, op.id);
    var s' := State(DeleteRow(s.t, op.id), s.ops[n := op]);
    HandOverKeepsOneHolder(s, s', n, op);
    HandOverKeepsClears(s, s', n, op);
    forall m | m in s'.ops ensures Remembers(s'.t, s'.ops[m]) {}
  }

  lemma {:induction false} DeleteRowKeepsSound(t: Tables, id: ObjId)
    requires Sound(t) && KeysDisjoint(t) && id in t.rows
    ensures Sound(DeleteRow(t, id)) && KeysDisjoint(DeleteRow(t, id))
    ensures forall i | i in DeleteRow(t, id).rows :: i.key != id.key
  {
    var t' := DeleteRow(t, id);
    forall i | i in t'.rows ensures RowSound(t', i) {
      assert RowSound(t, i);
    }
  }

  lemma {:induction false} HandOverKeepsOneHolder(s: State, s': State, n: nat, op: Op)
    requires n in s.ops && s'.ops == s.ops[n := op] && (op.ClearStatus? || op.ClearSpecs?)
    requires OneHolder(s) && KeysDisjoint(s'.t) && s'.t.statuses == s.t.statuses && op.id.key in s.t.statuses
    requires s'.t.rows == s.t.rows - {op.id}
    requires forall i | i in s'.t.rows :: i.key != op.id.key
    requires forall m | m in s.ops && m != n && Claims(s.ops[m]) :: KeyOf(s.ops[m]) != op.id.key
    ensures OneHolder(s')
  {}

  lemma {:induction false} HandOverKeepsClears(s: State, s': State, n: nat, op: Op)
    requires n in s.ops && s'.ops == s.ops[n := op] && (op.ClearStatus? || op.ClearSpecs?)
    requires ClearsOk(s) && s.ops[n].ClearRow? && s.ops[n].id == op.id && s'.t.rows == s.t.rows - {op.id}
    requires op.ClearSpecs? ==> !op.id.kind.JobKind?
    ensures ClearsOk(s')
  {}

  lemma {:induction false} ClearStatusKeepsInv(s: State, n: nat, c: Choice)
    requires Inv(s) && Enabled(s, Advance(n, c)) && s.ops[n].ClearStatus?
    ensures Inv(Next(s, Advance(n, c)))
  {
    var s' := Next(s, Advance(n, c));
    assert s'.ops == s.ops - {n};
    assert Sound(s'.t);
    assert OneHolder(s');
    assert ClearsOk(s');
  }

  lemma {:induction false} ClearStepKeepsInv(s: State, n: nat, c: Choice)
    requires Inv(s) && Enabled(s, Advance(n, c)) && Clears(s.ops[n])
    ensures Inv(Next(s, Advance(n, c)))
  {
    match s.ops[n] {
      case ClearRow(_) => ClearRowKeepsInv(s, n, c);
      case ClearStatus(_) => ClearStatusKeepsInv(s, n, c);
      case ClearSpecs(id) =>
        DeleteSpecsKeepsInv(s, id.key);
        ReplaceKeepsInv(s.(t := DeleteSpecs(s.t, id.key)), n, ClearStatus(id));
    }
  }

  lemma {:induction false} StepKeepsInv(s: State, m: Move)
    requires Inv(s) && Enabled(s, m) && Apart(s, m)
    ensures Inv(Next(s, m))
  {
    match m {
      case Begin(n, op) => BeginKeepsInv(s, n, op);
      case GiveUp(n) => GiveUpKeepsInv(s, n);
      case ForeignSpec(c) => InsertSpecKeepsInv(s, c.spec, c.data);
      case ForeignDelete(k) => DeleteSpecsKeepsInv(s, k);
      case Advance(n, c) =>
        var op := s.ops[n];
        if op.CargoSpec? || op.VmSpec? || op.PutSpec? {
          SpecStepKeepsInv(s, n, c);
        } else if op.CargoStatus? || op.VmStatus? || op.JobStatus? {
          ClaimKeepsInv(s, n, c);
        } else if op.CargoRow? || op.VmRow? || op.JobRow? {
          RowStepKeepsInv(s, n, c);
        } else if op.PutStatus? || op.PutRow? {
          PutStepKeepsInv(s, n, c);
        } else {
          ClearStepKeepsInv(s, n, c);
        }
    }
  }

  lemma {:induction false} RunKeepsInv(run: seq<Move>)
    requires ValidRun(run) && ClearsApart(run)
    ensures Inv(After(run))
  {
    if run != [] {
      RunKeepsInv(run[..|run| - 1]);
      StepKeepsInv(After(run[..|run| - 1]), run[|run| - 1]);
    }
  }

  // ---------------------------------------------------------------- the theorems

  /** After every single statement of every run, with creations, updates and clearings interleaved in any
      way and stopping anywhere, every row has its status row and, unless it is a job, a spec stored for
      its own key.  If moreover no object was cleared twice at once, no key is held by two of the cargo,
      vm and job tables. */
  lemma {:induction false} TablesStaySound(run: seq<Move>)
    requires ValidRun(run)
    ensures var t := After(run).t;
            && (forall id | id in t.rows ::
                  && t.rows[id].statusKey == id.key && id.key in t.statuses
                  && (!id.kind.JobKind? ==>
                        && t.rows[id].specKey.Some? && t.rows[id].specKey.value in t.specs
                        && t.specs[t.rows[id].specKey.value].kindKey == id.key))
            && (ClearsApart(run) ==> forall i, j | i in t.rows && j in t.rows && i.key == j.key :: i.kind == j.kind)
  {
    RunKeepsRefs(run);
    var t := After(run).t;
    forall id | id in t.rows ensures RowSound(t, id) {}
    if ClearsApart(run) { RunKeepsInv(run); }
  }

  // ---------------------------------------------------------------- without overlap

  /** One operation at a time on each key, and no resource deletes the specs of a key an object has or is
      getting; what specs resources store does not matter. */
  predicate Orderly(s: State, m: Move) {
    match m
    case Begin(_, op) => forall n | n in s.ops :: KeyOf(s.ops[n]) != KeyOf(op)
    case ForeignDelete(k) => (forall id | id in s.t.rows :: id.key != k)
            && (forall n | n in s.ops :: KeyOf(s.ops[n]) != k)
    case _ => true
  }

  predicate OrderlyRun(run: seq<Move>)
    requires ValidRun(run)
  {
    run == [] || (OrderlyRun(run[..|run| - 1]) && Orderly(After(run[..|run| - 1]), run[|run| - 1]))
  }

  /** One operation at a time on a key means one clearing at a time of an object. */
  lemma {:induction false} OrderlyIsApart(run: seq<Move>)
    requires ValidRun(run) && OrderlyRun(run)
    ensures ClearsApart(run)
  {
    if run != [] {
      OrderlyIsApart(run[..|run| - 1]);
      var s, m := After(run[..|run| - 1]), run[|run| - 1];
      if m.Begin? && m.op.ClearRow? {
        forall q | q in s.ops ensures !(Clears(s.ops[q]) && s.ops[q].id == m.op.id) {
          assert KeyOf(s.ops[q]) != KeyOf(m.op);
        }
      }
    }
  }

  /** In an orderly run an operation's spec is still there when it is needed. */
  predicate Alone(s: State) {
    && (forall n, m | n in s.ops && m in s.ops && n != m :: KeyOf(s.ops[n]) != KeyOf(s.ops[m]))
    && (forall n | n in s.ops && NeedsSpec(s.ops[n]) ::
          s.ops[n].spec in s.t.specs)
  }

  predicate NeedsSpec(op: Op) { op.CargoStatus? || op.CargoRow? || op.VmRow? || op.PutRow? }

  /** In an orderly step nobody deletes the specs of a key another operation is working on. */
  lemma {:induction false} SpecSurvives(s: State, m: Move, n: nat)
    requires Inv(s) && Alone(s) && Enabled(s, m) && Orderly(s, m)
    requires n in s.ops && NeedsSpec(s.ops[n])
    ensures s.ops[n].spec in Next(s, m).t.specs
  {
    var u := s.ops[n].spec;
    assert u in s.t.specs && s.t.specs[u].kindKey == KeyOf(s.ops[n]);
    if m.Advance? && s.ops[m.n].ClearSpecs? {
      assert m.n != n;
      assert KeyOf(s.ops[m.n]) != KeyOf(s.ops[n]);
    }
  }

  lemma {:induction false} ContinueKeepsKey(op: Op, c: Choice)
    ensures Continue(op, c).Some? ==> KeyOf(Continue(op, c).value) == KeyOf(op)
    ensures Continue(op, c).Some? && NeedsSpec(Continue(op, c).value) && !NeedsSpec(op) ==>
              (op.CargoSpec? || op.VmSpec? || op.PutSpec?) && Continue(op, c).value.spec == c.spec
    ensures Continue(op, c).Some? && NeedsSpec(Continue(op, c).value) && NeedsSpec(op) ==>
              Continue(op, c).value.spec == op.spec
  {}

  lemma {:induction false} AdvanceKeepsKeys(s: State, n: nat, c: Choice)
    requires Enabled(s, Advance(n, c))
    ensures forall m | m in Next(s, Advance(n, c)).ops ::
              m in s.ops && KeyOf(Next(s, Advance(n, c)).ops[m]) == KeyOf(s.ops[m])
    ensures forall m | m in s.ops && m != n ::
          m in Next(s, Advance(n, c)).ops && Next(s, Advance(n, c)).ops[m] == s.ops[m]
  {
    ContinueKeepsKey(s.ops[n], c);
  }

  lemma {:induction false} AdvanceKeepsAlone(s: State, n: nat, c: Choice)
    requires Inv(s) && Alone(s) && Enabled(s, Advance(n, c))
    ensures Alone(Next(s, Advance(n, c)))
  {
    var s' := Next(s, Advance(n, c));
    AdvanceKeepsKeys(s, n, c);
    ContinueKeepsKey(s.ops[n], c);
    forall m | m in s'.ops && NeedsSpec(s'.ops[m]) ensures s'.ops[m].spec in s'.t.specs {
      if NeedsSpec(s.ops[m]) {
        SpecSurvives(s, Advance(n, c), m);
      }
    }
  }

  lemma {:induction false} StepKeepsAlone(s: State, m: Move)
    requires Inv(s) && Alone(s) && Enabled(s, m) && Orderly(s, m)
    ensures Alone(Next(s, m))
  {
    if m.Advance? {
      AdvanceKeepsAlone(s, m.n, m.c);
    } else {
      forall n | n in s.ops && NeedsSpec(s.ops[n]) {
        SpecSurvives(s, m, n);
      }
    }
  }

  lemma {:induction false} OrderlyRunKeepsAlone(run: seq<Move>)
    requires ValidRun(run) && OrderlyRun(run)
    ensures Inv(After(run)) && Alone(After(run))
  {
    OrderlyIsApart(run);
    RunKeepsInv(run);
    if run != [] {
      OrderlyRunKeepsAlone(run[..|run| - 1]);
      StepKeepsAlone(After(run[..|run| - 1]), run[|run| - 1]);
    }
  }

  /** Without overlap the order of the daemon's statements alone keeps the tables sound: no foreign key
      ever refuses one of them. */
  lemma {:induction false} ForeignKeysNeverRefuse(run: seq<Move>, n: nat, c: Choice)
    requires ValidRun(run) && OrderlyRun(run)
    requires n in After(run).ops && RowsPermit(After(run).t, After(run).ops[n], c)
    ensures KeysPermit(After(run).t, After(run).ops[n])
  {
    OrderlyRunKeepsAlone(run);
    var s := After(run);
    var op := s.ops[n];
    if op.ClearSpecs? {
      forall id | id in s.t.rows && s.t.rows[id].specKey.Some? && s.t.rows[id].specKey.value in s.t.specs
        ensures s.t.specs[s.t.rows[id].specKey.value].kindKey != op.id.key
      {
        assert RowSound(s.t, id);
      }
    }
  }
}
