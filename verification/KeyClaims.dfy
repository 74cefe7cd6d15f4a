/** When can two of the cargo, vm and job tables come to hold the same key?  Exactly when a clearing deletes
    a status that a creation has claimed and not yet handed to its row. */
module KeyClaims {
  import opened Options
  import opened Store
  import opened StoreRuns

  /** A creation between claiming its status and inserting its row. */
  predicate Creates(op: Op) { op.CargoRow? || op.VmSpec? || op.VmRow? || op.JobRow? }

  function KindOf(op: Op): Kind {
    if op.CargoRow? then CargoKind else if op.JobRow? then JobKind else VmKind
  }

  /** The row the creation is about to insert. */
  function RowOf(op: Op): ObjId { ObjId(KindOf(op), KeyOf(op)) }

  /** The creation can still insert its row: the spec it stored has not been deleted. */
  predicate Live(t: Tables, op: Op) {
    Creates(op) && (op.CargoRow? || op.VmRow? ==> op.spec in t.specs)
  }

  predicate LiveAt(s: State, n: nat) { n in s.ops && Live(s.t, s.ops[n]) }

  /** Live creations still have their status, and whatever else holds or claims their key is of their kind. */
  ghost predicate Safe(s: State) {
    && KeysDisjoint(s.t)
    && (forall n | LiveAt(s, n) :: KeyOf(s.ops[n]) in s.t.statuses)
    && (forall n, id | LiveAt(s, n) && id in s.t.rows && id.key == KeyOf(s.ops[n]) :: id.kind == KindOf(s.ops[n]))
    && (forall n, m | LiveAt(s, n) && LiveAt(s, m) && KeyOf(s.ops[n]) == KeyOf(s.ops[m]) ::
          KindOf(s.ops[n]) == KindOf(s.ops[m]))
  }

  /** A move that belongs to no clearing. */
  predicate Plain(s: State, m: Move) {
    && (m.Begin? ==> !m.op.ClearRow?)
    && (m.Advance? && m.n in s.ops ==> !Clears(s.ops[m.n]))
  }

  /** The move deletes the status of a key that a live creation has claimed. */
  ghost predicate Tears(s: State, m: Move) {
    && m.Advance? && m.n in s.ops && s.ops[m.n].ClearStatus?
    && exists q :: LiveAt(s, q) && KeyOf(s.ops[q]) == s.ops[m.n].id.key
  }

  // ---------------------------------------------------------------- what a safe state allows

  lemma {:induction false} LiveOpsBefore(s: State, m: Move, n: nat)
    requires Refs(s) && Enabled(s, m) && LiveAt(Next(s, m), n)
    ensures n in s.ops && KeyOf(Next(s, m).ops[n]) == KeyOf(s.ops[n])
    ensures LiveAt(s, n) ==> KindOf(Next(s, m).ops[n]) == KindOf(s.ops[n])
    ensures !LiveAt(s, n) ==>
              m.Advance? && m.n == n && (s.ops[n].CargoStatus? || s.ops[n].VmStatus? || s.ops[n].JobStatus?)
  {
    match m {
      case Advance(k, c) => if k == n { ContinueKeepsKey(s.ops[k], c); }
      case _ =>
    }
  }

  /** Claiming a status: there was none, so nothing live or stored holds the key. */
  lemma {:induction false} ClaimIsSafe(s: State, n: nat, c: Choice)
    requires Refs(s) && Safe(s) && Enabled(s, Advance(n, c))
    requires s.ops[n].CargoStatus? || s.ops[n].VmStatus? || s.ops[n].JobStatus?
    ensures Safe(Next(s, Advance(n, c)))
  {
    var s', k := Next(s, Advance(n, c)), KeyOf(s.ops[n]);
    assert k !in s.t.statuses;
    assert forall id | id in s.t.rows :: RowSound(s.t, id);
    forall q | LiveAt(s', q) ensures q == n || (LiveAt(s, q) && KeyOf(s'.ops[q]) != k && s'.ops[q] == s.ops[q]) {
      LiveOpsBefore(s, Advance(n, c), q);
    }
  }

  lemma {:induction false} InsertIsSafe(s: State, n: nat, c: Choice)
    requires Refs(s) && Safe(s) && Enabled(s, Advance(n, c))
    requires s.ops[n].CargoRow? || s.ops[n].VmRow? || s.ops[n].JobRow?
    ensures Safe(Next(s, Advance(n, c)))
  {
    var s', id := Next(s, Advance(n, c)), RowOf(s.ops[n]);
    assert LiveAt(s, n) && s'.t.rows.Keys == s.t.rows.Keys + {id};
    forall q | LiveAt(s', q) ensures LiveAt(s, q) && s'.ops[q] == s.ops[q] {
      LiveOpsBefore(s, Advance(n, c), q);
    }
  }

  lemma {:induction false} RowsOnlyLeave(s: State, m: Move)
    requires Enabled(s, m)
    requires m.Advance? ==> !(s.ops[m.n].CargoRow? || s.ops[m.n].VmRow? || s.ops[m.n].JobRow?)
    ensures Next(s, m).t.rows.Keys <= s.t.rows.Keys
  {}

  /** Any other move adds no row and no claim; it stays safe if it deletes no claimed status. */
  lemma {:induction false} OtherIsSafe(s: State, m: Move)
    requires Refs(s) && Safe(s) && Enabled(s, m) && !Tears(s, m)
    requires m.Advance? ==> !(s.ops[m.n].CargoStatus? || s.ops[m.n].VmStatus? || s.ops[m.n].JobStatus?
                              || s.ops[m.n].CargoRow? || s.ops[m.n].VmRow? || s.ops[m.n].JobRow?)
    ensures Safe(Next(s, m))
  {
    var s' := Next(s, m);
    forall q | LiveAt(s', q)
      ensures LiveAt(s, q) && KeyOf(s'.ops[q]) == KeyOf(s.ops[q]) && KindOf(s'.ops[q]) == KindOf(s.ops[q])
    {
      LiveOpsBefore(s, m, q);
    }
    RowsOnlyLeave(s, m);
    forall q | LiveAt(s', q) ensures KeyOf(s'.ops[q]) in s'.t.statuses {}
  }

  /** From a safe state, a step leads to an unsafe one exactly when it deletes a claimed status. */
  lemma {:induction false} SafeStepIff(s: State, m: Move)
    requires Refs(s) && Safe(s) && Enabled(s, m)
    ensures Safe(Next(s, m)) <==> !Tears(s, m)
  {
    if Tears(s, m) {
      var q :| LiveAt(s, q) && KeyOf(s.ops[q]) == s.ops[m.n].id.key;
      assert LiveAt(Next(s, m), q) && KeyOf(s.ops[q]) !in Next(s, m).t.statuses;
    } else if m.Advance? && (s.ops[m.n].CargoStatus? || s.ops[m.n].VmStatus? || s.ops[m.n].JobStatus?) {
      ClaimIsSafe(s, m.n, m.c);
    } else if m.Advance? && (s.ops[m.n].CargoRow? || s.ops[m.n].VmRow? || s.ops[m.n].JobRow?) {
      InsertIsSafe(s, m.n, m.c);
    } else {
      OtherIsSafe(s, m);
    }
  }

  /** The moves `more` can follow one another from `s`, and none of them belongs to a clearing. */
  predicate Plays(s: State, more: seq<Move>)
    decreases |more|
  {
    more == [] || (Enabled(s, more[0]) && Plain(s, more[0]) && Plays(Next(s, more[0]), more[1..]))
  }

  function Played(s: State, more: seq<Move>): State
    requires Plays(s, more)
    decreases |more|
  {
    if more == [] then s else Played(Next(s, more[0]), more[1..])
  }

  lemma {:induction false} PlaysOn(s: State, a: seq<Move>, b: seq<Move>)
    requires Plays(s, a) && Plays(Played(s, a), b)
    ensures Plays(s, a + b) && Played(s, a + b) == Played(Played(s, a), b)
    decreases |a|
  {
    if a == [] {
      assert a + b == b;
    } else {
      PlaysOn(Next(s, a[0]), a[1..], b);
      assert (a + b)[1..] == a[1..] + b;
    }
  }

  lemma {:induction false} SafePlays(s: State, more: seq<Move>)
    requires Refs(s) && Safe(s) && Plays(s, more)
    ensures Safe(Played(s, more))
    decreases |more|
  {
    if more != [] {
      SafeStepIff(s, more[0]);
      StepKeepsRefs(s, more[0]);
      SafePlays(Next(s, more[0]), more[1..]);
    }
  }

  // ---------------------------------------------------------------- what an unsafe state allows

  lemma {:induction false} UnusedNumber(used: set<nat>) returns (n: nat)
    ensures n !in used
  {
    var bound: nat := 0;
    var todo := used;
    while todo != {}
      invariant todo <= used && forall u | u in used && u !in todo :: u < bound
      decreases |todo|
    {
      var u :| u in todo;
      bound := if u < bound then bound else u + 1;
      todo := todo - {u};
    }
    n := bound;
  }

  function ChoiceOf(u: Uuid, key: string): Choice {
    Choice(u, SpecRow(key, "", OtherData(""), None), "", CREATED)
  }

  lemma {:induction false} PlayOne(s: State, m: Move)
    requires Enabled(s, m) && Plain(s, m)
    ensures Plays(s, [m]) && Played(s, [m]) == Next(s, m)
  {
    assert [m][1..] == [];
  }

  /** A live creation with its status and no row of its kind inserts its row, changing nothing else that
      other live creations depend on. */
  lemma {:induction false} Finishes(s: State, n: nat) returns (more: seq<Move>)
    requires Refs(s) && LiveAt(s, n) && KeyOf(s.ops[n]) in s.t.statuses && RowOf(s.ops[n]) !in s.t.rows
    ensures Plays(s, more) && RowOf(s.ops[n]) in Played(s, more).t.rows
    ensures forall id | id in s.t.rows :: id in Played(s, more).t.rows
    ensures Played(s, more).t.statuses == s.t.statuses && Refs(Played(s, more))
    ensures forall m | LiveAt(s, m) && m != n :: LiveAt(Played(s, more), m) && Played(s, more).ops[m] == s.ops[m]
    ensures Played(s, more).t.rows.Keys == s.t.rows.Keys + {RowOf(s.ops[n])}
  {
    var u := UnusedNumber(s.t.used + s.t.specs.Keys);
    var move := Advance(n, ChoiceOf(u, KeyOf(s.ops[n])));
    PlayOne(s, move);
    StepKeepsRefs(s, move);
    more := [move];
    if s.ops[n].VmSpec? {
      var s1 := Next(s, move);
      assert LiveAt(s1, n) && s1.ops[n] == VmRow(KeyOf(s.ops[n]), u);
      var last := Advance(n, ChoiceOf(u, KeyOf(s.ops[n])));
      PlayOne(s1, last);
      StepKeepsRefs(s1, last);
      PlaysOn(s, [move], [last]);
      more := [move] + [last];
    }
  }

  /** A key whose status is missing can be claimed by a new creation of either kind. */
  lemma {:induction false} Claimable(s: State, key: string, kind: Kind) returns (more: seq<Move>, p: nat)
    requires Refs(s) && key !in s.t.statuses && !kind.VmKind?
    ensures Plays(s, more) && p !in s.ops && LiveAt(Played(s, more), p)
            && RowOf(Played(s, more).ops[p]) == ObjId(kind, key)
    ensures Played(s, more).t.rows == s.t.rows && key in Played(s, more).t.statuses && Refs(Played(s, more))
    ensures forall m | LiveAt(s, m) :: LiveAt(Played(s, more), m) && Played(s, more).ops[m] == s.ops[m]
  {
    p := UnusedNumber(s.ops.Keys);
    var u := UnusedNumber(s.t.used + s.t.specs.Keys);
    var c := ChoiceOf(u, key);
    var first := Begin(p, if kind.JobKind? then JobStatus(key) else CargoSpec(key));
    var s1 := Next(s, first);
    PlayOne(s, first);
    StepKeepsRefs(s, first);
    PlayOne(s1, Advance(p, c));
    StepKeepsRefs(s1, Advance(p, c));
    PlaysOn(s, [first], [Advance(p, c)]);
    more := [first] + [Advance(p, c)];
    if kind.CargoKind? {
      var s2 := Next(s1, Advance(p, c));
      assert s2.ops[p] == CargoStatus(key, u);
      PlayOne(s2, Advance(p, c));
      StepKeepsRefs(s2, Advance(p, c));
      PlaysOn(s, more, [Advance(p, c)]);
      more := more + [Advance(p, c)];
    }
  }

  /** A live creation beside a row of another kind. */
  lemma {:induction false} BreaksBesideRow(s: State, n: nat, id: ObjId) returns (more: seq<Move>)
    requires Refs(s) && LiveAt(s, n) && KeyOf(s.ops[n]) in s.t.statuses
    requires id in s.t.rows && id.key == KeyOf(s.ops[n]) && id.kind != KindOf(s.ops[n])
    ensures Plays(s, more) && !KeysDisjoint(Played(s, more).t)
  {
    more := [];
    if RowOf(s.ops[n]) !in s.t.rows {
      more := Finishes(s, n);
    }
    assert RowOf(s.ops[n]).key == id.key && RowOf(s.ops[n]) != id;
    assert RowOf(s.ops[n]) in Played(s, more).t.rows && id in Played(s, more).t.rows;
  }

  /** Two live creations of different kinds on one key. */
  lemma {:induction false} BreaksBesideClaim(s: State, n: nat, m: nat) returns (more: seq<Move>)
    requires Refs(s) && LiveAt(s, n) && LiveAt(s, m) && KeyOf(s.ops[n]) == KeyOf(s.ops[m])
    requires KindOf(s.ops[n]) != KindOf(s.ops[m]) && KeyOf(s.ops[n]) in s.t.statuses
    ensures Plays(s, more) && !KeysDisjoint(Played(s, more).t)
  {
    if RowOf(s.ops[n]) in s.t.rows {
      more := BreaksBesideRow(s, m, RowOf(s.ops[n]));
    } else {
      var first := Finishes(s, n);
      var rest := BreaksBesideRow(Played(s, first), m, RowOf(s.ops[n]));
      PlaysOn(s, first, rest);
      more := first + rest;
    }
  }

  lemma {:induction false} BreaksWithoutStatus(s: State, n: nat) returns (more: seq<Move>)
    requires Refs(s) && LiveAt(s, n) && KeyOf(s.ops[n]) !in s.t.statuses
    ensures Plays(s, more) && !KeysDisjoint(Played(s, more).t)
  {
    var first, p := Claimable(s, KeyOf(s.ops[n]), if KindOf(s.ops[n]).JobKind? then CargoKind else JobKind);
    var rest := BreaksBesideClaim(Played(s, first), n, p);
    PlaysOn(s, first, rest);
    more := first + rest;
  }

  lemma {:induction false} Breaks(s: State) returns (more: seq<Move>)
    requires Refs(s) && !Safe(s)
    ensures Plays(s, more) && !KeysDisjoint(Played(s, more).t)
  {
    if !KeysDisjoint(s.t) {
      more := [];
    } else if n :| LiveAt(s, n) && KeyOf(s.ops[n]) !in s.t.statuses {
      more := BreaksWithoutStatus(s, n);
    } else if n, id :| LiveAt(s, n) && id in s.t.rows && id.key == KeyOf(s.ops[n]) && id.kind != KindOf(s.ops[n]) {
      more := BreaksBesideRow(s, n, id);
    } else {
      var n, m :| LiveAt(s, n) && LiveAt(s, m) && KeyOf(s.ops[n]) == KeyOf(s.ops[m])
                  && KindOf(s.ops[n]) != KindOf(s.ops[m]);
      more := BreaksBesideClaim(s, n, m);
    }
  }

  /** No moves outside clearings, in any order and number, bring two tables to one key. */
  ghost predicate StaysDisjoint(s: State) {
    forall more | Plays(s, more) :: KeysDisjoint(Played(s, more).t)
  }

  /** Being safe is exactly what it takes. */
  lemma {:induction false} SafeIff(s: State)
    requires Refs(s)
    ensures Safe(s) <==> StaysDisjoint(s)
  {
    if Safe(s) {
      forall more | Plays(s, more) ensures KeysDisjoint(Played(s, more).t) { SafePlays(s, more); }
    } else {
      var more := Breaks(s);
    }
  }

  // ---------------------------------------------------------------- whole runs

  /** No clearing of the run deletes a status that a live creation has claimed. */
  ghost predicate NeverTears(run: seq<Move>)
    requires ValidRun(run)
  {
    run == [] || (NeverTears(run[..|run| - 1]) && !Tears(After(run[..|run| - 1]), run[|run| - 1]))
  }

  /** From no point of the run can creations bring two tables to one key. */
  ghost predicate Unbreakable(run: seq<Move>)
    requires ValidRun(run)
  {
    (run == [] || Unbreakable(run[..|run| - 1])) && StaysDisjoint(After(run))
  }

  /** No two tables ever hold one key, and none can be brought to by creations at any point, exactly in the
      runs in which no clearing deletes a claimed status. */
  lemma {:induction false} DisjointForGoodIff(run: seq<Move>)
    requires ValidRun(run)
    ensures Unbreakable(run) <==> NeverTears(run)
    ensures NeverTears(run) ==> Safe(After(run)) && KeysDisjoint(After(run).t)
  {
    RunKeepsRefs(run);
    SafeIff(After(run));
    if run != [] {
      var init := run[..|run| - 1];
      DisjointForGoodIff(init);
      if NeverTears(init) {
        RunKeepsRefs(init);
        SafeStepIff(After(init), run[|run| - 1]);
      }
    }
  }

  /** While no object is cleared twice at once, no clearing deletes a claimed status. */
  lemma {:induction false} ApartNeverTears(run: seq<Move>)
    requires ValidRun(run) && ClearsApart(run)
    ensures NeverTears(run)
  {
    if run != [] {
      ApartNeverTears(run[..|run| - 1]);
      RunKeepsInv(run[..|run| - 1]);
      var s, m := After(run[..|run| - 1]), run[|run| - 1];
      if m.Advance? && s.ops[m.n].ClearStatus? {
        forall q | LiveAt(s, q) ensures KeyOf(s.ops[q]) != s.ops[m.n].id.key {
          assert Claims(s.ops[q]) && Claims(s.ops[m.n]) && q != m.n;
        }
      }
    }
  }

  // ---------------------------------------------------------------- one job, cleared twice

  lemma {:induction false} Extend(run: seq<Move>, more: seq<Move>)
    requires ValidRun(run) && Plays(After(run), more)
    ensures ValidRun(run + more) && After(run + more) == Played(After(run), more)
    decreases |more|
  {
    if more == [] {
      assert run + more == run;
    } else {
      ExtendOne(run, more[0]);
      Extend(run + [more[0]], more[1..]);
      assert run + more == run + [more[0]] + more[1..];
    }
  }

  lemma {:induction false} ExtendOne(run: seq<Move>, m: Move)
    requires ValidRun(run) && Enabled(After(run), m)
    ensures ValidRun(run + [m]) && After(run + [m]) == Next(After(run), m)
  {
    assert (run + [m])[..|run|] == run;
  }

  /** The run's clearings are operations 1 and 2, both of `id`. */
  predicate ClearsOnly(run: seq<Move>, id: ObjId) {
    forall i | 0 <= i < |run| && run[i].Begin? && run[i].op.ClearRow? :: run[i].n in {1, 2} && run[i].op.id == id
  }

  lemma {:induction false} PlainClearsNothing(s: State, more: seq<Move>, id: ObjId)
    requires Plays(s, more)
    ensures ClearsOnly(more, id)
    decreases |more|
  {
    if more != [] {
      PlainClearsNothing(Next(s, more[0]), more[1..], id);
      assert forall i | 0 < i < |more| :: more[i] == more[1..][i - 1];
    }
  }

  /** A job is created, and two clearings of it begin. */
  lemma {:induction false} TwoClearings(key: string) returns (run: seq<Move>)
    ensures ClearsOnly(run, ObjId(JobKind, key))
    ensures ValidRun(run)
    ensures var id, s := ObjId(JobKind, key), After(run);
            && s.ops == map[1 := ClearRow(id), 2 := ClearRow(id)]
            && s.t.rows.Keys == {id} && s.t.statuses == map[key := CREATED] && s.t.rows[id].statusKey == key
  {
    var id, c := ObjId(JobKind, key), ChoiceOf(0, key);
    run := [];
    ExtendOne(run, Begin(0, JobStatus(key)));
    run := run + [Begin(0, JobStatus(key))];
    ExtendOne(run, Advance(0, c));
    run := run + [Advance(0, c)];
    ExtendOne(run, Advance(0, c));
    run := run + [Advance(0, c)];
    assert After(run).ops == map[];
    ExtendOne(run, Begin(1, ClearRow(id)));
    run := run + [Begin(1, ClearRow(id))];
    ExtendOne(run, Begin(2, ClearRow(id)));
    run := run + [Begin(2, ClearRow(id))];
  }

  lemma {:induction false} FirstClearingEnds(key: string) returns (run: seq<Move>)
    ensures ClearsOnly(run, ObjId(JobKind, key))
    ensures ValidRun(run) && After(run).ops == map[2 := ClearRow(ObjId(JobKind, key))]
    ensures After(run).t.statuses == map[] && After(run).t.rows == map[]
  {
    var id, c := ObjId(JobKind, key), ChoiceOf(0, key);
    run := TwoClearings(key);
    ExtendOne(run, Advance(1, c));
    run := run + [Advance(1, c)];
    assert After(run).t.rows == map[];
    ExtendOne(run, Advance(1, c));
    run := run + [Advance(1, c)];
    assert After(run).t.statuses == map[];
  }

  lemma {:induction false} JobClaimedAgain(key: string) returns (run: seq<Move>)
    ensures ClearsOnly(run, ObjId(JobKind, key))
    ensures ValidRun(run) && After(run).ops == map[2 := ClearRow(ObjId(JobKind, key)), 3 := JobRow(key)]
    ensures After(run).t.statuses == map[key := CREATED] && After(run).t.rows == map[]
  {
    var c := ChoiceOf(0, key);
    run := FirstClearingEnds(key);
    ExtendOne(run, Begin(3, JobStatus(key)));
    run := run + [Begin(3, JobStatus(key))];
    ExtendOne(run, Advance(3, c));
    run := run + [Advance(3, c)];
  }

  /** The first clearing ends, the job is being created again, and the second clearing deletes its status. */
  lemma {:induction false} SecondClearingTears(key: string) returns (run: seq<Move>)
    ensures ClearsOnly(run, ObjId(JobKind, key))
    ensures ValidRun(run) && After(run).ops == map[3 := JobRow(key)]
    ensures key !in After(run).t.statuses && After(run).t.rows == map[]
  {
    var c := ChoiceOf(0, key);
    run := JobClaimedAgain(key);
    ExtendOne(run, Advance(2, c));
    run := run + [Advance(2, c)];
    assert After(run).t.rows == map[];
    ExtendOne(run, Advance(2, c));
    run := run + [Advance(2, c)];
    assert After(run).ops == map[3 := JobRow(key)];
  }

  /** From there, creations alone bring a cargo and the job to the key. */
  lemma {:induction false} TornBreaks(s: State, key: string) returns (more: seq<Move>)
    requires Refs(s) && s.ops == map[3 := JobRow(key)] && key !in s.t.statuses && s.t.rows == map[]
    ensures Plays(s, more)
    ensures ObjId(JobKind, key) in Played(s, more).t.rows && ObjId(CargoKind, key) in Played(s, more).t.rows
  {
    var first, p := Claimable(s, key, CargoKind);
    assert LiveAt(s, 3) && 3 in s.ops;
    var s1 := Played(s, first);
    var second := Finishes(s1, 3);
    var third := Finishes(Played(s1, second), p);
    PlaysOn(s1, second, third);
    PlaysOn(s, first, second + third);
    more := first + (second + third);
  }

  /** Two clearings of one job at once let a job and a cargo end with the same key: clearing only existing
      objects is not enough. */
  lemma {:induction false} TwoTablesOneKey(key: string) returns (run: seq<Move>)
    ensures ClearsOnly(run, ObjId(JobKind, key))
    ensures ValidRun(run) && !ClearsApart(run) && !KeysDisjoint(After(run).t)
    ensures ObjId(JobKind, key) in After(run).t.rows && ObjId(CargoKind, key) in After(run).t.rows
  {
    var torn := SecondClearingTears(key);
    RunKeepsRefs(torn);
    var more := TornBreaks(After(torn), key);
    PlainClearsNothing(After(torn), more, ObjId(JobKind, key));
    Extend(torn, more);
    run := torn + more;
    NotApart(run, ObjId(JobKind, key), ObjId(CargoKind, key));
  }

  lemma {:induction false} NotApart(run: seq<Move>, i: ObjId, j: ObjId)
    requires ValidRun(run) && i in After(run).t.rows && j in After(run).t.rows && i.key == j.key && i != j
    ensures !KeysDisjoint(After(run).t) && !ClearsApart(run)
  {
    if ClearsApart(run) { RunKeepsInv(run); }
  }
}
