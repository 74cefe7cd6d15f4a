/** The compiler from generic filters to SQL predicates, and what the predicates mean.

    The compiler walks hash maps, so its output depends on an iteration order; the loops below pick
    keys in an arbitrary order and are proved to denote one fixed predicate whatever is picked. */
module GenericFilter {
  import opened Options

  datatype ColumnType = Text | Json | Uuid | Timestamptz

  datatype Clause =
    | Eq(text: string) | Ne(text: string)
    | Gt(text: string) | Lt(text: string) | Ge(text: string) | Le(text: string)
    | Like(text: string) | NotLike(text: string)
    | In(items: seq<string>) | NotIn(items: seq<string>)
    | IsNull | IsNotNull
    | Contains(doc: string) | HasKey(text: string)

  type Conditions = map<string, Clause>

  datatype Where = Where(conditions: Conditions, alternatives: Option<seq<Conditions>>)

  datatype Filter = Filter(where_: Option<Where>, limit: Option<nat>, offset: Option<nat>)

  /** The columns a repository exposes: public name to type and SQL name. */
  type Columns = map<string, (ColumnType, string)>

  // ---------------------------------------------------------------- building filters

  const EVERYTHING: Filter := Filter(None, None, None)

  function ConditionsOf(f: Filter): Conditions {
    if f.where_.Some? then f.where_.value.conditions else map[]
  }

  function AlternativesOf(f: Filter): seq<Conditions> {
    if f.where_.Some? && f.where_.value.alternatives.Some? then f.where_.value.alternatives.value else []
  }

  /** Add a condition, replacing the one on the same column if there is one. */
  function WithCondition(f: Filter, key: string, clause: Clause): Filter {
    var w := if f.where_.Some? then f.where_.value else Where(map[], None);
    f.(where_ := Some(w.(conditions := w.conditions[key := clause])))
  }

  // ---------------------------------------------------------------- SQL predicates

  datatype Value = Null | Str(s: string) | Doc(d: string) | Id(u: string) | Time(t: int)

  datatype Op =
    | OpEq(v: Value) | OpNe(v: Value) | OpGt(v: Value) | OpLt(v: Value) | OpGe(v: Value) | OpLe(v: Value)
    | OpLike(p: string) | OpNotLike(p: string)
    | OpAny(vs: seq<Value>) | OpNeAll(vs: seq<Value>)
    | OpIsNull | OpIsNotNull
    | OpContains(d: string) | OpHasKey(k: string)

  datatype Predicate =
    | Always
    | Test(column: string, op: Op)
    | And(left: Predicate, right: Predicate)
    | Or(left: Predicate, right: Predicate)

  /** What is not decided here: how the database orders and matches values, and how texts are read as
      dates and uuids.  Every statement below holds for all choices. */
  datatype Dialect = Dialect(
    less: (Value, Value) -> bool,
    like: (Value, string) -> bool,
    contains: (Value, string) -> bool,
    hasKey: (Value, string) -> bool,
    parseDate: string -> Option<int>,
    parseUuid: string -> Option<string>,
    nilUuid: string)

  /** SQL's three-valued logic. */
  datatype Truth = True | False | Unknown

  function FromBool(b: bool): Truth { if b then True else False }

  function TruthAnd(a: Truth, b: Truth): Truth {
    if a == False || b == False then False
    else if a == True && b == True then True
    else Unknown
  }

  function TruthOr(a: Truth, b: Truth): Truth {
    if a == True || b == True then True
    else if a == False && b == False then False
    else Unknown
  }

  function Degree(a: Truth): int {
    match a
    case False => -1
    case Unknown => 0
    case True => 1
  }

  /** Conjunction is the lesser and disjunction the greater of two truth values. */
  lemma {:induction false} AndIsLeastOrIsGreatest(a: Truth, b: Truth)
    ensures Degree(TruthAnd(a, b)) == (if Degree(a) < Degree(b) then Degree(a) else Degree(b))
    ensures Degree(TruthOr(a, b)) == (if Degree(a) < Degree(b) then Degree(b) else Degree(a))
  {}

  type Row = map<string, Value>

  function Cell(row: Row, column: string): Value {
    if column in row then row[column] else Null
  }

  /** A comparison with NULL is unknown, except that quantifying over an empty list never looks at it. */
  function EvalOp(d: Dialect, op: Op, v: Value): Truth {
    match op
    case OpIsNull => FromBool(v.Null?)
    case OpIsNotNull => FromBool(!v.Null?)
    case OpAny(vs) => if vs == [] then False else if v.Null? then Unknown else FromBool(v in vs)
    case OpNeAll(vs) => if vs == [] then True else if v.Null? then Unknown else FromBool(v !in vs)
    case _ =>
      if v.Null? then Unknown
      else FromBool(match op
        case OpEq(w) => v == w
        case OpNe(w) => v != w
        case OpGt(w) => d.less(w, v)
        case OpLt(w) => d.less(v, w)
        case OpGe(w) => !d.less(v, w)
        case OpLe(w) => !d.less(w, v)
        case OpLike(p) => d.like(v, p)
        case OpNotLike(p) => !d.like(v, p)
        case OpContains(doc) => d.contains(v, doc)
        case OpHasKey(k) => d.hasKey(v, k)
        case _ => false)
  }

  function Eval(d: Dialect, p: Predicate, row: Row): Truth {
    match p
    case Always => True
    case Test(column, op) => EvalOp(d, op, Cell(row, column))
    case And(l, r) => TruthAnd(Eval(d, l, row), Eval(d, r, row))
    case Or(l, r) => TruthOr(Eval(d, l, row), Eval(d, r, row))
  }

  /** A query without a WHERE part selects every row; otherwise the predicate must be TRUE. */
  predicate Selects(d: Dialect, q: Option<Predicate>, row: Row) {
    q.Some? ==> Eval(d, q.value, row) == True
  }

  // ---------------------------------------------------------------- compiling one clause

  datatype Lowered = Usable(op: Op) | Unsupported | BadDate

  /** The SQL literal for a clause's text on a column of type `ty`: an unreadable uuid becomes the nil
      uuid, an unreadable date has no literal. */
  function Literal(d: Dialect, ty: ColumnType, text: string): Option<Value> {
    match ty
    case Text => Some(Str(text))
    case Json => Some(Doc(text))
    case Uuid => Some(Id(if d.parseUuid(text).Some? then d.parseUuid(text).value else d.nilUuid))
    case Timestamptz => if d.parseDate(text).Some? then Some(Time(d.parseDate(text).value)) else None
  }

  predicate AllLiteral(d: Dialect, ty: ColumnType, items: seq<string>) {
    forall i | 0 <= i < |items| :: Literal(d, ty, items[i]).Some?
  }

  function Literals(d: Dialect, ty: ColumnType, items: seq<string>): (vs: seq<Value>)
    requires AllLiteral(d, ty, items)
    ensures |vs| == |items| && forall i | 0 <= i < |items| :: vs[i] == Literal(d, ty, items[i]).value
  {
    seq(|items|, i requires 0 <= i < |items| => Literal(d, ty, items[i]).value)
  }

  /** Which clauses each column type understands. */
  predicate Supports(ty: ColumnType, c: Clause) {
    c.IsNull? || c.IsNotNull? ||
    match ty
    case Text => !c.Contains? && !c.HasKey?
    case Json => c.Contains? || c.HasKey?
    case Uuid => c.Eq?
    case Timestamptz => c.Eq? || c.Ne? || c.Gt? || c.Lt? || c.Ge? || c.Le? || c.In? || c.NotIn?
  }

  function Lower(d: Dialect, ty: ColumnType, c: Clause): Lowered {
    if !Supports(ty, c) then Unsupported
    else
      match c
      case IsNull => Usable(OpIsNull)
      case IsNotNull => Usable(OpIsNotNull)
      case Contains(doc) => Usable(OpContains(doc))
      case HasKey(k) => Usable(OpHasKey(k))
      case Like(p) => Usable(OpLike(p))
      case NotLike(p) => Usable(OpNotLike(p))
      case In(items) =>
        if AllLiteral(d, ty, items) then Usable(OpAny(Literals(d, ty, items))) else BadDate
      case NotIn(items) =>
        if AllLiteral(d, ty, items) then Usable(OpNeAll(Literals(d, ty, items))) else BadDate
      case _ =>
        var v := Literal(d, ty, c.text);
        if v.None? then BadDate
        else
          match c
          case Eq(_) => Usable(OpEq(v.value))
          case Ne(_) => Usable(OpNe(v.value))
          case Gt(_) => Usable(OpGt(v.value))
          case Lt(_) => Usable(OpLt(v.value))
          case Ge(_) => Usable(OpGe(v.value))
          case _ => Usable(OpLe(v.value))
  }

  // ---------------------------------------------------------------- the reference meaning

  /** Two-valued reading of one clause on one value. */
  ghost predicate Accepts(d: Dialect, ty: ColumnType, c: Clause, v: Value) {
    match c
    case IsNull => v == Null
    case IsNotNull => v != Null
    case In(items) => v != Null && exists i :: 0 <= i < |items| && Literal(d, ty, items[i]) == Some(v)
    case NotIn(items) =>
      items == [] || (v != Null && forall i | 0 <= i < |items| :: Literal(d, ty, items[i]) != Some(v))
    case Contains(doc) => v != Null && d.contains(v, doc)
    case HasKey(k) => v != Null && d.hasKey(v, k)
    case Like(p) => v != Null && d.like(v, p)
    case NotLike(p) => v != Null && !d.like(v, p)
    case Eq(x) => v != Null && Literal(d, ty, x) == Some(v)
    case Ne(x) => v != Null && Literal(d, ty, x) != Some(v)
    case Gt(x) => v != Null && Literal(d, ty, x).Some? && d.less(Literal(d, ty, x).value, v)
    case Lt(x) => v != Null && Literal(d, ty, x).Some? && d.less(v, Literal(d, ty, x).value)
    case Ge(x) => v != Null && Literal(d, ty, x).Some? && !d.less(v, Literal(d, ty, x).value)
    case Le(x) => v != Null && Literal(d, ty, x).Some? && !d.less(Literal(d, ty, x).value, v)
  }

  predicate Known(cols: Columns, conds: Conditions, key: string) { key in conds && key in cols }

  predicate Effective(cols: Columns, conds: Conditions, key: string) {
    Known(cols, conds, key) && Supports(cols[key].0, conds[key])
  }

  ghost predicate AcceptsAt(d: Dialect, cols: Columns, conds: Conditions, key: string, row: Row)
    requires Known(cols, conds, key)
  {
    Accepts(d, cols[key].0, conds[key], Cell(row, cols[key].1))
  }

  ghost predicate AllEffectiveAccept(d: Dialect, cols: Columns, conds: Conditions, row: Row) {
    forall key | Effective(cols, conds, key) :: AcceptsAt(d, cols, conds, key, row)
  }

  ghost predicate AllKnownAccept(d: Dialect, cols: Columns, conds: Conditions, row: Row) {
    forall key | Known(cols, conds, key) :: AcceptsAt(d, cols, conds, key, row)
  }

  ghost predicate SomeEffective(cols: Columns, conds: Conditions) {
    exists key :: Effective(cols, conds, key)
  }

  /** The rows a filter stands for: those accepted by every effective top-level clause, or by every
      clause on a known column of some alternative.  Without effective top-level clauses the
      alternatives stand alone. */
  ghost predicate Selected(d: Dialect, cols: Columns, f: Filter, row: Row) {
    var conds, alts := ConditionsOf(f), AlternativesOf(f);
    || (SomeEffective(cols, conds) && AllEffectiveAccept(d, cols, conds, row))
    || (exists i :: 0 <= i < |alts| && AllKnownAccept(d, cols, alts[i], row))
    || (!SomeEffective(cols, conds) && alts == [])
  }

  /** A top-level condition the compiler panics on. */
  predicate BadTop(d: Dialect, cols: Columns, conds: Conditions, key: string) {
    Known(cols, conds, key) && Lower(d, cols[key].0, conds[key]).BadDate?
  }

  /** A condition of an alternative the compiler panics on. */
  predicate BadAlternative(d: Dialect, cols: Columns, conds: Conditions, key: string) {
    Known(cols, conds, key) && !Lower(d, cols[key].0, conds[key]).Usable?
  }

  ghost predicate Panicky(d: Dialect, cols: Columns, f: Filter) {
    || (exists key :: BadTop(d, cols, ConditionsOf(f), key))
    || (exists i, key :: 0 <= i < |AlternativesOf(f)| && BadAlternative(d, cols, AlternativesOf(f)[i], key))
  }

  /** A lowered clause is TRUE in three-valued logic exactly where the clause accepts the value. */
  lemma {:induction false} LowerMeansAccepts(d: Dialect, ty: ColumnType, c: Clause, v: Value)
    requires Lower(d, ty, c).Usable?
    ensures EvalOp(d, Lower(d, ty, c).op, v) == True <==> Accepts(d, ty, c, v)
  {
    match c {
      case In(items) =>
        var vs := Literals(d, ty, items);
        assert v in vs <==> exists i :: 0 <= i < |items| && Literal(d, ty, items[i]) == Some(v);
      case NotIn(items) =>
        var vs := Literals(d, ty, items);
        assert v in vs <==> exists i :: 0 <= i < |items| && Literal(d, ty, items[i]) == Some(v);
        assert vs == [] <==> items == [];
      case _ =>
    }
  }

  // ---------------------------------------------------------------- the compiler

  datatype Compiled = Panic | Query(where_: Option<Predicate>)

  function AddFilter(q: Option<Predicate>, p: Predicate): Option<Predicate> {
    if q.Some? then Some(And(q.value, p)) else Some(p)
  }

  function AddOrFilter(q: Option<Predicate>, p: Predicate): Option<Predicate> {
    if q.Some? then Some(Or(q.value, p)) else Some(p)
  }

  /** `row` is accepted by the clauses on the columns in `used`. */
  ghost predicate AcceptsOn(d: Dialect, cols: Columns, conds: Conditions, used: set<string>, row: Row) {
    forall key | key in used && Known(cols, conds, key) :: AcceptsAt(d, cols, conds, key, row)
  }

  /** `p` is TRUE of exactly the rows accepted on `used`. */
  ghost predicate Denotes(d: Dialect, cols: Columns, conds: Conditions, used: set<string>, p: Predicate) {
    forall row :: Eval(d, p, row) == True <==> AcceptsOn(d, cols, conds, used, row)
  }

  lemma {:induction false} DenotesFirst(d: Dialect, cols: Columns, conds: Conditions, key: string)
    requires Known(cols, conds, key) && Lower(d, cols[key].0, conds[key]).Usable?
    ensures Denotes(d, cols, conds, {key}, Test(cols[key].1, Lower(d, cols[key].0, conds[key]).op))
  {
    forall row {
      LowerMeansAccepts(d, cols[key].0, conds[key], Cell(row, cols[key].1));
    }
  }

  lemma {:induction false} DenotesBoth(d: Dialect, cols: Columns, conds: Conditions, used: set<string>, p: Predicate,
                                       key: string, q: Predicate)
    requires Denotes(d, cols, conds, used, p) && Denotes(d, cols, conds, {key}, q)
    ensures Denotes(d, cols, conds, used + {key}, And(p, q))
  {
    forall row
      ensures Eval(d, And(p, q), row) == True <==> AcceptsOn(d, cols, conds, used + {key}, row)
    {
      assert AcceptsOn(d, cols, conds, used + {key}, row)
          <==> AcceptsOn(d, cols, conds, used, row) && AcceptsOn(d, cols, conds, {key}, row);
    }
  }

  lemma {:induction false} DenotesNext(d: Dialect, cols: Columns, conds: Conditions, used: set<string>,
                                       q: Option<Predicate>, key: string)
    requires Known(cols, conds, key) && Lower(d, cols[key].0, conds[key]).Usable?
    requires if q.Some? then Denotes(d, cols, conds, used, q.value) else used == {}
    ensures Denotes(d, cols, conds, used + {key},
                    AddFilter(q, Test(cols[key].1, Lower(d, cols[key].0, conds[key]).op)).value)
  {
    DenotesFirst(d, cols, conds, key);
    if q.Some? {
      DenotesBoth(d, cols, conds, used, q.value, key, Test(cols[key].1, Lower(d, cols[key].0, conds[key]).op));
    } else {
      assert used + {key} == {key};
    }
  }

  lemma {:induction false} UsedAreEffective(d: Dialect, cols: Columns, conds: Conditions, used: set<string>)
    requires forall key :: key in used <==> Effective(cols, conds, key)
    ensures SomeEffective(cols, conds) <==> used != {}
    ensures forall row :: AcceptsOn(d, cols, conds, used, row) <==> AllEffectiveAccept(d, cols, conds, row)
  {
    if used != {} {
      var key :| key in used;
      assert Effective(cols, conds, key);
    }
  }

  /** The state of the loop over the top-level conditions: `todo` is left, and `q` stands for the effective
      conditions among the others, those on `used`. */
  ghost predicate Compiling(d: Dialect, cols: Columns, conds: Conditions, todo: Conditions, used: set<string>,
                            q: Option<Predicate>) {
    && todo.Keys <= conds.Keys && (forall key | key in todo :: todo[key] == conds[key])
    && (forall key | key in conds && key !in todo :: !BadTop(d, cols, conds, key))
    && (forall key :: key in used <==> key !in todo && Effective(cols, conds, key))
    && (if q.Some? then used != {} && Denotes(d, cols, conds, used, q.value) else used == {})
  }

  lemma {:induction false} CompilingSkips(d: Dialect, cols: Columns, conds: Conditions, todo: Conditions,
                                          used: set<string>,
                                          q: Option<Predicate>, key: string)
    requires Compiling(d, cols, conds, todo, used, q) && key in todo
    requires !Effective(cols, conds, key) && !BadTop(d, cols, conds, key)
    ensures Compiling(d, cols, conds, todo - {key}, used, q)
  {}

  lemma {:induction false} CompilingTakes(d: Dialect, cols: Columns, conds: Conditions, todo: Conditions,
                                          used: set<string>,
                                          q: Option<Predicate>, key: string)
    requires Compiling(d, cols, conds, todo, used, q) && key in todo
    requires Known(cols, conds, key) && Lower(d, cols[key].0, conds[key]).Usable?
    ensures Compiling(d, cols, conds, todo - {key}, used + {key},
                      AddFilter(q, Test(cols[key].1, Lower(d, cols[key].0, conds[key]).op)))
  {
    DenotesNext(d, cols, conds, used, q, key);
    UsableIsEffective(d, cols, conds, key);
  }

  lemma {:induction false} UsableIsEffective(d: Dialect, cols: Columns, conds: Conditions, key: string)
    requires Known(cols, conds, key)
    ensures Effective(cols, conds, key) <==> !Lower(d, cols[key].0, conds[key]).Unsupported?
    ensures BadTop(d, cols, conds, key) <==> Lower(d, cols[key].0, conds[key]).BadDate?
  {}

  /** The loop over the top-level conditions. */
  method CompileConditions(d: Dialect, cols: Columns, conds: Conditions) returns (r: Compiled)
    ensures r.Panic? <==> exists key :: BadTop(d, cols, conds, key)
    ensures r.Query? ==> (r.where_.Some? <==> SomeEffective(cols, conds))
    ensures r.Query? && r.where_.Some? ==>
              forall row :: Eval(d, r.where_.value, row) == True <==> AllEffectiveAccept(d, cols, conds, row)
  {
    var q: Option<Predicate> := None;
    var todo := conds;
    ghost var used: set<string> := {};
    while todo != map[]
      invariant Compiling(d, cols, conds, todo, used, q)
      decreases |todo|
    {
      var key :| key in todo;
      if key in cols {
        UsableIsEffective(d, cols, conds, key);
        match Lower(d, cols[key].0, todo[key]) {
          case BadDate =>
            return Panic;
          case Usable(op) =>
            CompilingTakes(d, cols, conds, todo, used, q, key);
            q := AddFilter(q, Test(cols[key].1, op));
            used := used + {key};
          case Unsupported =>
            CompilingSkips(d, cols, conds, todo, used, q, key);
        }
      } else {
        CompilingSkips(d, cols, conds, todo, used, q, key);
      }
      todo := todo - {key};
    }
    UsedAreEffective(d, cols, conds, used);
    return Query(q);
  }

  /** The loop over one alternative, starting from an always-true condition. */
  method CompileAlternative(d: Dialect, cols: Columns, conds: Conditions) returns (ok: bool, p: Predicate)
    ensures ok <==> forall key :: !BadAlternative(d, cols, conds, key)
    ensures ok ==> forall row :: Eval(d, p, row) == True <==> AllKnownAccept(d, cols, conds, row)
  {
    p := Always;
    var todo := conds;
    ghost var used: set<string> := {};
    while todo != map[]
      invariant todo.Keys <= conds.Keys && forall key | key in todo :: todo[key] == conds[key]
      invariant forall key | key in conds && key !in todo :: !BadAlternative(d, cols, conds, key)
      invariant forall key :: key in used <==> key !in todo && Known(cols, conds, key)
      invariant Denotes(d, cols, conds, used, p)
      decreases |todo|
    {
      var key :| key in todo;
      if key in cols {
        var low := Lower(d, cols[key].0, todo[key]);
        if !low.Usable? {
          assert BadAlternative(d, cols, conds, key);
          return false, Always;
        }
        var test := Test(cols[key].1, low.op);
        DenotesFirst(d, cols, conds, key);
        DenotesBoth(d, cols, conds, used, p, key, test);
        p := And(p, test);
        used := used + {key};
      }
      todo := todo - {key};
    }
    assert forall row :: AcceptsOn(d, cols, conds, used, row) <==> AllKnownAccept(d, cols, conds, row);
    ok := true;
  }

  /** The whole compiler: for every filter and every iteration order it panics on exactly the same
      filters, and otherwise selects exactly the rows the filter stands for. */
  method GenSqlQuery(d: Dialect, cols: Columns, f: Filter) returns (r: Compiled)
    ensures r.Panic? <==> Panicky(d, cols, f)
    ensures r.Query? ==> forall row :: Selects(d, r.where_, row) <==> Selected(d, cols, f, row)
  {
    r := CompileConditions(d, cols, ConditionsOf(f));
    if r.Panic? { return; }
    var q := r.where_;
    ghost var top := r.where_;
    var alts := AlternativesOf(f);
    for i := 0 to |alts|
      invariant forall j, key | 0 <= j < i :: !BadAlternative(d, cols, alts[j], key)
      invariant q.Some? <==> top.Some? || i > 0
      invariant q.Some? ==> forall row :: Eval(d, q.value, row) == True <==>
                  || (top.Some? && Eval(d, top.value, row) == True)
                  || exists j :: 0 <= j < i && AllKnownAccept(d, cols, alts[j], row)
    {
      var ok, p := CompileAlternative(d, cols, alts[i]);
      if !ok {
        return Panic;
      }
      ghost var was := q;
      q := AddOrFilter(q, p);
      forall row
        ensures Eval(d, q.value, row) == True <==>
          || (top.Some? && Eval(d, top.value, row) == True)
          || exists j :: 0 <= j < i + 1 && AllKnownAccept(d, cols, alts[j], row)
      {
        assert Eval(d, q.value, row) == True <==>
          (was.Some? && Eval(d, was.value, row) == True) || AllKnownAccept(d, cols, alts[i], row);
      }
    }
    r := Query(q);
  }

  // ---------------------------------------------------------------- adding a condition

  /** Repositories narrow a caller's filter by adding a condition.  The result is confined to the rows
      that condition accepts exactly when each of the caller's alternatives is confined to them. */
  lemma {:induction false} ConfinedIff(d: Dialect, cols: Columns, f: Filter, key: string, clause: Clause)
    requires key in cols && Supports(cols[key].0, clause)
    ensures
      (forall row | Selected(d, cols, WithCondition(f, key, clause), row) ::
         Accepts(d, cols[key].0, clause, Cell(row, cols[key].1)))
      <==>
      (forall i, row | 0 <= i < |AlternativesOf(f)| && AllKnownAccept(d, cols, AlternativesOf(f)[i], row) ::
         Accepts(d, cols[key].0, clause, Cell(row, cols[key].1)))
  {
    var g := WithCondition(f, key, clause);
    assert AlternativesOf(g) == AlternativesOf(f);
    assert Effective(cols, ConditionsOf(g), key);
    forall row | AllEffectiveAccept(d, cols, ConditionsOf(g), row)
      ensures Accepts(d, cols[key].0, clause, Cell(row, cols[key].1))
    {
      assert AcceptsAt(d, cols, ConditionsOf(g), key, row);
    }
    forall i, row | 0 <= i < |AlternativesOf(f)| && AllKnownAccept(d, cols, AlternativesOf(f)[i], row)
      ensures Selected(d, cols, g, row)
    {
      assert AllKnownAccept(d, cols, AlternativesOf(g)[i], row);
    }
  }

  /** Every selected row is one the clause accepts. */
  ghost predicate Confined(d: Dialect, cols: Columns, f: Filter, key: string, clause: Clause)
    requires key in cols
  {
    forall row | Selected(d, cols, f, row) :: Accepts(d, cols[key].0, clause, Cell(row, cols[key].1))
  }

  predicate Carries(conds: Conditions, key: string, clause: Clause) { key in conds && conds[key] == clause }

  /** No condition of the alternative reads the SQL column. */
  predicate Ignores(cols: Columns, conds: Conditions, column: string) {
    forall key | key in conds && key in cols :: cols[key].1 != column
  }

  /** If every alternative repeats the added condition, the result is confined to it. */
  lemma {:induction false} CarryingConfines(d: Dialect, cols: Columns, f: Filter, key: string, clause: Clause)
    requires key in cols && Supports(cols[key].0, clause)
    requires forall i | 0 <= i < |AlternativesOf(f)| :: Carries(AlternativesOf(f)[i], key, clause)
    ensures Confined(d, cols, WithCondition(f, key, clause), key, clause)
  {
    forall i, row | 0 <= i < |AlternativesOf(f)| && AllKnownAccept(d, cols, AlternativesOf(f)[i], row)
      ensures Accepts(d, cols[key].0, clause, Cell(row, cols[key].1))
    {
      assert Known(cols, AlternativesOf(f)[i], key) && AcceptsAt(d, cols, AlternativesOf(f)[i], key, row);
    }
    ConfinedIff(d, cols, f, key, clause);
  }

  /** If the added condition rejects NULL and some alternative accepts a row without reading the condition's
      column, a row with NULL there escapes. */
  lemma {:induction false} IgnoringEscapes(d: Dialect, cols: Columns, f: Filter, key: string, clause: Clause, i: nat,
                                           row: Row)
    returns (escaped: Row)
    requires key in cols && i < |AlternativesOf(f)|
    requires Ignores(cols, AlternativesOf(f)[i], cols[key].1) && AllKnownAccept(d, cols, AlternativesOf(f)[i], row)
    requires !Accepts(d, cols[key].0, clause, Null)
    ensures Selected(d, cols, WithCondition(f, key, clause), escaped) && Cell(escaped, cols[key].1) == Null
    ensures !Confined(d, cols, WithCondition(f, key, clause), key, clause)
  {
    var alt := AlternativesOf(f)[i];
    escaped := row - {cols[key].1};
    assert AlternativesOf(WithCondition(f, key, clause))[i] == alt;
    forall k | Known(cols, alt, k) ensures AcceptsAt(d, cols, alt, k, escaped) {
      assert AcceptsAt(d, cols, alt, k, row) && Cell(escaped, cols[k].1) == Cell(row, cols[k].1);
    }
  }

  /** No two public names stand for the same SQL column. */
  predicate DistinctColumns(cols: Columns) {
    forall k, l | k in cols && l in cols && k != l :: cols[k].1 != cols[l].1
  }

  /** An alternative made of readable equalities. */
  predicate OnlyEqualities(d: Dialect, cols: Columns, conds: Conditions) {
    forall k | k in conds && k in cols :: conds[k].Eq? && Literal(d, cols[k].0, conds[k].text).Some?
  }

  /** The row that an alternative of equalities spells out. */
  function Spelled(d: Dialect, cols: Columns, conds: Conditions): Row
    requires DistinctColumns(cols) && OnlyEqualities(d, cols, conds)
  {
    map k | k in conds && k in cols :: cols[k].1 := Literal(d, cols[k].0, conds[k].text).value
  }

  lemma {:induction false} SpelledIsAccepted(d: Dialect, cols: Columns, conds: Conditions)
    requires DistinctColumns(cols) && OnlyEqualities(d, cols, conds)
    ensures AllKnownAccept(d, cols, conds, Spelled(d, cols, conds))
  {
    forall k | Known(cols, conds, k) ensures AcceptsAt(d, cols, conds, k, Spelled(d, cols, conds)) {
      assert cols[k].1 in Spelled(d, cols, conds);
    }
  }

  /** The alternative asks for the same value in the added condition's column. */
  predicate Repeats(d: Dialect, cols: Columns, conds: Conditions, key: string, text: string)
    requires key in cols
  {
    key in conds && conds[key].Eq? && Literal(d, cols[key].0, conds[key].text) == Literal(d, cols[key].0, text)
  }

  /** For filters whose alternatives are equalities, which their texts alone decide: adding an equality
      confines the result to it if and only if every alternative repeats it. */
  lemma {:induction false} EqualitiesConfinedIff(d: Dialect, cols: Columns, f: Filter, key: string, text: string)
    requires DistinctColumns(cols) && key in cols && Supports(cols[key].0, Eq(text))
    requires Literal(d, cols[key].0, text).Some?
    requires forall i | 0 <= i < |AlternativesOf(f)| :: OnlyEqualities(d, cols, AlternativesOf(f)[i])
    ensures Confined(d, cols, WithCondition(f, key, Eq(text)), key, Eq(text))
            <==> forall i | 0 <= i < |AlternativesOf(f)| :: Repeats(d, cols, AlternativesOf(f)[i], key, text)
  {
    var alts := AlternativesOf(f);
    ConfinedIff(d, cols, f, key, Eq(text));
    forall i | 0 <= i < |alts|
      ensures (forall row | AllKnownAccept(d, cols, alts[i], row) ::
                 Accepts(d, cols[key].0, Eq(text), Cell(row, cols[key].1)))
              <==> Repeats(d, cols, alts[i], key, text)
    {
      EqualityConfines(d, cols, alts[i], key, text);
    }
    if i :| 0 <= i < |alts| && !Repeats(d, cols, alts[i], key, text) {
      var row :| AllKnownAccept(d, cols, alts[i], row) && !Accepts(d, cols[key].0, Eq(text), Cell(row, cols[key].1));
    }
  }

  lemma {:induction false} EqualityConfines(d: Dialect, cols: Columns, conds: Conditions, key: string, text: string)
    requires DistinctColumns(cols) && key in cols && OnlyEqualities(d, cols, conds)
    requires Literal(d, cols[key].0, text).Some?
    ensures (forall row | AllKnownAccept(d, cols, conds, row) ::
               Accepts(d, cols[key].0, Eq(text), Cell(row, cols[key].1)))
            <==> Repeats(d, cols, conds, key, text)
  {
    var spelled := Spelled(d, cols, conds);
    SpelledIsAccepted(d, cols, conds);
    if key in conds {
      assert Known(cols, conds, key) && AcceptsAt(d, cols, conds, key, spelled);
      if Repeats(d, cols, conds, key, text) {
        forall row | AllKnownAccept(d, cols, conds, row)
          ensures Accepts(d, cols[key].0, Eq(text), Cell(row, cols[key].1)) {
          assert AcceptsAt(d, cols, conds, key, row);
        }
      }
    } else {
      assert cols[key].1 !in spelled;
    }
  }

  // ---------------------------------------------------------------- confinement, clause by clause

  ghost predicate AcceptsNothing(d: Dialect, ty: ColumnType, c: Clause) { forall v :: !Accepts(d, ty, c, v) }

  ghost predicate Implies(d: Dialect, ty: ColumnType, c: Clause, clause: Clause) {
    forall v | Accepts(d, ty, c, v) :: Accepts(d, ty, clause, v)
  }

  /** One of the alternative's own clauses settles it: one that accepts nothing, or the one on the added
      condition's column, which implies it; without a clause there, the added condition accepts everything. */
  ghost predicate Forces(d: Dialect, cols: Columns, conds: Conditions, key: string, clause: Clause)
    requires key in cols
  {
    || (exists k :: Known(cols, conds, k) && AcceptsNothing(d, cols[k].0, conds[k]))
    || (if key in conds then Implies(d, cols[key].0, conds[key], clause)
        else forall v :: Accepts(d, cols[key].0, clause, v))
  }

  ghost function SomeAccepted(d: Dialect, ty: ColumnType, c: Clause): (v: Value)
    requires !AcceptsNothing(d, ty, c)
    ensures Accepts(d, ty, c, v)
  {
    var v :| Accepts(d, ty, c, v); v
  }

  /** A row that every clause of the alternative accepts, with `v` in the column of `key`. */
  lemma {:induction false} RowWith(d: Dialect, cols: Columns, conds: Conditions, key: string, v: Value)
    returns (row: Row)
    requires DistinctColumns(cols) && key in cols
    requires forall k | Known(cols, conds, k) :: !AcceptsNothing(d, cols[k].0, conds[k])
    requires key in conds ==> Accepts(d, cols[key].0, conds[key], v)
    ensures AllKnownAccept(d, cols, conds, row) && Cell(row, cols[key].1) == v
  {
    row := (map k | k in conds && k in cols :: cols[k].1 := SomeAccepted(d, cols[k].0, conds[k]))[cols[key].1 := v];
    forall k | Known(cols, conds, k) ensures AcceptsAt(d, cols, conds, k, row) {
      if k != key { assert Cell(row, cols[k].1) == SomeAccepted(d, cols[k].0, conds[k]); }
    }
  }

  lemma {:induction false} AlternativeConfinedIff(d: Dialect, cols: Columns, conds: Conditions, key: string,
                                                  clause: Clause)
    requires DistinctColumns(cols) && key in cols
    ensures (forall row | AllKnownAccept(d, cols, conds, row) ::
               Accepts(d, cols[key].0, clause, Cell(row, cols[key].1)))
            <==> Forces(d, cols, conds, key, clause)
  {
    if Forces(d, cols, conds, key, clause) {
      forall row | AllKnownAccept(d, cols, conds, row)
        ensures Accepts(d, cols[key].0, clause, Cell(row, cols[key].1))
      {
        assert forall k | Known(cols, conds, k) :: AcceptsAt(d, cols, conds, k, row);
        assert key in conds ==> Known(cols, conds, key);
      }
    } else {
      var v :| (key in conds ==> Accepts(d, cols[key].0, conds[key], v)) && !Accepts(d, cols[key].0, clause, v);
      var row := RowWith(d, cols, conds, key, v);
    }
  }

  /** For every filter and every added condition: the result is confined to the condition if and only if
      each alternative has a clause that forces it. */
  lemma {:induction false} ForcedIffConfined(d: Dialect, cols: Columns, f: Filter, key: string, clause: Clause)
    requires DistinctColumns(cols) && key in cols && Supports(cols[key].0, clause)
    ensures Confined(d, cols, WithCondition(f, key, clause), key, clause)
            <==> forall i | 0 <= i < |AlternativesOf(f)| :: Forces(d, cols, AlternativesOf(f)[i], key, clause)
  {
    var alts := AlternativesOf(f);
    ConfinedIff(d, cols, f, key, clause);
    forall i | 0 <= i < |alts|
      ensures (forall row | AllKnownAccept(d, cols, alts[i], row) ::
                 Accepts(d, cols[key].0, clause, Cell(row, cols[key].1)))
              <==> Forces(d, cols, alts[i], key, clause)
    {
      AlternativeConfinedIff(d, cols, alts[i], key, clause);
    }
  }

  const NAMESPACE_ONLY: Columns := map["namespace_name" := (Text, "cargoes.namespace_name")]

  /** A caller's filter with one empty alternative escapes the namespace the daemon adds: it lists the
      objects of every other namespace too. */
  lemma {:induction false} NamespaceEscapes(d: Dialect, mine: string, theirs: string)
    requires mine != theirs
    ensures var f := Filter(Some(Where(map[], Some([map[]]))), None, None);
            var listed := WithCondition(f, "namespace_name", Eq(mine));
            && Selected(d, NAMESPACE_ONLY, listed, map["cargoes.namespace_name" := Str(theirs)])
            && !Confined(d, NAMESPACE_ONLY, listed, "namespace_name", Eq(mine))
  {
    var none: Conditions := map[];
    var f := Filter(Some(Where(none, Some([none]))), None, None);
    var listed := WithCondition(f, "namespace_name", Eq(mine));
    var row: Row := map["cargoes.namespace_name" := Str(theirs)];
    assert AlternativesOf(listed)[0] == none && AllKnownAccept(d, NAMESPACE_ONLY, none, row);
    assert Cell(row, "cargoes.namespace_name") == Str(theirs);
    assert !Accepts(d, Text, Eq(mine), Str(theirs));
  }

  /** Without alternatives, a further condition means one more thing to accept and the old condition
      on that column forgotten. */
  lemma {:induction false} ConditionsConjoin(d: Dialect, cols: Columns, f: Filter, key: string, clause: Clause,
                                             row: Row)
    requires AlternativesOf(f) == [] && key in cols && Supports(cols[key].0, clause)
    ensures Selected(d, cols, WithCondition(f, key, clause), row) <==>
            && Accepts(d, cols[key].0, clause, Cell(row, cols[key].1))
            && AllEffectiveAccept(d, cols, ConditionsOf(f) - {key}, row)
  {
    var g := WithCondition(f, key, clause);
    var rest, all := ConditionsOf(f) - {key}, ConditionsOf(g);
    assert Effective(cols, all, key) && AcceptsAt(d, cols, all, key, row) ==
      Accepts(d, cols[key].0, clause, Cell(row, cols[key].1));
    assert forall k :: Effective(cols, all, k) <==> k == key || Effective(cols, rest, k);
    assert forall k | Effective(cols, rest, k) :: AcceptsAt(d, cols, all, k, row) == AcceptsAt(d, cols, rest, k, row);
  }
}
