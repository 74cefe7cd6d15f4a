/** What one clause on one column makes of a query, for every column type and every clause, stated on the rows
    and the database's own comparisons alone. */
module FilterTable {
  import opened Options
  import opened GenericFilter

  /** One condition, at the top level of the filter or as its only alternative. */
  function Single(key: string, c: Clause, alternative: bool): Filter {
    Filter(Some(if alternative then Where(map[], Some([map[key := c]])) else Where(map[key := c], None)), None, None)
  }

  /** The query selects exactly the rows whose cell in `column` passes the test; a row without the cell reads as
      NULL there. */
  ghost predicate Exactly(d: Dialect, r: Compiled, column: string, test: Value -> bool) {
    r.Query? && forall row: Row :: Selects(d, r.where_, row) <==> test(if column in row then row[column] else Null)
  }

  /** A clause the column type has no arm for: without effect at the top level, a panic in an alternative. */
  ghost predicate NoArm(d: Dialect, r: Compiled, alternative: bool) {
    if alternative then r.Panic? else r.Query? && forall row: Row :: Selects(d, r.where_, row)
  }

  lemma {:induction false} SingleSelected(d: Dialect, cols: Columns, key: string, c: Clause, alternative: bool)
    requires key in cols
    ensures var f := Single(key, c, alternative);
            var l := Lower(d, cols[key].0, c);
            && (Panicky(d, cols, f) <==> if alternative then !l.Usable? else l.BadDate?)
            && forall row :: Selected(d, cols, f, row) <==>
                 (Supports(cols[key].0, c) || alternative ==> Accepts(d, cols[key].0, c, Cell(row, cols[key].1)))
  {
    var f := Single(key, c, alternative);
    if alternative {
      SingleAlternative(d, cols, key, c);
    } else {
      SingleCondition(d, cols, key, c);
    }
  }

  lemma {:induction false} SingleCondition(d: Dialect, cols: Columns, key: string, c: Clause)
    requires key in cols
    ensures Panicky(d, cols, Single(key, c, false)) <==> Lower(d, cols[key].0, c).BadDate?
    ensures forall row :: Selected(d, cols, Single(key, c, false), row) <==>
              (Supports(cols[key].0, c) ==> Accepts(d, cols[key].0, c, Cell(row, cols[key].1)))
  {
    var conds := ConditionsOf(Single(key, c, false));
    assert conds == map[key := c] && AlternativesOf(Single(key, c, false)) == [];
    assert BadTop(d, cols, conds, key) <==> Lower(d, cols[key].0, c).BadDate?;
    assert Effective(cols, conds, key) <==> Supports(cols[key].0, c);
    forall row
      ensures AllEffectiveAccept(d, cols, conds, row) <==>
              (Supports(cols[key].0, c) ==> Accepts(d, cols[key].0, c, Cell(row, cols[key].1)))
    {
      assert AcceptsAt(d, cols, conds, key, row) == Accepts(d, cols[key].0, c, Cell(row, cols[key].1));
    }
  }

  lemma {:induction false} SingleAlternative(d: Dialect, cols: Columns, key: string, c: Clause)
    requires key in cols
    ensures Panicky(d, cols, Single(key, c, true)) <==> !Lower(d, cols[key].0, c).Usable?
    ensures forall row :: Selected(d, cols, Single(key, c, true), row) <==>
              Accepts(d, cols[key].0, c, Cell(row, cols[key].1))
  {
    var f := Single(key, c, true);
    var alt: Conditions := map[key := c];
    assert ConditionsOf(f) == map[] && AlternativesOf(f) == [alt] && AlternativesOf(f)[0] == alt;
    assert BadAlternative(d, cols, alt, key) <==> !Lower(d, cols[key].0, c).Usable?;
    assert Known(cols, alt, key);
    forall row
      ensures AllKnownAccept(d, cols, alt, row) <==> Accepts(d, cols[key].0, c, Cell(row, cols[key].1))
    {
      assert AcceptsAt(d, cols, alt, key, row) == Accepts(d, cols[key].0, c, Cell(row, cols[key].1));
    }
  }

  /** A column of text. */
  method TextColumn(d: Dialect, cols: Columns, key: string, column: string, c: Clause, alternative: bool)
    returns (r: Compiled)
    requires key in cols && cols[key] == (Text, column)
    ensures match c
            case Eq(x) => Exactly(d, r, column, v => v == Str(x))
            case Ne(x) => Exactly(d, r, column, v => v != Null && v != Str(x))
            case Gt(x) => Exactly(d, r, column, v => v != Null && d.less(Str(x), v))
            case Lt(x) => Exactly(d, r, column, v => v != Null && d.less(v, Str(x)))
            case Ge(x) => Exactly(d, r, column, v => v != Null && !d.less(v, Str(x)))
            case Le(x) => Exactly(d, r, column, v => v != Null && !d.less(Str(x), v))
            case Like(p) => Exactly(d, r, column, v => v != Null && d.like(v, p))
            case NotLike(p) => Exactly(d, r, column, v => v != Null && !d.like(v, p))
            case In(xs) => Exactly(d, r, column, (v: Value) => v.Str? && v.s in xs)
            case NotIn(xs) => Exactly(d, r, column, (v: Value) => xs == [] || (v != Null && !(v.Str? && v.s in xs)))
            case IsNull => Exactly(d, r, column, v => v == Null)
            case IsNotNull => Exactly(d, r, column, v => v != Null)
            case Contains(_) => NoArm(d, r, alternative)
            case HasKey(_) => NoArm(d, r, alternative)
  {
    r := GenSqlQuery(d, cols, Single(key, c, alternative));
    SingleSelected(d, cols, key, c, alternative);
  }

  /** A column of JSON. */
  method JsonColumn(d: Dialect, cols: Columns, key: string, column: string, c: Clause, alternative: bool)
    returns (r: Compiled)
    requires key in cols && cols[key] == (Json, column)
    ensures match c
            case Contains(doc) => Exactly(d, r, column, v => v != Null && d.contains(v, doc))
            case HasKey(k) => Exactly(d, r, column, v => v != Null && d.hasKey(v, k))
            case IsNull => Exactly(d, r, column, v => v == Null)
            case IsNotNull => Exactly(d, r, column, v => v != Null)
            case _ => NoArm(d, r, alternative)
  {
    r := GenSqlQuery(d, cols, Single(key, c, alternative));
    SingleSelected(d, cols, key, c, alternative);
  }

  /** A column of uuids: an unreadable one is compared as the nil uuid. */
  method UuidColumn(d: Dialect, cols: Columns, key: string, column: string, c: Clause, alternative: bool)
    returns (r: Compiled)
    requires key in cols && cols[key] == (Uuid, column)
    ensures match c
            case Eq(x) =>
              Exactly(d, r, column,
                      v => v == Id(if d.parseUuid(x).Some? then d.parseUuid(x).value else d.nilUuid))
            case IsNull => Exactly(d, r, column, v => v == Null)
            case IsNotNull => Exactly(d, r, column, v => v != Null)
            case _ => NoArm(d, r, alternative)
  {
    r := GenSqlQuery(d, cols, Single(key, c, alternative));
    SingleSelected(d, cols, key, c, alternative);
  }

  /** Compared with one date: a panic when it cannot be read. */
  ghost predicate OnDate(d: Dialect, r: Compiled, column: string, x: string, test: (Value, Value) -> bool) {
    match d.parseDate(x)
    case None => r.Panic?
    case Some(t) => Exactly(d, r, column, v => v != Null && test(v, Time(t)))
  }

  /** Compared with a list of dates: a panic when one of them cannot be read. */
  ghost predicate OnDates(d: Dialect, r: Compiled, column: string, xs: seq<string>, test: Value -> bool) {
    if exists i :: 0 <= i < |xs| && d.parseDate(xs[i]).None? then r.Panic? else Exactly(d, r, column, test)
  }

  ghost predicate IsOneOf(d: Dialect, v: Value, xs: seq<string>) {
    v.Time? && exists i :: 0 <= i < |xs| && d.parseDate(xs[i]) == Some(v.t)
  }

  /** A column of dates. */
  method TimestamptzColumn(d: Dialect, cols: Columns, key: string, column: string, c: Clause, alternative: bool)
    returns (r: Compiled)
    requires key in cols && cols[key] == (Timestamptz, column)
    ensures match c
            case Eq(x) => OnDate(d, r, column, x, (v, t) => v == t)
            case Ne(x) => OnDate(d, r, column, x, (v, t) => v != t)
            case Gt(x) => OnDate(d, r, column, x, (v, t) => d.less(t, v))
            case Lt(x) => OnDate(d, r, column, x, (v, t) => d.less(v, t))
            case Ge(x) => OnDate(d, r, column, x, (v, t) => !d.less(v, t))
            case Le(x) => OnDate(d, r, column, x, (v, t) => !d.less(t, v))
            case In(xs) => OnDates(d, r, column, xs, v => IsOneOf(d, v, xs))
            case NotIn(xs) => OnDates(d, r, column, xs, v => xs == [] || (v != Null && !IsOneOf(d, v, xs)))
            case IsNull => Exactly(d, r, column, v => v == Null)
            case IsNotNull => Exactly(d, r, column, v => v != Null)
            case _ => NoArm(d, r, alternative)
  {
    r := GenSqlQuery(d, cols, Single(key, c, alternative));
    SingleSelected(d, cols, key, c, alternative);
  }

  lemma {:induction false} UnknownSelected(d: Dialect, cols: Columns, key: string, c: Clause, alternative: bool)
    requires key !in cols
    ensures !Panicky(d, cols, Single(key, c, alternative))
    ensures forall row :: Selected(d, cols, Single(key, c, alternative), row)
  {
    var f := Single(key, c, alternative);
    if alternative {
      var alt: Conditions := map[key := c];
      assert AlternativesOf(f) == [alt] && AlternativesOf(f)[0] == alt && ConditionsOf(f) == map[];
      assert forall row :: AllKnownAccept(d, cols, alt, row);
    } else {
      assert AlternativesOf(f) == [] && ConditionsOf(f) == map[key := c];
    }
  }

  /** A condition on a name that is no column has no effect, and selects everything as an alternative. */
  method UnknownColumn(d: Dialect, cols: Columns, key: string, c: Clause, alternative: bool) returns (r: Compiled)
    requires key !in cols
    ensures r.Query? && forall row: Row :: Selects(d, r.where_, row)
  {
    UnknownSelected(d, cols, key, c, alternative);
    r := GenSqlQuery(d, cols, Single(key, c, alternative));
  }

  // ---------------------------------------------------------------- filters the programs send

  /** The filter that lists the members of a group in a namespace: selected are the rows of that namespace whose
      metadata contains the document. */
  method GroupListing(d: Dialect, metadata: string, namespace: string, doc: string, name: string)
    returns (r: Compiled)
    ensures r.Query?
    ensures forall row: Row :: Selects(d, r.where_, row) <==>
              && metadata in row && row[metadata] != Null && d.contains(row[metadata], doc)
              && namespace in row && row[namespace] == Str(name)
  {
    var cols: Columns := map["metadata" := (Json, metadata), "namespace_name" := (Text, namespace)];
    var f := WithCondition(WithCondition(EVERYTHING, "metadata", Contains(doc)), "namespace_name", Eq(name));
    r := GenSqlQuery(d, cols, f);
    GroupSelected(d, cols, metadata, namespace, doc, name);
  }

  lemma {:induction false} GroupSelected(d: Dialect, cols: Columns, metadata: string, namespace: string, doc: string,
                                         name: string)
    requires cols == map["metadata" := (Json, metadata), "namespace_name" := (Text, namespace)]
    ensures var f := WithCondition(WithCondition(EVERYTHING, "metadata", Contains(doc)), "namespace_name", Eq(name));
            && !Panicky(d, cols, f)
            && forall row :: Selected(d, cols, f, row) <==>
                 && Accepts(d, Json, Contains(doc), Cell(row, metadata))
                 && Accepts(d, Text, Eq(name), Cell(row, namespace))
  {
    var g := WithCondition(EVERYTHING, "metadata", Contains(doc));
    var f := WithCondition(g, "namespace_name", Eq(name));
    assert ConditionsOf(g) - {"namespace_name"} == map["metadata" := Contains(doc)];
    assert ConditionsOf(f) == map["metadata" := Contains(doc), "namespace_name" := Eq(name)];
    forall row
      ensures Selected(d, cols, f, row) <==>
              && Accepts(d, Json, Contains(doc), Cell(row, metadata))
              && Accepts(d, Text, Eq(name), Cell(row, namespace))
    {
      var rest: Conditions := map["metadata" := Contains(doc)];
      ConditionsConjoin(d, cols, g, "namespace_name", Eq(name), row);
      assert Effective(cols, rest, "metadata");
      assert AcceptsAt(d, cols, rest, "metadata", row) == Accepts(d, Json, Contains(doc), Cell(row, metadata));
    }
  }
}
