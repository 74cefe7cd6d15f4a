/** What boot synchronisation guarantees: agreement between the process table and the containers, and
    quiet when it is repeated. */
module BootAgreement {
  import opened Options
  import opened Specs
  import opened Store
  import opened CargoHistory
  import opened BootSync

  // ---------------------------------------------------------------- the labels

  predicate Carries(s: Summary, tag: string, value: string) {
    s.labels.Some? && tag in s.labels.value && s.labels.value[tag] == value
  }

  /** The container's labels make it one of this object's: each kind has its own label for the key. */
  predicate BelongsTo(s: Summary, kind: string, key: string) {
    && Carries(s, "io.nanocl.kind", kind)
    && match kind
       case "cargo" => Carries(s, "io.nanocl.c", key)
       case "job" => Carries(s, "io.nanocl.j", key)
       case "vm" => Carries(s, "io.nanocl.v", key)
       case _ => false
  }

  lemma {:induction false} LabelledIff(s: Summary, kind: string, key: string)
    ensures BelongsTo(s, kind, key) <==> Labelled(s) == Some((kind, key))
  {}

  /** A container with this id is listed with the labels of this object. */
  ghost predicate ListedAs(list: seq<Summary>, id: string, kind: string, key: string) {
    exists j :: 0 <= j < |list| && GetOr(list[j].id, "") == id && BelongsTo(list[j], kind, key)
  }

  ghost predicate Listed(list: seq<Summary>, id: string) {
    exists kind, key :: ListedAs(list, id, kind, key)
  }

  // ---------------------------------------------------------------- the process table

  /** Ids of the labelled containers among the first `n`. */
  function Ids(list: seq<Summary>, n: nat): set<string>
    requires n <= |list|
  {
    if n == 0 then {}
    else Ids(list, n - 1) + if Labelled(list[n - 1]).Some? then {IdOf(list[n - 1])} else {}
  }

  /** The same with the kind and key each of them is labelled with. */
  function Claims(list: seq<Summary>, n: nat): set<(string, (string, string))>
    requires n <= |list|
  {
    if n == 0 then {}
    else
      Claims(list, n - 1)
      + if Labelled(list[n - 1]).Some? then {(IdOf(list[n - 1]), Labelled(list[n - 1]).value)} else {}
  }

  /** The row of a listed container: with its inspected data, and otherwise the row there was before or, when
      there was none, a row of this node that dates from the container's creation. */
  predicate Refreshed(w: World, now: int, before: Processes, id: string, row: Proc) {
    && w.inspect(id) == Some(row.data)
    && (if id in before then
          if before[id].data == row.data then row == before[id]
          else row == before[id].(name := ProcName(row.data), data := row.data, updatedAt := now)
        else
          && row.name == ProcName(row.data) && row.node == w.host && row.updatedAt == now
          && w.parseDate(GetOr(row.data.created, "")) == Some(row.createdAt))
  }

  ghost predicate TableAfter(w: World, now: int, ids: set<string>, claims: set<(string, (string, string))>,
                             before: Processes, procs: Processes) {
    && procs.Keys == before.Keys + ids
    && (forall id | id in before && id !in ids :: procs[id] == before[id])
    && (forall id | id in ids :: Refreshed(w, now, before, id, procs[id]))
    && (forall id | id in ids && id !in before :: (id, (procs[id].kind, procs[id].kindKey)) in claims)
  }

  lemma {:induction false} RowFollows(w: World, ids: set<string>, claims: set<(string, (string, string))>,
                                      before: Processes,
                                      was: Processes, kind: string, key: string, id: string, now: int)
    requires Faithful(w) && w.inspect(id).Some?
    requires TableAfter(w, now, ids, claims, before, was)
    requires ProcessSynced(w, was, kind, key, w.inspect(id).value, now).Some?
    ensures TableAfter(w, now, ids + {id}, claims + {(id, (kind, key))}, before,
                       ProcessSynced(w, was, kind, key, w.inspect(id).value, now).value)
  {
    var c := w.inspect(id).value;
    assert GetOr(c.id, "") == id;
  }

  /** A step leaves the process table to `ProcessSynced` alone. */
  lemma {:induction false} StepOnProcesses(w: World, b: Boot, s: Summary, u: Uuid, refused: bool, now: int)
    requires Step(w, b, s, u, refused, now).ok
    ensures var b' := Step(w, b, s, u, refused, now).boot;
            if Labelled(s).None? then b'.procs == b.procs && b'.ids == b.ids
            else
              var (kind, key) := Labelled(s).value;
              && w.inspect(IdOf(s)).Some?
              && Some(b'.procs) == ProcessSynced(w, b.procs, kind, key, w.inspect(IdOf(s)).value, now)
              && b'.ids == b.ids + [IdOf(s)]
  {}

  lemma {:induction false} TableFollows(w: World, i: Input, b: Boot, n: nat)
    requires Faithful(w) && n <= |i.list| == |i.keys| && b.ids == []
    requires RunTo(w, i, b, n).ok
    ensures TableAfter(w, i.now, Ids(i.list, n), Claims(i.list, n), b.procs, RunTo(w, i, b, n).boot.procs)
    ensures forall id :: id in RunTo(w, i, b, n).boot.ids <==> id in Ids(i.list, n)
    decreases n
  {
    if n == 0 {
      assert b.procs.Keys == b.procs.Keys + {};
    } else {
      TableFollows(w, i, b, n - 1);
      var was, s := RunTo(w, i, b, n - 1).boot, i.list[n - 1];
      StepOnProcesses(w, was, s, i.keys[n - 1], n - 1 in i.refused, i.now);
      if Labelled(s).Some? {
        RowFollows(w, Ids(i.list, n - 1), Claims(i.list, n - 1), b.procs, was.procs,
                   Labelled(s).value.0, Labelled(s).value.1, IdOf(s), i.now);
      } else {
        assert Ids(i.list, n) == Ids(i.list, n - 1) && Claims(i.list, n) == Claims(i.list, n - 1);
      }
    }
  }

  function Final(w: World, i: Input, b: Boot): Processes
    requires |i.list| == |i.keys|
  {
    var r := RunTo(w, i, b, |i.list|);
    if r.ok then Swept(r.boot.procs, r.boot.ids, w.host) else r.boot.procs
  }

  lemma {:induction false} ClaimsAreLabels(list: seq<Summary>, n: nat, id: string, kind: string, key: string)
    requires n <= |list|
    ensures (id, (kind, key)) in Claims(list, n) <==>
            exists j :: 0 <= j < n && GetOr(list[j].id, "") == id && BelongsTo(list[j], kind, key)
    decreases n
  {
    if n > 0 {
      ClaimsAreLabels(list, n - 1, id, kind, key);
      LabelledIff(list[n - 1], kind, key);
    }
  }

  lemma {:induction false} IdsAreClaimed(list: seq<Summary>, n: nat, id: string)
    requires n <= |list|
    ensures id in Ids(list, n) <==> exists kind, key :: (id, (kind, key)) in Claims(list, n)
    decreases n
  {
    if n > 0 {
      IdsAreClaimed(list, n - 1, id);
      if id in Ids(list, n) && id !in Ids(list, n - 1) {
        assert (id, (Labelled(list[n - 1]).value.0, Labelled(list[n - 1]).value.1)) in Claims(list, n);
      }
      if kind, key :| (id, (kind, key)) in Claims(list, n - 1) {
        assert (id, (kind, key)) in Claims(list, n);
      }
    }
  }

  /** The two collections in terms of the labels. */
  lemma {:induction false} CollectedLabels(list: seq<Summary>)
    ensures forall id :: id in Ids(list, |list|) <==> Listed(list, id)
    ensures forall id, kind, key :: (id, (kind, key)) in Claims(list, |list|) <==> ListedAs(list, id, kind, key)
  {
    forall id, kind, key
      ensures (id, (kind, key)) in Claims(list, |list|) <==> ListedAs(list, id, kind, key)
    {
      ClaimsAreLabels(list, |list|, id, kind, key);
    }
    forall id ensures id in Ids(list, |list|) <==> Listed(list, id) {
      IdsAreClaimed(list, |list|, id);
    }
  }

  /** When boot synchronisation succeeds, every container listed as a cargo's, job's or vm's has a row with its
      inspected data, and one that had none gets the kind and key of a listed container with its id; this node's
      rows are those of such containers only, and every other row is another node's, untouched. */
  lemma {:induction false} TableAgrees(w: World, i: Input, procs: Processes, t: Tables, namespaces: set<string>)
    requires Faithful(w) && |i.list| == |i.keys| && RunTo(w, i, Begin(procs, t, namespaces), |i.list|).ok
    ensures var after := Final(w, i, Begin(procs, t, namespaces));
            && (forall id | Listed(i.list, id) :: id in after && Refreshed(w, i.now, procs, id, after[id]))
            && (forall id | Listed(i.list, id) && id !in procs ::
                  ListedAs(i.list, id, after[id].kind, after[id].kindKey))
            && (forall id | id in after && after[id].node == w.host :: Listed(i.list, id))
            && (forall id | !Listed(i.list, id) ::
                  && (id in after <==> id in procs && procs[id].node != w.host)
                  && (id in after ==> after[id] == procs[id]))
  {
    TableFollows(w, i, Begin(procs, t, namespaces), |i.list|);
    CollectedLabels(i.list);
  }

  // ---------------------------------------------------------------- the cargoes

  predicate IsCargo(s: Summary, key: string) { BelongsTo(s, "cargo", key) }

  /** Position of the first container of the cargo, the only one its configuration is taken from. */
  function FirstAt(list: seq<Summary>, key: string): (j: nat)
    ensures j <= |list| && (j < |list| ==> IsCargo(list[j], key))
    ensures forall k | 0 <= k < j :: !IsCargo(list[k], key)
  {
    if list == [] || IsCargo(list[0], key) then 0 else 1 + FirstAt(list[1..], key)
  }

  /** The configuration is the container's, with its host configuration in the place Docker keeps apart. */
  predicate TakenFrom(k: Config, c: Container) {
    && k.hostConfig == c.hostConfig
    && match c.config
       case Some(own) => k.image == own.image && k.cmd == own.cmd && k.env == own.env && k.rest == own.rest
       case None => k.image.None? && k.cmd.None? && k.env.None? && k.rest == ""
  }

  /** The status of an object that runs, as the container's state tells it. */
  predicate Reflects(status: Status, state: ContainerState) {
    && status.wanted == StatusKind.Start
    && match state
       case Running => status.actual == StatusKind.Start
       case Restarting => status.actual == StatusKind.Fail
       case _ => status.actual == StatusKind.Stop
  }

  /** The cargo is stored with the container's configuration and, when its state says something about it, with
      the status that reflects it. */
  predicate Settled(t: Tables, key: string, c: Container) {
    && Current(t, key).Some? && TakenFrom(Current(t, key).value.body.container, c)
    && (c.state.Some? && c.state.value in {Running, Restarting, Dead, Exited} ==>
          key in t.statuses && Reflects(t.statuses[key], c.state.value))
  }

  lemma {:induction false} TakenIff(k: Config, c: Container)
    ensures TakenFrom(k, c) <==> k == ConfigOf(c)
  {}

  /** Everything known after `n` containers about a cargo first met among them. */
  predicate CargoAfter(w: World, i: Input, n: nat, t: Tables, key: string)
    requires n <= |i.list|
  {
    var j := FirstAt(i.list, key);
    && j < n && DotParts(key).Some? && w.inspect(IdOf(i.list[j])).Some?
    && (Settled(t, key, w.inspect(IdOf(i.list[j])).value) || (Current(t, key).None? && j in i.refused))
  }

  lemma {:induction false} CurrentIsOwn(t: Tables, key: string)
    requires Sound(t) && Current(t, key).Some?
    ensures Current(t, key).value.cargoKey == key && key in t.statuses && ObjId(CargoKind, key) in t.rows
    ensures t.rows[ObjId(CargoKind, key)].specKey.Some?
  {
    assert RowSound(t, ObjId(CargoKind, key));
  }

  /** Tables that differ only in what belongs to the cargo `key`. */
  ghost predicate OnlyTouches(t: Tables, t': Tables, key: string, u: Uuid) {
    && (forall v | v in t.specs :: v in t'.specs && t'.specs[v] == t.specs[v])
    && t'.specs.Keys <= t.specs.Keys + {u} && t.used <= t'.used <= t.used + {u}
    && (forall k | k != key ::
          (k in t'.statuses <==> k in t.statuses) && (k in t.statuses ==> t'.statuses[k] == t.statuses[k]))
    && t.statuses.Keys <= t'.statuses.Keys
    && (forall id | id != ObjId(CargoKind, key) ::
          (id in t'.rows <==> id in t.rows) && (id in t.rows ==> t'.rows[id] == t.rows[id]))
  }

  lemma {:induction false} OthersUnchanged(t: Tables, t': Tables, key: string, u: Uuid, k: string)
    requires Sound(t) && OnlyTouches(t, t', key, u) && k != key
    ensures Current(t', k) == Current(t, k)
    ensures k in t'.statuses <==> k in t.statuses
    ensures k in t.statuses ==> t'.statuses[k] == t.statuses[k]
  {
    var id := ObjId(CargoKind, k);
    if id in t.rows {
      assert RowSound(t, id) && t'.rows[id] == t.rows[id];
    }
  }

  lemma {:induction false} SpecStored(t: Tables, u: Uuid, row: SpecRow)
    requires Sound(t) && KeysDisjoint(t) && Fresh(t, u)
    ensures Sound(InsertSpec(t, u, row)) && KeysDisjoint(InsertSpec(t, u, row))
  {
    forall i | i in t.rows ensures RowSound(InsertSpec(t, u, row), i) { assert RowSound(t, i); }
  }

  lemma {:induction false} StatusClaimed(t: Tables, key: string)
    requires Sound(t) && KeysDisjoint(t) && key !in t.statuses
    ensures Sound(SetStatus(t, key, CREATED)) && KeysDisjoint(SetStatus(t, key, CREATED))
    ensures forall i | i in t.rows :: i.key != key
  {
    forall i | i in t.rows ensures i.key != key && RowSound(SetStatus(t, key, CREATED), i) { assert RowSound(t, i); }
  }

  lemma {:induction false} RowAdded(t: Tables, key: string, name: string, u: Uuid)
    requires Sound(t) && KeysDisjoint(t) && key in t.statuses && (forall i | i in t.rows :: i.key != key)
    requires u in t.specs && t.specs[u].kindKey == key
    ensures var t' := SetRow(t, ObjId(CargoKind, key), Row(name, key, Some(u))); Sound(t') && KeysDisjoint(t')
  {
    var t' := SetRow(t, ObjId(CargoKind, key), Row(name, key, Some(u)));
    forall i | i in t'.rows ensures RowSound(t', i) {
      if i in t.rows { assert RowSound(t, i); }
    }
  }

  /** Creation keeps the store sound wherever it stops; when it succeeds the cargo is stored as asked. */
  lemma {:induction false} CreationFollows(w: World, t: Tables, namespace: string, spec: CargoSpecPartial, u: Uuid)
    requires Sound(t) && KeysDisjoint(t) && Fresh(t, u)
    ensures var key := CargoKey(namespace, spec.name);
            var (t', ok) := CargoCreated(w.alphanumeric, w.version, t, namespace, spec, u);
            && Sound(t') && KeysDisjoint(t') && OnlyTouches(t, t', key, u)
            && (ok ==> u in t'.specs && Current(t', key).Some? && Current(t', key).value.body == spec
                       && t'.statuses[key] == CREATED)
  {
    var key := CargoKey(namespace, spec.name);
    if ValidName(w.alphanumeric, spec.name) {
      var row := FromCargoPartial(key, w.version, spec);
      var t1 := InsertSpec(t, u, row);
      SpecStored(t, u, row);
      if key !in t1.statuses {
        StatusClaimed(t1, key);
        RowAdded(SetStatus(t1, key, CREATED), key, spec.name, u);
      }
    }
    assert spec.(metadata := spec.metadata) == spec;
  }

  lemma {:induction false} StatusFollows(t: Tables, key: string, c: Container)
    requires Sound(t) && KeysDisjoint(t) && key in t.statuses
    ensures StatusSynced(t, key, c).Some?
    ensures var t' := StatusSynced(t, key, c).value;
            && Sound(t') && KeysDisjoint(t') && t'.specs == t.specs && t'.used == t.used && t'.rows == t.rows
            && t'.statuses.Keys == t.statuses.Keys
            && (forall k | k in t.statuses && k != key :: t'.statuses[k] == t.statuses[k])
            && Current(t', key) == Current(t, key)
            && t'.statuses[key].prevWanted == t.statuses[key].prevWanted
            && t'.statuses[key].prevActual == t.statuses[key].prevActual
            && (Observed(c).Some? ==>
                  t'.statuses[key].wanted == StatusKind.Start && t'.statuses[key].actual == Observed(c).value)
  {
    var t' := StatusSynced(t, key, c).value;
    forall id | id in t'.rows ensures RowSound(t', id) { assert RowSound(t, id); }
  }

  lemma {:induction false} UpdateFollows(t: Tables, key: string, spec: CargoSpecPartial, version: string, u: Uuid)
    requires Sound(t) && KeysDisjoint(t) && Fresh(t, u) && Current(t, key).Some?
    ensures ObjId(CargoKind, key) in t.rows
    ensures var id := ObjId(CargoKind, key);
            var t' := SetRow(InsertSpec(t, u, FromCargoPartial(key, version, spec)), id,
                             t.rows[id].(name := spec.name, specKey := Some(u)));
            && Sound(t') && KeysDisjoint(t') && OnlyTouches(t, t', key, u) && t'.statuses == t.statuses
            && Current(t', key).Some? && Current(t', key).value.body == spec
  {
    CurrentIsOwn(t, key);
    var id := ObjId(CargoKind, key);
    var t' := SetRow(InsertSpec(t, u, FromCargoPartial(key, version, spec)), id,
                     t.rows[id].(name := spec.name, specKey := Some(u)));
    forall i | i in t'.rows ensures RowSound(t', i) { assert RowSound(t, i); }
    assert spec.(metadata := spec.metadata) == spec;
  }

  /** Nobody but cargo `key` was touched, and it is settled when all went well. */
  ghost predicate Handled(b: Boot, r: Outcome, key: string, c: Container, u: Uuid) {
    && Sound(r.boot.t) && KeysDisjoint(r.boot.t) && OnlyTouches(b.t, r.boot.t, key, u)
    && r.boot.inspected == b.inspected + {key}
    && (r.ok ==> Settled(r.boot.t, key, c))
  }

  lemma {:induction false} SettledWhen(t: Tables, key: string, c: Container)
    requires Current(t, key).Some? && Current(t, key).value.body.container == ConfigOf(c)
    requires Observed(c).Some? ==> key in t.statuses && t.statuses[key].wanted == StatusKind.Start
                                   && t.statuses[key].actual == Observed(c).value
    ensures Settled(t, key, c)
  {}

  lemma {:induction false} UnknownCargoFollows(w: World, b: Boot, key: string, c: Container, u: Uuid)
    requires Sound(b.t) && KeysDisjoint(b.t) && Fresh(b.t, u)
    requires DotParts(key).Some? && key !in b.inspected && Current(b.t, key).None?
    ensures var r := CargoSynced(w, b, key, c, u, false);
            Handled(b, r, key, c, u) && (r.ok ==> u in r.boot.t.specs)
  {
    var (name, namespace) := DotParts(key).value;
    CreationFollows(w, b.t, namespace, CargoOf(name, c), u);
    var (t, ok) := CargoCreated(w.alphanumeric, w.version, b.t, namespace, CargoOf(name, c), u);
    if ok {
      StatusFollows(t, key, c);
      SettledWhen(StatusSynced(t, key, c).value, key, c);
    }
  }

  lemma {:induction false} KnownCargoFollows(w: World, b: Boot, key: string, c: Container, u: Uuid, refused: bool)
    requires Sound(b.t) && KeysDisjoint(b.t) && Fresh(b.t, u)
    requires DotParts(key).Some? && key !in b.inspected && Current(b.t, key).Some?
    ensures Handled(b, CargoSynced(w, b, key, c, u, refused), key, c, u)
  {
    var (name, namespace) := DotParts(key).value;
    CurrentIsOwn(b.t, key);
    StatusFollows(b.t, key, c);
    var t := StatusSynced(b.t, key, c).value;
    if Current(b.t, key).value.body.container != ConfigOf(c) {
      UpdateFollows(t, key, CargoOf(name, c), w.version, u);
    }
    SettledWhen(CargoSynced(w, b, key, c, u, refused).boot.t, key, c);
  }

  /** One container of a cargo, wherever its handling stops: the store stays sound and only the cargo's
      own rows change; on success the cargo is settled unless its namespace was refused. */
  lemma {:induction false} CargoFollows(w: World, b: Boot, key: string, c: Container, u: Uuid, refused: bool)
    requires Sound(b.t) && KeysDisjoint(b.t) && Fresh(b.t, u)
    ensures var r := CargoSynced(w, b, key, c, u, refused);
            && Sound(r.boot.t) && KeysDisjoint(r.boot.t) && OnlyTouches(b.t, r.boot.t, key, u)
            && (DotParts(key).None? || key in b.inspected ==> r == Outcome(b, true))
            && (DotParts(key).Some? ==> r.boot.inspected == b.inspected + {key})
            && (r.ok && DotParts(key).Some? && key !in b.inspected ==>
                  Settled(r.boot.t, key, c) || (Current(r.boot.t, key).None? && refused))
            && (r.ok && DotParts(key).Some? && key !in b.inspected && Current(b.t, key).None? && !refused ==>
                  u in r.boot.t.specs)
  {
    if DotParts(key).Some? {
      if key in b.inspected {
        assert b.inspected + {key} == b.inspected;
      } else if Current(b.t, key).Some? {
        KnownCargoFollows(w, b, key, c, u, refused);
      } else if !refused {
        UnknownCargoFollows(w, b, key, c, u);
      }
    }
  }

  predicate OfCargo(s: Summary) { Labelled(s).Some? && Labelled(s).value.0 == "cargo" }

  /** Do two outcomes agree on everything but the process table? */
  predicate SameStore(r: Outcome, q: Outcome) {
    && r.ok == q.ok && r.boot.t == q.boot.t
    && r.boot.inspected == q.boot.inspected && r.boot.namespaces == q.boot.namespaces
  }

  lemma {:induction false} CargoIgnoresProcesses(w: World, b: Boot, procs: Processes, ids: seq<string>, key: string,
                                                 c: Container, u: Uuid, refused: bool)
    ensures SameStore(CargoSynced(w, b.(procs := procs, ids := ids), key, c, u, refused),
                      CargoSynced(w, b, key, c, u, refused))
  {
    var b1 := b.(procs := procs, ids := ids);
    if DotParts(key).Some? && key !in b.inspected {
      if Current(b.t, key).Some? {
        var synced := StatusSynced(b.t, Current(b.t, key).value.cargoKey, c);
        assert synced == StatusSynced(b1.t, Current(b1.t, key).value.cargoKey, c);
      }
    }
  }

  /** A step leaves the store to `CargoSynced`, or stops before it gets there, or has nothing to do there. */
  lemma {:induction false} StepOnStore(w: World, b: Boot, s: Summary, u: Uuid, refused: bool, now: int)
    ensures var r := Step(w, b, s, u, refused, now);
            || (!(OfCargo(s) && r.ok) && SameStore(r, Outcome(b, r.ok)))
            || (OfCargo(s) && w.inspect(IdOf(s)).Some?
                && SameStore(r, CargoSynced(w, b, Labelled(s).value.1, w.inspect(IdOf(s)).value, u, refused)))
  {
    if OfCargo(s) && w.inspect(IdOf(s)).Some? {
      var (kind, key) := Labelled(s).value;
      var c := w.inspect(IdOf(s)).value;
      var procs := ProcessSynced(w, b.procs, kind, key, c, now);
      if procs.Some? {
        CargoIgnoresProcesses(w, b, procs.value, b.ids + [IdOf(s)], key, c, u, refused);
      }
    }
  }

  /** A boot keeps references intact and keys disjoint wherever it stops, and never forgets a spec. */
  lemma {:induction false} BootKeepsStoreSound(w: World, i: Input, b: Boot, n: nat)
    requires n <= |i.list| && Usable(i, b.t) && Sound(b.t) && KeysDisjoint(b.t)
    ensures var t' := RunTo(w, i, b, n).boot.t;
            && Sound(t') && KeysDisjoint(t')
            && (forall u | u in b.t.specs :: u in t'.specs && t'.specs[u] == b.t.specs[u])
            && (forall j | n <= j < |i.keys| :: Fresh(t', i.keys[j]))
    decreases n
  {
    if n > 0 {
      BootKeepsStoreSound(w, i, b, n - 1);
      var r := RunTo(w, i, b, n - 1);
      if r.ok {
        StoreStep(w, r.boot, i.list[n - 1], i.keys[n - 1], n - 1 in i.refused, i.now);
      }
    }
  }

  lemma {:induction false} StoreStep(w: World, b: Boot, s: Summary, u: Uuid, refused: bool, now: int)
    requires Sound(b.t) && KeysDisjoint(b.t) && Fresh(b.t, u)
    ensures var t' := Step(w, b, s, u, refused, now).boot.t;
            && Sound(t') && KeysDisjoint(t')
            && (forall v | v in b.t.specs :: v in t'.specs && t'.specs[v] == b.t.specs[v])
            && (forall v | Fresh(b.t, v) && v != u :: Fresh(t', v))
  {
    StepOnStore(w, b, s, u, refused, now);
    if OfCargo(s) && w.inspect(IdOf(s)).Some? {
      CargoFollows(w, b, Labelled(s).value.1, w.inspect(IdOf(s)).value, u, refused);
    }
  }

  /** The cargoes met so far: each settled from its first container, or left out with its namespace refused. */
  ghost predicate CargoesAfter(w: World, i: Input, n: nat, b: Boot)
    requires n <= |i.list|
  {
    && (forall key :: key in b.inspected <==> FirstAt(i.list, key) < n && DotParts(key).Some?)
    && (forall key | key in b.inspected :: CargoAfter(w, i, n, b.t, key))
  }

  lemma {:induction false} FirstMet(list: seq<Summary>, n: nat, key: string)
    requires n < |list|
    ensures FirstAt(list, key) == n ==> OfCargo(list[n]) && Labelled(list[n]).value.1 == key
    ensures IsCargo(list[n], key) ==> FirstAt(list, key) <= n
  {}

  lemma {:induction false} CargoesStepWith(w: World, i: Input, n: nat, b: Boot, b': Boot, key: string, c: Container,
                                           u: Uuid)
    requires n < |i.list| && Sound(b.t) && CargoesAfter(w, i, n, b) && OnlyTouches(b.t, b'.t, key, u)
    requires IsCargo(i.list[n], key) && w.inspect(IdOf(i.list[n])) == Some(c)
    requires DotParts(key).None? || key in b.inspected ==> b'.t == b.t && b'.inspected == b.inspected
    requires DotParts(key).Some? ==> b'.inspected == b.inspected + {key}
    requires DotParts(key).Some? && key !in b.inspected ==>
               Settled(b'.t, key, c) || (Current(b'.t, key).None? && n in i.refused)
    ensures CargoesAfter(w, i, n + 1, b')
  {
    FirstMet(i.list, n, key);
    forall k ensures FirstAt(i.list, k) == n ==> k == key { FirstMet(i.list, n, k); }
    forall k | k in b'.inspected ensures CargoAfter(w, i, n + 1, b'.t, k) {
      if k != key {
        OthersUnchanged(b.t, b'.t, key, u, k);
        assert CargoAfter(w, i, n, b.t, k);
      }
    }
  }

  lemma {:induction false} CargoesStep(w: World, i: Input, n: nat, b: Boot)
    requires n < |i.list| == |i.keys| && Sound(b.t) && KeysDisjoint(b.t) && Fresh(b.t, i.keys[n])
    requires CargoesAfter(w, i, n, b)
    requires Step(w, b, i.list[n], i.keys[n], n in i.refused, i.now).ok
    ensures CargoesAfter(w, i, n + 1, Step(w, b, i.list[n], i.keys[n], n in i.refused, i.now).boot)
  {
    var s, u := i.list[n], i.keys[n];
    var b' := Step(w, b, s, u, n in i.refused, i.now).boot;
    StepOnStore(w, b, s, u, n in i.refused, i.now);
    if OfCargo(s) {
      var key, c := Labelled(s).value.1, w.inspect(IdOf(s)).value;
      CargoFollows(w, b, key, c, u, n in i.refused);
      CargoesStepWith(w, i, n, b, b', key, c, u);
    } else {
      forall k ensures FirstAt(i.list, k) != n { FirstMet(i.list, n, k); }
    }
  }

  lemma {:induction false} CargoesNext(w: World, i: Input, n: nat, r: Outcome)
    requires n < |i.list| == |i.keys| && Sound(r.boot.t) && KeysDisjoint(r.boot.t) && Fresh(r.boot.t, i.keys[n])
    requires r.ok && CargoesAfter(w, i, n, r.boot) && RunNext(w, i, n, r).ok
    ensures CargoesAfter(w, i, n + 1, RunNext(w, i, n, r).boot)
  {
    CargoesStep(w, i, n, r.boot);
  }

  lemma {:induction false} OkBefore(w: World, i: Input, b: Boot, n: nat)
    requires 0 < n <= |i.list| == |i.keys| && RunTo(w, i, b, n).ok
    ensures RunTo(w, i, b, n - 1).ok && RunTo(w, i, b, n) == RunNext(w, i, n - 1, RunTo(w, i, b, n - 1))
  {}

  lemma {:induction false} CargoesFirst(w: World, i: Input, b: Boot)
    requires b.inspected == {}
    ensures CargoesAfter(w, i, 0, b)
  {}

  lemma {:induction false} CargoesFollow(w: World, i: Input, b: Boot, n: nat)
    requires n <= |i.list| && Usable(i, b.t) && Sound(b.t) && KeysDisjoint(b.t) && b.inspected == {}
    requires RunTo(w, i, b, n).ok
    ensures CargoesAfter(w, i, n, RunTo(w, i, b, n).boot)
    decreases n
  {
    if n == 0 {
      CargoesFirst(w, i, b);
    } else {
      OkBefore(w, i, b, n);
      CargoesFollow(w, i, b, n - 1);
      BootKeepsStoreSound(w, i, b, n - 1);
      CargoesNext(w, i, n - 1, RunTo(w, i, b, n - 1));
    }
  }

  // ---------------------------------------------------------------- what a boot stores

  /** The spec is the container's configuration under the name the key gives, and nothing else. */
  ghost predicate StoredFrom(w: World, row: SpecRow, c: Container) {
    && row.version == w.version && row.metadata.None? && row.data.CargoData?
    && var p := row.data.cargo;
       && TakenFrom(p.container, c)
       && p.initContainer.None? && p.replication.None? && p.secrets.None? && p.metadata.None?
       && p.imagePullSecret.None? && p.imagePullPolicy.None?
       && exists namespace ::
            row.kindKey == CargoKey(namespace, p.name) && '.' !in p.name && '.' !in namespace
  }

  /** Spec `v` is the one stored, for the cargo and from the container. */
  ghost predicate StoredFor(w: World, t: Tables, v: Uuid, u: Uuid, key: string, c: Container)
    requires v in t.specs
  {
    v == u && t.specs[v].kindKey == key && StoredFrom(w, t.specs[v], c)
  }

  lemma {:induction false} CargoOfContainer(w: World, key: string, c: Container)
    requires DotParts(key).Some?
    ensures StoredFrom(w, FromCargoPartial(key, w.version, CargoOf(DotParts(key).value.0, c)), c)
  {
    var (name, namespace) := DotParts(key).value;
    DotPartsIff(key, name, namespace);
    TakenIff(CargoOf(name, c).container, c);
    assert key == CargoKey(namespace, name);
  }

  lemma {:induction false} StoredByCargo(w: World, b: Boot, key: string, c: Container, u: Uuid, refused: bool, v: Uuid)
    requires v in CargoSynced(w, b, key, c, u, refused).boot.t.specs && v !in b.t.specs
    ensures StoredFor(w, CargoSynced(w, b, key, c, u, refused).boot.t, v, u, key, c)
  {
    StoredRow(w, b, key, c, u, refused, v);
    CargoOfContainer(w, key, c);
  }

  lemma {:induction false} StoredRow(w: World, b: Boot, key: string, c: Container, u: Uuid, refused: bool, v: Uuid)
    requires v in CargoSynced(w, b, key, c, u, refused).boot.t.specs && v !in b.t.specs
    ensures v == u && DotParts(key).Some?
    ensures CargoSynced(w, b, key, c, u, refused).boot.t.specs[v]
            == FromCargoPartial(key, w.version, CargoOf(DotParts(key).value.0, c))
  {
    if DotParts(key).Some? && Current(b.t, key).None? {
      var (name, namespace) := DotParts(key).value;
      assert CargoKey(namespace, name) == key;
      StoredByCreation(w, b.t, namespace, CargoOf(name, c), u);
    }
  }

  lemma {:induction false} StoredByCreation(w: World, t: Tables, namespace: string, spec: CargoSpecPartial, u: Uuid)
    ensures var specs := CargoCreated(w.alphanumeric, w.version, t, namespace, spec, u).0.specs;
            specs == t.specs
            || specs == t.specs[u := FromCargoPartial(CargoKey(namespace, spec.name), w.version, spec)]
  {}

  /** The spec is that of container number `j`, under the key drawn for it. */
  ghost predicate StoredAt(w: World, i: Input, v: Uuid, row: SpecRow, j: nat)
    requires j < |i.list| == |i.keys|
  {
    && v == i.keys[j] && BelongsTo(i.list[j], "cargo", row.kindKey)
    && w.inspect(GetOr(i.list[j].id, "")).Some?
    && StoredFrom(w, row, w.inspect(GetOr(i.list[j].id, "")).value)
  }

  lemma {:induction false} StoredByStep(w: World, i: Input, b: Boot, j: nat, v: Uuid)
    requires j < |i.list| == |i.keys|
    requires v in Step(w, b, i.list[j], i.keys[j], j in i.refused, i.now).boot.t.specs && v !in b.t.specs
    ensures StoredAt(w, i, v, Step(w, b, i.list[j], i.keys[j], j in i.refused, i.now).boot.t.specs[v], j)
  {
    var s := i.list[j];
    StepOnStore(w, b, s, i.keys[j], j in i.refused, i.now);
    LabelledIff(s, "cargo", Labelled(s).value.1);
    StoredByCargo(w, b, Labelled(s).value.1, w.inspect(IdOf(s)).value, i.keys[j], j in i.refused, v);
  }

  lemma {:induction false} StoredNext(w: World, i: Input, r: Outcome, j: nat, v: Uuid)
    requires j < |i.list| == |i.keys|
    requires v in RunNext(w, i, j, r).boot.t.specs && v !in r.boot.t.specs
    ensures StoredAt(w, i, v, RunNext(w, i, j, r).boot.t.specs[v], j)
  {
    StoredByStep(w, i, r.boot, j, v);
  }

  lemma {:induction false} StoredNow(w: World, i: Input, b: Boot, n: nat, v: Uuid)
    requires n <= |i.list| == |i.keys| && v in RunTo(w, i, b, n).boot.t.specs && v !in b.t.specs
    requires n > 0 ==> v !in RunTo(w, i, b, n - 1).boot.t.specs
    ensures n > 0 && StoredAt(w, i, v, RunTo(w, i, b, n).boot.t.specs[v], n - 1)
  {
    StoredNext(w, i, RunTo(w, i, b, n - 1), n - 1, v);
  }

  /** Each spec a boot has stored is that of a listed container of the cargo, under the key drawn for it. */
  lemma {:induction false} StoredByBoot(w: World, i: Input, b: Boot, n: nat, v: Uuid) returns (j: nat)
    requires n <= |i.list| && Usable(i, b.t) && Sound(b.t) && KeysDisjoint(b.t)
    requires v in RunTo(w, i, b, n).boot.t.specs && v !in b.t.specs
    ensures j < n && StoredAt(w, i, v, RunTo(w, i, b, n).boot.t.specs[v], j)
    decreases n
  {
    if n > 0 && v in RunTo(w, i, b, n - 1).boot.t.specs {
      SpecStays(w, i, b, n, v);
      j := StoredByBoot(w, i, b, n - 1, v);
    } else {
      j := n - 1;
      StoredNow(w, i, b, n, v);
    }
  }

  lemma {:induction false} SpecStays(w: World, i: Input, b: Boot, n: nat, v: Uuid)
    requires 0 < n <= |i.list| && Usable(i, b.t) && Sound(b.t) && KeysDisjoint(b.t)
    requires v in RunTo(w, i, b, n - 1).boot.t.specs
    ensures v in RunTo(w, i, b, n).boot.t.specs
    ensures RunTo(w, i, b, n).boot.t.specs[v] == RunTo(w, i, b, n - 1).boot.t.specs[v]
  {
    BootKeepsStoreSound(w, i, b, n - 1);
    var r := RunTo(w, i, b, n - 1);
    if r.ok { StoreStep(w, r.boot, i.list[n - 1], i.keys[n - 1], n - 1 in i.refused, i.now); }
  }

  /** The namespace part of a cargo's key. */
  function NamespaceOf(key: string): Option<string> {
    if DotParts(key).Some? then Some(DotParts(key).value.1) else None
  }

  lemma {:induction false} CargoRegisters(w: World, b: Boot, key: string, c: Container, u: Uuid, refused: bool)
    ensures var r := CargoSynced(w, b, key, c, u, refused);
            && b.namespaces <= r.boot.namespaces
            && (forall ns | ns in r.boot.namespaces && ns !in b.namespaces :: NamespaceOf(key) == Some(ns))
            && (Current(b.t, key).None? && Current(r.boot.t, key).Some? ==>
                  NamespaceOf(key).Some? && NamespaceOf(key).value in r.boot.namespaces)
  {
    var r := CargoSynced(w, b, key, c, u, refused);
    if DotParts(key).Some? && key !in b.inspected && Current(b.t, key).None? && !refused {
      var (name, namespace) := DotParts(key).value;
      assert r.boot.namespaces == b.namespaces + {namespace};
    } else {
      assert r.boot.namespaces == b.namespaces;
      assert Current(b.t, key).None? ==> r.boot.t == b.t;
    }
  }

  /** Registered are only namespaces of listed cargoes, and those of all cargoes that have come into the store. */
  ghost predicate Registered(list: seq<Summary>, before: Boot, now: Boot) {
    && before.namespaces <= now.namespaces
    && (forall ns | ns in now.namespaces && ns !in before.namespaces ::
          exists j, key :: 0 <= j < |list| && BelongsTo(list[j], "cargo", key) && NamespaceOf(key) == Some(ns))
    && (forall key | Current(before.t, key).None? && Current(now.t, key).Some? ::
          NamespaceOf(key).Some? && NamespaceOf(key).value in now.namespaces)
  }

  /** One more container of cargo `key`, at position `j`. */
  lemma {:induction false} RegisteredNext(list: seq<Summary>, before: Boot, b: Boot, b': Boot, j: nat, key: string,
                                          u: Uuid)
    requires Registered(list, before, b) && j < |list| && BelongsTo(list[j], "cargo", key)
    requires Sound(b.t) && OnlyTouches(b.t, b'.t, key, u) && b.namespaces <= b'.namespaces
    requires forall ns | ns in b'.namespaces && ns !in b.namespaces :: NamespaceOf(key) == Some(ns)
    requires Current(b.t, key).None? && Current(b'.t, key).Some? ==>
               NamespaceOf(key).Some? && NamespaceOf(key).value in b'.namespaces
    ensures Registered(list, before, b')
  {
    forall k | Current(before.t, k).None? && Current(b'.t, k).Some?
      ensures NamespaceOf(k).Some? && NamespaceOf(k).value in b'.namespaces
    {
      if k != key { OthersUnchanged(b.t, b'.t, key, u, k); }
    }
  }

  lemma {:induction false} StepRegisters(w: World, i: Input, before: Boot, b: Boot, j: nat)
    requires j < |i.list| == |i.keys| && Registered(i.list, before, b)
    requires Sound(b.t) && KeysDisjoint(b.t) && Fresh(b.t, i.keys[j])
    ensures Registered(i.list, before, Step(w, b, i.list[j], i.keys[j], j in i.refused, i.now).boot)
  {
    var s, u := i.list[j], i.keys[j];
    var b' := Step(w, b, s, u, j in i.refused, i.now).boot;
    StepOnStore(w, b, s, u, j in i.refused, i.now);
    if b'.t == b.t && b'.namespaces == b.namespaces {
      SameTablesRegister(i.list, before, b, b');
    } else {
      var key, c := Labelled(s).value.1, w.inspect(IdOf(s)).value;
      LabelledIff(s, "cargo", key);
      CargoRegisters(w, b, key, c, u, j in i.refused);
      CargoFollows(w, b, key, c, u, j in i.refused);
      RegisteredNext(i.list, before, b, b', j, key, u);
    }
  }

  lemma {:induction false} SameTablesRegister(list: seq<Summary>, before: Boot, b: Boot, b': Boot)
    requires Registered(list, before, b) && b'.t == b.t && b'.namespaces == b.namespaces
    ensures Registered(list, before, b')
  {}

  lemma {:induction false} NextRegisters(w: World, i: Input, before: Boot, r: Outcome, j: nat)
    requires j < |i.list| == |i.keys| && Registered(i.list, before, r.boot)
    requires Sound(r.boot.t) && KeysDisjoint(r.boot.t) && Fresh(r.boot.t, i.keys[j])
    ensures Registered(i.list, before, RunNext(w, i, j, r).boot)
  {
    if r.ok { StepRegisters(w, i, before, r.boot, j); }
  }

  /** Wherever a boot stops, it has registered the namespaces of the cargoes it has created, and no others. */
  lemma {:induction false} BootRegisters(w: World, i: Input, b: Boot, n: nat)
    requires n <= |i.list| && Usable(i, b.t) && Sound(b.t) && KeysDisjoint(b.t)
    ensures Registered(i.list, b, RunTo(w, i, b, n).boot)
    decreases n
  {
    if n > 0 {
      BootRegisters(w, i, b, n - 1);
      BootKeepsStoreSound(w, i, b, n - 1);
      NextRegisters(w, i, b, RunTo(w, i, b, n - 1), n - 1);
    }
  }

  // ---------------------------------------------------------------- the second boot

  /** A cargo whose first container is at `j` is not in the store. */
  predicate Missing(t: Tables, list: seq<Summary>, j: nat)
    requires j < |list|
  {
    && OfCargo(list[j])
    && var key := Labelled(list[j]).value.1;
       DotParts(key).Some? && FirstAt(list, key) == j && Current(t, key).None?
  }

  /** What the first boot left, as the second one needs it. */
  ghost predicate Booted(w: World, list: seq<Summary>, refused: set<nat>, procs: Processes, t: Tables) {
    && Sound(t) && KeysDisjoint(t)
    && (forall j | 0 <= j < |list| && Labelled(list[j]).Some? ::
          && w.inspect(IdOf(list[j])).Some? && IdOf(list[j]) in procs
          && procs[IdOf(list[j])].data == w.inspect(IdOf(list[j])).value)
    && (forall key | FirstAt(list, key) < |list| && DotParts(key).Some? ::
          || Settled(t, key, w.inspect(IdOf(list[FirstAt(list, key)])).value)
          || (Current(t, key).None? && FirstAt(list, key) in refused))
  }

  lemma {:induction false} StepKeepsProcesses(w: World, b: Boot, s: Summary, u: Uuid, refused: bool, now: int)
    requires Faithful(w)
    requires Labelled(s).Some? ==> IdOf(s) in b.procs && w.inspect(IdOf(s)) == Some(b.procs[IdOf(s)].data)
    ensures var r := Step(w, b, s, u, refused, now);
            r.boot.procs == b.procs && (r.ok || (OfCargo(s)))
    ensures OfCargo(s) ==>
              SameStore(Step(w, b, s, u, refused, now),
                        CargoSynced(w, b, Labelled(s).value.1, b.procs[IdOf(s)].data, u, refused))
  {
    if Labelled(s).Some? {
      var c := b.procs[IdOf(s)].data;
      assert GetOr(c.id, "") == IdOf(s);
      CargoIgnoresProcesses(w, b, b.procs, b.ids + [IdOf(s)], Labelled(s).value.1, c, u, refused);
    }
  }

  /** A settled cargo is left alone. */
  lemma {:induction false} SettledStays(w: World, b: Boot, key: string, c: Container, u: Uuid, refused: bool)
    requires Sound(b.t) && Settled(b.t, key, c)
    ensures var r := CargoSynced(w, b, key, c, u, refused);
            r.ok && r.boot.t == b.t && r.boot.namespaces == b.namespaces
  {
    CurrentIsOwn(b.t, key);
    if Observed(c).Some? {
      var s := b.t.statuses[key];
      assert s.(wanted := StatusKind.Start, actual := Observed(c).value) == s;
      assert b.t.statuses[key := s] == b.t.statuses;
    }
  }

  predicate AllRefused(t: Tables, list: seq<Summary>, refused: set<nat>, n: nat)
    requires n <= |list|
  {
    forall j | 0 <= j < n && Missing(t, list, j) :: j in refused
  }

  /** The state of the second boot after `n` containers. */
  ghost predicate Quiet(i: Input, b: Boot, n: nat, r: Outcome)
    requires n <= |i.list|
  {
    && r.ok && r.boot.t == b.t && r.boot.namespaces == b.namespaces
    && (forall key :: key in r.boot.inspected <==> FirstAt(i.list, key) < n && DotParts(key).Some?)
  }

  ghost predicate Diverged(b: Boot, r: Outcome) { !r.ok || exists u :: u in r.boot.t.specs && u !in b.t.specs }

  /** A cargo met for the first time in the second boot. */
  lemma {:induction false} QuietCargo(w: World, b: Boot, key: string, c: Container, u: Uuid, refused: bool)
    requires Sound(b.t) && KeysDisjoint(b.t) && Fresh(b.t, u) && DotParts(key).Some? && key !in b.inspected
    requires Settled(b.t, key, c) || Current(b.t, key).None?
    ensures var r := CargoSynced(w, b, key, c, u, refused);
            if Current(b.t, key).None? && !refused then Diverged(b, r)
            else r.ok && r.boot.t == b.t && r.boot.namespaces == b.namespaces && r.boot.inspected == b.inspected + {key}
  {
    CargoFollows(w, b, key, c, u, refused);
    if Settled(b.t, key, c) { SettledStays(w, b, key, c, u, refused); }
  }

  lemma {:induction false} QuietStep(w: World, i: Input, refused: set<nat>, b: Boot, n: nat, r: Outcome)
    requires Faithful(w) && n < |i.list| && Usable(i, b.t) && Booted(w, i.list, refused, b.procs, b.t)
    requires Quiet(i, b, n, r) && r.boot.procs == b.procs
    ensures var r' := Step(w, r.boot, i.list[n], i.keys[n], n in i.refused, i.now);
            && r'.boot.procs == b.procs
            && (if Missing(b.t, i.list, n) && n !in i.refused then Diverged(b, r') else Quiet(i, b, n + 1, r'))
  {
    var s, u := i.list[n], i.keys[n];
    StepKeepsProcesses(w, r.boot, s, u, n in i.refused, i.now);
    forall k ensures FirstAt(i.list, k) == n ==> OfCargo(s) && Labelled(s).value.1 == k { FirstMet(i.list, n, k); }
    if OfCargo(s) {
      var key, c := Labelled(s).value.1, w.inspect(IdOf(s)).value;
      FirstMet(i.list, n, key);
      if DotParts(key).Some? && key !in r.boot.inspected {
        assert FirstAt(i.list, key) == n;
        QuietCargo(w, r.boot, key, c, u, n in i.refused);
      }
    } else {
      StepOnStore(w, r.boot, s, u, n in i.refused, i.now);
    }
  }

  lemma {:induction false} DivergedStays(w: World, i: Input, refused: set<nat>, b: Boot, n: nat, now: Boot)
    requires Faithful(w) && n < |i.list| && Usable(i, b.t) && Booted(w, i.list, refused, b.procs, b.t)
    requires Sound(now.t) && KeysDisjoint(now.t) && Fresh(now.t, i.keys[n]) && now.procs == b.procs
    requires exists u :: u in now.t.specs && u !in b.t.specs
    ensures var r' := Step(w, now, i.list[n], i.keys[n], n in i.refused, i.now);
            r'.boot.procs == b.procs && Diverged(b, r')
  {
    var s, u := i.list[n], i.keys[n];
    StoreStep(w, now, s, u, n in i.refused, i.now);
    StepKeepsProcesses(w, now, s, u, n in i.refused, i.now);
    var v :| v in now.t.specs && v !in b.t.specs;
    assert v in Step(w, now, s, u, n in i.refused, i.now).boot.t.specs;
  }

  /** The second boot after `n` containers, in one of its two kinds of state. */
  ghost predicate SecondAfter(i: Input, b: Boot, n: nat, r: Outcome)
    requires n <= |i.list|
  {
    r.boot.procs == b.procs && if AllRefused(b.t, i.list, i.refused, n) then Quiet(i, b, n, r) else Diverged(b, r)
  }

  lemma {:induction false} AllRefusedNext(t: Tables, list: seq<Summary>, refused: set<nat>, n: nat)
    requires n < |list|
    ensures AllRefused(t, list, refused, n + 1) <==>
            AllRefused(t, list, refused, n) && (Missing(t, list, n) ==> n in refused)
  {}

  lemma {:induction false} SecondStep(w: World, i: Input, refused: set<nat>, b: Boot, n: nat, r: Outcome)
    requires Faithful(w) && n < |i.list| && Usable(i, b.t) && Booted(w, i.list, refused, b.procs, b.t)
    requires SecondAfter(i, b, n, r) && r.ok
    requires Sound(r.boot.t) && KeysDisjoint(r.boot.t) && Fresh(r.boot.t, i.keys[n])
    ensures SecondAfter(i, b, n + 1, Step(w, r.boot, i.list[n], i.keys[n], n in i.refused, i.now))
  {
    AllRefusedNext(b.t, i.list, i.refused, n);
    if AllRefused(b.t, i.list, i.refused, n) {
      QuietStep(w, i, refused, b, n, r);
    } else {
      DivergedStays(w, i, refused, b, n, r.boot);
    }
  }

  lemma {:induction false} SecondFirst(i: Input, b: Boot)
    requires b.inspected == {}
    ensures SecondAfter(i, b, 0, Outcome(b, true))
  {}

  lemma {:induction false} SecondNext(w: World, i: Input, refused: set<nat>, b: Boot, n: nat, r: Outcome)
    requires Faithful(w) && n < |i.list| && Usable(i, b.t) && Booted(w, i.list, refused, b.procs, b.t)
    requires SecondAfter(i, b, n, r)
    requires Sound(r.boot.t) && KeysDisjoint(r.boot.t) && Fresh(r.boot.t, i.keys[n])
    ensures SecondAfter(i, b, n + 1, RunNext(w, i, n, r))
  {
    if r.ok { SecondStep(w, i, refused, b, n, r); }
  }

  lemma {:induction false} SoundBefore(w: World, i: Input, b: Boot, n: nat)
    requires n < |i.list| && Usable(i, b.t) && Sound(b.t) && KeysDisjoint(b.t)
    ensures var t := RunTo(w, i, b, n).boot.t; Sound(t) && KeysDisjoint(t) && Fresh(t, i.keys[n])
  {
    BootKeepsStoreSound(w, i, b, n);
  }

  /** Quiet as long as every missing cargo has its namespace refused, diverged after the first that has not. */
  lemma {:induction false} SecondRun(w: World, i: Input, refused: set<nat>, b: Boot, n: nat)
    requires Faithful(w) && n <= |i.list| && Usable(i, b.t) && Booted(w, i.list, refused, b.procs, b.t)
    requires b.inspected == {}
    ensures SecondAfter(i, b, n, RunTo(w, i, b, n))
    decreases n
  {
    if n == 0 {
      SecondFirst(i, b);
    } else {
      SecondRun(w, i, refused, b, n - 1);
      SoundBefore(w, i, b, n - 1);
      SecondNext(w, i, refused, b, n - 1, RunTo(w, i, b, n - 1));
    }
  }

  lemma {:induction false} IdsContain(list: seq<Summary>, n: nat, j: nat)
    requires j < n <= |list| && Labelled(list[j]).Some?
    ensures IdOf(list[j]) in Ids(list, n)
    decreases n
  {
    if j < n - 1 { IdsContain(list, n - 1, j); }
  }

  lemma {:induction false} FirstBootSettles(w: World, i: Input, procs: Processes, t: Tables, namespaces: set<string>)
    requires Faithful(w) && Usable(i, t) && Sound(t) && KeysDisjoint(t)
    requires RunTo(w, i, Begin(procs, t, namespaces), |i.list|).ok
    ensures var b := Begin(procs, t, namespaces);
            Booted(w, i.list, i.refused, Final(w, i, b), RunTo(w, i, b, |i.list|).boot.t)
  {
    var b := Begin(procs, t, namespaces);
    TableAgrees(w, i, procs, t, namespaces);
    CargoesFollow(w, i, b, |i.list|);
    BootKeepsStoreSound(w, i, b, |i.list|);
    CollectedLabels(i.list);
    forall j | 0 <= j < |i.list| && Labelled(i.list[j]).Some? ensures Listed(i.list, IdOf(i.list[j])) {
      IdsContain(i.list, |i.list|, j);
    }
    var r := RunTo(w, i, b, |i.list|).boot;
    forall key | FirstAt(i.list, key) < |i.list| && DotParts(key).Some?
      ensures CargoAfter(w, i, |i.list|, r.t, key)
    {
      assert key in r.inspected;
    }
  }

  /** A second boot over the same containers changes no process row; it succeeds without storing a spec
      exactly when every cargo still missing from the store has its namespace refused again, and then it
      changes nothing at all.  Only cargoes whose namespace the first boot could not register are missing. */
  lemma {:induction false} SecondBootIsQuiet(w: World, first: Input, second: Input, procs: Processes, t: Tables,
                                             namespaces: set<string>)
    requires Faithful(w) && Usable(first, t) && Sound(t) && KeysDisjoint(t)
    requires RunTo(w, first, Begin(procs, t, namespaces), |first.list|).ok
    requires var r := RunTo(w, first, Begin(procs, t, namespaces), |first.list|);
             second.list == first.list && Usable(second, r.boot.t)
    ensures var r1 := RunTo(w, first, Begin(procs, t, namespaces), |first.list|);
            var b := Begin(Final(w, first, Begin(procs, t, namespaces)), r1.boot.t, r1.boot.namespaces);
            var r2 := RunTo(w, second, b, |first.list|);
            var quiet := AllRefused(r1.boot.t, first.list, second.refused, |first.list|);
            && Final(w, second, b) == b.procs
            && (quiet <==> r2.ok && r2.boot.t.specs == b.t.specs)
            && (quiet ==> r2.boot.t == b.t && r2.boot.namespaces == b.namespaces)
            && (forall j | 0 <= j < |first.list| && Missing(b.t, first.list, j) :: j in first.refused)
            && (first.refused == {} ==> quiet)
  {
    var b0 := Begin(procs, t, namespaces);
    var r1 := RunTo(w, first, b0, |first.list|);
    var b := Begin(Final(w, first, b0), r1.boot.t, r1.boot.namespaces);
    FirstBootSettles(w, first, procs, t, namespaces);
    SecondRun(w, second, first.refused, b, |first.list|);
    SweepAgain(w, first, second, b0, b);
    assert first.refused == {} ==> AllRefused(b.t, first.list, second.refused, |first.list|) by {
      assert forall j | 0 <= j < |first.list| && Missing(b.t, first.list, j) :: j in first.refused;
    }
  }

  /** The rows that the first boot's sweep kept are kept by the second's. */
  lemma {:induction false} SweepAgain(w: World, first: Input, second: Input, b0: Boot, b: Boot)
    requires Faithful(w) && |first.list| == |first.keys| == |second.keys| && second.list == first.list
    requires b0.ids == [] && b.ids == [] && RunTo(w, first, b0, |first.list|).ok && b.procs == Final(w, first, b0)
    requires RunTo(w, second, b, |first.list|).boot.procs == b.procs
    ensures Final(w, second, b) == b.procs
  {
    TableFollows(w, first, b0, |first.list|);
    if RunTo(w, second, b, |first.list|).ok {
      TableFollows(w, second, b, |first.list|);
    }
  }

  // ---------------------------------------------------------------- a boot that is not quiet

  const LONE: Container := Container(Some("1"), Some(""), Some("/a"), None, None, None, "")
  const LONE_WORLD: World := World(
    "node", "v1",
    (id: string) => if id == "1" then Some(LONE) else None,
    (s: string) => Some(0),
    (c: char) => true)
  const LONE_LIST: seq<Summary> := [Summary(Some("1"), Some(map["io.nanocl.kind" := "cargo", "io.nanocl.c" := "a.b"]))]

  /** One container of an unknown cargo whose namespace could not be registered: the second boot, where it
      can, stores a spec although the container list has not changed. */
  lemma {:induction false} RetriedNamespaceStoresASpec()
    ensures var first, second := Input(LONE_LIST, [0], {0}, 0), Input(LONE_LIST, [1], {}, 1);
            var b0 := Begin(map[], EMPTY, {});
            var r1 := RunTo(LONE_WORLD, first, b0, 1);
            var b := Begin(Final(LONE_WORLD, first, b0), r1.boot.t, r1.boot.namespaces);
            var r2 := RunTo(LONE_WORLD, second, b, 1);
            && r1.ok && r1.boot.t.specs == map[]
            && r2.ok && 1 in r2.boot.t.specs && r2.boot.t.specs[1].kindKey == "a.b"
  {
    assert Dots("a.b") == 1 by { assert Dots("b") == 0; assert Dots(".b") == 1; }
    var first, second := Input(LONE_LIST, [0], {0}, 0), Input(LONE_LIST, [1], {}, 1);
    var b0 := Begin(map[], EMPTY, {});
    assert Labelled(LONE_LIST[0]) == Some(("cargo", "a.b")) && IdOf(LONE_LIST[0]) == "1";
    assert RunTo(LONE_WORLD, first, b0, 0) == Outcome(b0, true);
    var r1 := RunTo(LONE_WORLD, first, b0, 1);
    assert r1.ok && r1.boot.t == EMPTY && r1.boot.ids == ["1"];
    var b := Begin(Final(LONE_WORLD, first, b0), r1.boot.t, r1.boot.namespaces);
    assert "1" in b.procs && b.procs["1"].data == LONE;
    assert RunTo(LONE_WORLD, second, b, 0) == Outcome(b, true);
    assert RunTo(LONE_WORLD, second, b, 1) == Step(LONE_WORLD, b, LONE_LIST[0], 1, false, 1);
  }
}
