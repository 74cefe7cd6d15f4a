/** The history of a cargo: every put, patch and revert stores one more spec and moves the cargo to it. */
module CargoHistory {
  import opened Options
  import opened Specs
  import opened Store
  import CargoPatch

  // ---------------------------------------------------------------- stored specs

  datatype CargoSpec = CargoSpec(key: Uuid, cargoKey: string, version: string, body: CargoSpecPartial)

  /** A vm spec as read back: its host configuration is never absent. */
  datatype VmSpec = VmSpec(key: Uuid, vmKey: string, version: string, hostConfig: VmHostConfig, body: VmSpecPartial)

  function FromCargoPartial(key: string, version: string, p: CargoSpecPartial): SpecRow {
    SpecRow(key, version, CargoData(p), p.metadata)
  }

  function FromVmPartial(key: string, version: string, p: VmSpecPartial): SpecRow {
    SpecRow(key, version, VmData(p), p.metadata)
  }

  /** Metadata is read from its own column, everything else from the stored document. */
  function ToCargoSpec(u: Uuid, row: SpecRow): Option<CargoSpec> {
    if row.data.CargoData?
    then Some(CargoSpec(u, row.kindKey, row.version, row.data.cargo.(metadata := row.metadata)))
    else None
  }

  function ToVmSpec(u: Uuid, row: SpecRow): Option<VmSpec> {
    if row.data.VmData?
    then Some(VmSpec(u, row.kindKey, row.version, GetOr(row.data.vm.hostConfig, VM_DEFAULTS),
                     row.data.vm.(metadata := row.metadata)))
    else None
  }

  function CargoPartial(s: CargoSpec): CargoSpecPartial { s.body }

  function VmPartial(s: VmSpec): VmSpecPartial { s.body.(hostConfig := Some(s.hostConfig)) }

  /** Storing a partial spec and reading it back is the identity for cargoes, under the key and version it was
      stored with; for vms it is the identity exactly when a host configuration was given, and otherwise fills in
      the default one, with one cpu and 512 megabytes. */
  lemma {:induction false} StoredSpecRoundTrip(u: Uuid, key: string, version: string, p: CargoSpecPartial,
                                               q: VmSpecPartial)
    ensures ToCargoSpec(u, FromCargoPartial(key, version, p)).Some?
    ensures CargoPartial(ToCargoSpec(u, FromCargoPartial(key, version, p)).value) == p
    ensures var r := ToCargoSpec(u, FromCargoPartial(key, version, p)).value;
            r.key == u && r.cargoKey == key && r.version == version
    ensures ToVmSpec(u, FromVmPartial(key, version, q)).Some? ==>
              var r := ToVmSpec(u, FromVmPartial(key, version, q)).value;
              r.key == u && r.vmKey == key && r.version == version
    ensures ToVmSpec(u, FromVmPartial(key, version, q)).Some?
    ensures VmPartial(ToVmSpec(u, FromVmPartial(key, version, q)).value)
            == if q.hostConfig.Some? then q else q.(hostConfig := Some(VmHostConfig(1, 512, "")))
    ensures VmPartial(ToVmSpec(u, FromVmPartial(key, version, q)).value) == q <==> q.hostConfig.Some?
  {
    assert p.(metadata := p.metadata) == p;
    assert q.(metadata := q.metadata) == q;
    if q.hostConfig.Some? {
      assert q.(hostConfig := Some(q.hostConfig.value)) == q;
    }
  }

  // ---------------------------------------------------------------- changes

  datatype Change =
    | Put(spec: CargoSpecPartial)
    | Patch(update: CargoSpecUpdate)
    | Revert(entry: Uuid)

  /** The cargo as a read that joins it with its spec and its status returns it. */
  function Current(t: Tables, pk: string): Option<CargoSpec> {
    var id := ObjId(CargoKind, pk);
    if id in t.rows && t.rows[id].statusKey in t.statuses
       && t.rows[id].specKey.Some? && t.rows[id].specKey.value in t.specs
    then ToCargoSpec(t.rows[id].specKey.value, t.specs[t.rows[id].specKey.value])
    else None
  }

  /** A cargo is found by its key exactly when its row, the status and the spec the row points to are all there, and
      it is that spec under the spec's own key and version. */
  lemma {:induction false} ReadJoins(t: Tables, pk: string, u: Uuid, version: string, body: CargoSpecPartial)
    ensures Current(t, pk) == Some(CargoSpec(u, pk, version, body)) <==>
            exists name, status, spec ::
              && ObjId(CargoKind, pk) in t.rows && t.rows[ObjId(CargoKind, pk)] == Row(name, status, Some(u))
              && status in t.statuses
              && u in t.specs && t.specs[u] == SpecRow(pk, version, CargoData(spec), body.metadata)
              && body == spec.(metadata := body.metadata)
  {
    var id := ObjId(CargoKind, pk);
    if id in t.rows && t.rows[id].specKey == Some(u) && u in t.specs && t.specs[u].data.CargoData? {
      var row := t.rows[id];
      assert row == Row(row.name, row.statusKey, Some(u));
      assert t.specs[u] == SpecRow(t.specs[u].kindKey, t.specs[u].version, CargoData(t.specs[u].data.cargo),
                                   t.specs[u].metadata);
    }
  }

  function Entry(t: Tables, u: Uuid): Option<CargoSpec> {
    if u in t.specs then ToCargoSpec(u, t.specs[u]) else None
  }

  /** The spec a change asks for, or nothing when what it refers to cannot be read. */
  function Wanted(t: Tables, pk: string, change: Change): Option<CargoSpecPartial> {
    match change
    case Put(spec) => Some(spec)
    case Patch(update) =>
      if Current(t, pk).Some? then Some(CargoPatch.PatchSpec(CargoPartial(Current(t, pk).value), update)) else None
    case Revert(entry) =>
      if Entry(t, entry).Some? then Some(CargoPartial(Entry(t, entry).value)) else None
  }

  predicate Succeeds(t: Tables, pk: string, change: Change) {
    Wanted(t, pk, change).Some? && pk in t.statuses && Current(t, pk).Some?
  }

  // ---------------------------------------------------------------- creation

  /** Letters, digits, underscores and hyphens; which characters are alphanumeric is left open. */
  predicate ValidName(alphanumeric: char -> bool, name: string) {
    forall i | 0 <= i < |name| :: alphanumeric(name[i]) || name[i] == '_' || name[i] == '-'
  }

  function CargoKey(namespace: string, name: string): string { name + "." + namespace }

  /** Creating a cargo stores its spec, then claims its status, then its row, and stops at the first refusal. */
  function CargoCreated(alphanumeric: char -> bool, version: string, t: Tables, namespace: string,
                        spec: CargoSpecPartial, u: Uuid): (Tables, bool) {
    var key := CargoKey(namespace, spec.name);
    if !ValidName(alphanumeric, spec.name) then (t, false)
    else
      var t1 := InsertSpec(t, u, FromCargoPartial(key, version, spec));
      if key in t1.statuses then (t1, false)
      else
        var t2 := SetStatus(t1, key, CREATED);
        if ObjId(CargoKind, key) in t2.rows then (t2, false)
        else (SetRow(t2, ObjId(CargoKind, key), Row(spec.name, key, Some(u))), true)
  }

  /** A creation succeeds exactly when the name is made of letters, digits, underscores and hyphens and the key is
      free; the cargo is then exactly what was sent, in its created state, and no other cargo changes. */
  lemma {:induction false} CreationStores(alphanumeric: char -> bool, version: string, t: Tables, namespace: string,
                                          spec: CargoSpecPartial, u: Uuid)
    requires Sound(t) && Fresh(t, u)
    ensures var (t', ok) := CargoCreated(alphanumeric, version, t, namespace, spec, u);
            var key := spec.name + "." + namespace;
            && (ok <==> key !in t.statuses && forall c | c in spec.name :: alphanumeric(c) || c in {'_', '-'})
            && (ok ==> Current(t', key) == Some(CargoSpec(u, key, version, spec)))
            && (ok ==> t'.statuses == t.statuses[key := CREATED])
            && (forall k | k != key :: Current(t', k) == Current(t, k))
  {
    var key := spec.name + "." + namespace;
    var (t', ok) := CargoCreated(alphanumeric, version, t, namespace, spec, u);
    assert ValidName(alphanumeric, spec.name) <==> forall c | c in spec.name :: alphanumeric(c) || c in {'_', '-'};
    RowsHaveStatus(t, ObjId(CargoKind, key));
    assert spec.(metadata := spec.metadata) == spec;
    forall k | k != key ensures Current(t', k) == Current(t, k) {
      var id := ObjId(CargoKind, k);
      if id in t.rows { assert RowSound(t, id); }
    }
  }

  lemma {:induction false} RowsHaveStatus(t: Tables, id: ObjId)
    requires Sound(t)
    ensures id in t.rows ==> id.key in t.statuses
  {
    if id in t.rows { assert RowSound(t, id); }
  }

  /** A creation that fails because its key is taken leaves its spec in the history of the object that
      holds the key, exactly when its name was valid; no cargo's current spec changes. */
  lemma {:induction false} FailedCreationStaysInHistory(alphanumeric: char -> bool, version: string, t: Tables,
                                                        namespace: string, spec: CargoSpecPartial, u: Uuid)
    requires Sound(t) && Fresh(t, u) && CargoKey(namespace, spec.name) in t.statuses
    ensures var (t', ok) := CargoCreated(alphanumeric, version, t, namespace, spec, u);
            && !ok
            && (forall v :: InHistory(t', CargoKey(namespace, spec.name), v) <==>
                  InHistory(t, CargoKey(namespace, spec.name), v) || (v == u && ValidName(alphanumeric, spec.name)))
            && (forall k :: Current(t', k) == Current(t, k))
  {
    var t' := CargoCreated(alphanumeric, version, t, namespace, spec, u).0;
    forall k ensures Current(t', k) == Current(t, k) {
      var id := ObjId(CargoKind, k);
      if id in t.rows { assert RowSound(t, id); }
    }
  }

  class CargoStore {
    var t: Tables

    constructor (t: Tables)
      ensures this.t == t
    {
      this.t := t;
    }

    method CreateCargo(alphanumeric: char -> bool, version: string, namespace: string, spec: CargoSpecPartial, u: Uuid)
      returns (ok: bool)
      requires Fresh(t, u)
      modifies this
      ensures (t, ok) == old(CargoCreated(alphanumeric, version, t, namespace, spec, u))
    {
      if !ValidName(alphanumeric, spec.name) { return false; }
      var key := CargoKey(namespace, spec.name);
      t := InsertSpec(t, u, FromCargoPartial(key, version, spec));
      if key in t.statuses { return false; }
      t := SetStatus(t, key, CREATED);
      if ObjId(CargoKind, key) in t.rows { return false; }
      t := SetRow(t, ObjId(CargoKind, key), Row(spec.name, key, Some(u)));
      ok := true;
    }

    /** Store `spec` as the cargo's next spec, with the given fresh spec key. */
    method PutCargo(pk: string, spec: CargoSpecPartial, version: string, u: Uuid) returns (ok: bool)
      requires Fresh(t, u)
      modifies this
      ensures ok <==> old(pk in t.statuses && Current(t, pk).Some?)
      ensures t.specs == if ok then old(t.specs)[u := FromCargoPartial(pk, version, spec)] else old(t.specs)
      ensures var id := ObjId(CargoKind, pk);
              if ok then t.rows == old(t.rows)[id := old(t.rows)[id].(name := spec.name, specKey := Some(u))]
              else t.rows == old(t.rows)
      ensures t.used == if ok then old(t.used) + {u} else old(t.used)
      ensures t.statuses ==
              if old(pk in t.statuses) then
                var s := old(t.statuses[pk]);
                old(t.statuses)[pk := Status(StatusKind.Start, s.wanted, StatusKind.Updating, s.actual)]
              else old(t.statuses)
    {
      if pk !in t.statuses { return false; }
      var status := t.statuses[pk];
      t := SetStatus(t, pk, Status(StatusKind.Start, status.wanted, StatusKind.Updating, status.actual));
      if Current(t, pk).None? { return false; }
      var id := ObjId(CargoKind, pk);
      t := InsertSpec(t, u, FromCargoPartial(pk, version, spec));
      t := SetRow(t, id, t.rows[id].(name := spec.name, specKey := Some(u)));
      ok := true;
    }

    method PatchCargo(pk: string, update: CargoSpecUpdate, version: string, u: Uuid) returns (ok: bool)
      requires Fresh(t, u)
      modifies this
      ensures ok <==> old(Succeeds(t, pk, Patch(update)))
      ensures ok ==> t == old(Changed(t, pk, Patch(update), version, u))
      ensures !ok ==> t.specs == old(t.specs) && t.rows == old(t.rows)
    {
      var cargo := Current(t, pk);
      if cargo.None? { return false; }
      ok := PutCargo(pk, CargoPatch.PatchSpec(CargoPartial(cargo.value), update), version, u);
    }

    method RevertCargo(pk: string, entry: Uuid, version: string, u: Uuid) returns (ok: bool)
      requires Fresh(t, u)
      modifies this
      ensures ok <==> old(Succeeds(t, pk, Revert(entry)))
      ensures ok ==> t == old(Changed(t, pk, Revert(entry), version, u))
      ensures !ok ==> t.specs == old(t.specs) && t.rows == old(t.rows)
    {
      var spec := Entry(t, entry);
      if spec.None? { return false; }
      ok := PutCargo(pk, CargoPartial(spec.value), version, u);
    }
  }

  /** The tables after a change. */
  function Changed(t: Tables, pk: string, change: Change, version: string, u: Uuid): Tables {
    if !Succeeds(t, pk, change) then t
    else
      var spec, id, s := Wanted(t, pk, change).value, ObjId(CargoKind, pk), t.statuses[pk];
      Tables(t.specs[u := FromCargoPartial(pk, version, spec)],
             t.used + {u},
             t.statuses[pk := Status(StatusKind.Start, s.wanted, StatusKind.Updating, s.actual)],
             t.rows[id := t.rows[id].(name := spec.name, specKey := Some(u))])
  }

  // ---------------------------------------------------------------- histories

  predicate InHistory(t: Tables, pk: string, u: Uuid) { u in t.specs && t.specs[u].kindKey == pk }

  /** One change adds exactly one entry to the cargo's history, leaves all specs as they were, and makes
      what it asked for the cargo's spec; other cargoes, vms and jobs keep theirs. */
  lemma {:induction false} ChangeAppends(t: Tables, pk: string, change: Change, version: string, u: Uuid)
    requires Fresh(t, u) && Succeeds(t, pk, change)
    ensures var t' := Changed(t, pk, change, version, u);
            && (forall v | v in t.specs :: v in t'.specs && t'.specs[v] == t.specs[v])
            && (forall v :: InHistory(t', pk, v) <==> InHistory(t, pk, v) || v == u)
            && Current(t', pk).Some? && Current(t', pk).value.key == u
            && CargoPartial(Current(t', pk).value) == Wanted(t, pk, change).value
    ensures Sound(t) ==>
              var t' := Changed(t, pk, change, version, u);
              Sound(t') && (forall k | k != pk :: Current(t', k) == Current(t, k))
  {
    var t' := Changed(t, pk, change, version, u);
    var spec := Wanted(t, pk, change).value;
    assert spec.(metadata := spec.metadata) == spec;
    if Sound(t) {
      forall k | k != pk ensures Current(t', k) == Current(t, k) {
        var id := ObjId(CargoKind, k);
        if id in t.rows { assert RowSound(t, id) && t'.rows[id] == t.rows[id]; }
      }
      forall id | id in t'.rows ensures RowSound(t', id) {
        assert RowSound(t, id);
      }
    }
  }

  datatype Request = Request(change: Change, version: string, key: Uuid)

  function ChangedAll(t: Tables, pk: string, requests: seq<Request>): Tables
    decreases |requests|
  {
    if requests == [] then t
    else
      ChangedAll(Changed(t, pk, requests[0].change, requests[0].version, requests[0].key), pk, requests[1..])
  }

  predicate FreshKeys(t: Tables, requests: seq<Request>) {
    && (forall i | 0 <= i < |requests| :: Fresh(t, requests[i].key))
    && (forall i, j | 0 <= i < j < |requests| :: requests[i].key != requests[j].key)
  }

  /** Number of requests that succeed, each seen in the tables its predecessors left. */
  function Successes(t: Tables, pk: string, requests: seq<Request>): nat
    decreases |requests|
  {
    if requests == [] then 0
    else
      (if Succeeds(t, pk, requests[0].change) then 1 else 0)
      + Successes(Changed(t, pk, requests[0].change, requests[0].version, requests[0].key), pk, requests[1..])
  }

  /** Over any sequence of puts, patches and reverts the history only grows, by one entry for every
      request that succeeds, and no stored spec ever changes. */
  lemma {:induction false} HistoryIsAppendOnly(t: Tables, pk: string, requests: seq<Request>)
    requires FreshKeys(t, requests)
    ensures var t' := ChangedAll(t, pk, requests);
            && (forall v | v in t.specs :: v in t'.specs && t'.specs[v] == t.specs[v])
            && |t'.specs| == |t.specs| + Successes(t, pk, requests)
            && (forall v | v in t'.specs && v !in t.specs :: t'.specs[v].kindKey == pk)
    decreases |requests|
  {
    if requests != [] {
      var r := requests[0];
      var t1 := Changed(t, pk, r.change, r.version, r.key);
      assert forall i | 0 <= i < |requests[1..]| :: requests[1..][i] == requests[i + 1];
      HistoryIsAppendOnly(t1, pk, requests[1..]);
    }
  }

  /** Reverting to any stored cargo spec restores exactly that spec, however many changes came after it. */
  lemma {:induction false} RevertRestores(t: Tables, pk: string, entry: Uuid, requests: seq<Request>, version: string,
                                          u: Uuid)
    requires Entry(t, entry).Some? && FreshKeys(t, requests) && Fresh(ChangedAll(t, pk, requests), u)
    requires pk in t.statuses && Current(t, pk).Some?
    ensures var t' := ChangedAll(t, pk, requests);
            && Succeeds(t', pk, Revert(entry))
            && CargoPartial(Current(Changed(t', pk, Revert(entry), version, u), pk).value)
               == CargoPartial(Entry(t, entry).value)
  {
    HistoryIsAppendOnly(t, pk, requests);
    StaysReadable(t, pk, requests);
    ChangeAppends(ChangedAll(t, pk, requests), pk, Revert(entry), version, u);
  }

  lemma {:induction false} StaysReadable(t: Tables, pk: string, requests: seq<Request>)
    requires FreshKeys(t, requests) && pk in t.statuses && Current(t, pk).Some?
    ensures pk in ChangedAll(t, pk, requests).statuses && Current(ChangedAll(t, pk, requests), pk).Some?
    decreases |requests|
  {
    if requests != [] {
      var r := requests[0];
      if Succeeds(t, pk, r.change) {
        ChangeAppends(t, pk, r.change, r.version, r.key);
      }
      assert forall i | 0 <= i < |requests[1..]| :: requests[1..][i] == requests[i + 1];
      StaysReadable(Changed(t, pk, r.change, r.version, r.key), pk, requests[1..]);
    }
  }
}
