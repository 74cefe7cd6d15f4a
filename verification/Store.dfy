/** The tables behind cargoes, vms and jobs, and the single statements the daemon issues against them.

    A statement either takes effect as a whole or is refused: by a primary key, because the row to change
    does not exist, or by one of the foreign keys from objects to specs and statuses. */
module Store {
  import opened Options
  import opened Specs

  datatype Kind = CargoKind | VmKind | JobKind

  /** A row of one of the three object tables is named by the table and its key. */
  datatype ObjId = ObjId(kind: Kind, key: string)

  type Uuid = nat

  datatype SpecData = CargoData(cargo: CargoSpecPartial) | VmData(vm: VmSpecPartial) | OtherData(text: string)

  datatype SpecRow = SpecRow(kindKey: string, version: string, data: SpecData, metadata: Option<Json>)

  datatype StatusKind = Create | Start | Stop | Updating | Destroying | Destroy | Fail | Finish

  datatype Status = Status(wanted: StatusKind, prevWanted: StatusKind, actual: StatusKind, prevActual: StatusKind)

  const CREATED: Status := Status(StatusKind.Create, StatusKind.Create, StatusKind.Create, StatusKind.Create)

  datatype Row = Row(name: string, statusKey: string, specKey: Option<Uuid>)

  /** `used` holds every spec key ever drawn: keys are random uuids and never drawn twice. */
  datatype Tables = Tables(
    specs: map<Uuid, SpecRow>,
    used: set<Uuid>,
    statuses: map<string, Status>,
    rows: map<ObjId, Row>)

  const EMPTY: Tables := Tables(map[], {}, map[], map[])

  predicate Fresh(t: Tables, u: Uuid) { u !in t.used && u !in t.specs }

  function InsertSpec(t: Tables, u: Uuid, row: SpecRow): Tables {
    t.(specs := t.specs[u := row], used := t.used + {u})
  }

  function SetStatus(t: Tables, key: string, s: Status): Tables {
    t.(statuses := t.statuses[key := s])
  }

  function SetRow(t: Tables, id: ObjId, row: Row): Tables {
    t.(rows := t.rows[id := row])
  }

  function DeleteRow(t: Tables, id: ObjId): Tables {
    t.(rows := t.rows - {id})
  }

  function DeleteSpecs(t: Tables, key: string): Tables {
    t.(specs := map u | u in t.specs && t.specs[u].kindKey != key :: t.specs[u])
  }

  function DeleteStatus(t: Tables, key: string): Tables {
    t.(statuses := t.statuses - {key})
  }

  // ---------------------------------------------------------------- foreign keys

  predicate SpecsUnreferenced(t: Tables, key: string) {
    forall id | id in t.rows && t.rows[id].specKey.Some? && t.rows[id].specKey.value in t.specs ::
      t.specs[t.rows[id].specKey.value].kindKey != key
  }

  predicate StatusUnreferenced(t: Tables, key: string) {
    forall id | id in t.rows :: t.rows[id].statusKey != key
  }

  // ---------------------------------------------------------------- referential integrity

  /** The row of `id` has its status, and its spec is one of its own. */
  predicate RowSound(t: Tables, id: ObjId)
    requires id in t.rows
  {
    var row := t.rows[id];
    && row.statusKey == id.key && id.key in t.statuses
    && (id.kind.JobKind? <==> row.specKey.None?)
    && (row.specKey.Some? ==> row.specKey.value in t.specs && t.specs[row.specKey.value].kindKey == id.key)
  }

  predicate Sound(t: Tables) {
    && (forall id | id in t.rows :: RowSound(t, id))
    && (forall u | u in t.specs :: u in t.used)
  }

  /** No two of the object tables hold the same key. */
  predicate KeysDisjoint(t: Tables) {
    forall i, j | i in t.rows && j in t.rows && i.key == j.key :: i == j
  }
}
