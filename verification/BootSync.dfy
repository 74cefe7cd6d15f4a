/** Boot synchronisation: the process table is made to agree with the node's containers, and cargoes that
    the store does not know, or knows with another configuration, are created or updated from them. */
module BootSync {
  import opened Options
  import opened Specs
  import opened Store
  import opened CargoHistory
  import GF = GenericFilter

  // ---------------------------------------------------------------- containers and processes

  datatype ContainerState = Running | Restarting | Dead | Exited | OtherState

  datatype Container = Container(
    id: Option<string>,
    created: Option<string>,
    name: Option<string>,
    config: Option<Config>,
    hostConfig: Option<HostConfig>,
    state: Option<ContainerState>,
    rest: string)

  datatype Summary = Summary(id: Option<string>, labels: Option<map<string, string>>)

  datatype Proc = Proc(
    name: string,
    kind: string,
    kindKey: string,
    node: string,
    data: Container,
    createdAt: int,
    updatedAt: int)

  type Processes = map<string, Proc>

  /** What the daemon asks about the world: its own name and version, containers by id, dates, letters. */
  datatype World = World(
    host: string,
    version: string,
    inspect: string -> Option<Container>,
    parseDate: string -> Option<int>,
    alphanumeric: char -> bool)

  /** Docker answers about the container it was asked about. */
  ghost predicate Faithful(w: World) {
    forall id :: w.inspect(id).Some? ==> GetOr(w.inspect(id).value.id, "") == id
  }

  function IdOf(s: Summary): string { GetOr(s.id, "") }

  /** Kind and key of the object a container belongs to, when it carries both labels. */
  function Labelled(s: Summary): Option<(string, string)> {
    var labels := GetOr(s.labels, map[]);
    if "io.nanocl.kind" !in labels then None
    else
      var kind := labels["io.nanocl.kind"];
      var tag := if kind == "cargo" then "io.nanocl.c" else if kind == "job" then "io.nanocl.j" else "io.nanocl.v";
      if kind !in {"cargo", "job", "vm"} || tag !in labels then None else Some((kind, labels[tag]))
  }

  function WithoutSlashes(s: string): string {
    if s == "" then "" else (if s[0] == '/' then "" else s[..1]) + WithoutSlashes(s[1..])
  }

  lemma {:induction false} SlashesGoPiecewise(s: string, t: string)
    ensures WithoutSlashes(s + t) == WithoutSlashes(s) + WithoutSlashes(t)
  {
    if s == "" {
      assert s + t == t;
    } else {
      var first := if s[0] == '/' then "" else s[..1];
      assert (s + t)[0] == s[0] && (s + t)[..1] == s[..1] && (s + t)[1..] == s[1..] + t;
      SlashesGoPiecewise(s[1..], t);
      assert first + (WithoutSlashes(s[1..]) + WithoutSlashes(t)) == first + WithoutSlashes(s[1..]) + WithoutSlashes(t);
    }
  }

  /** Only the slashes of a name go. */
  lemma {:induction false} SlashesGo(s: string)
    ensures '/' !in WithoutSlashes(s)
    ensures '/' !in s ==> WithoutSlashes(s) == s
    ensures WithoutSlashes("/") == ""
  {
    if s != "" {
      assert s == s[..1] + s[1..];
      SlashesGo(s[1..]);
    }
    assert "/"[1..] == "";
  }

  function ProcName(c: Container): string { WithoutSlashes(GetOr(c.name, "")) }

  function Dots(s: string): nat {
    if s == "" then 0 else (if s[0] == '.' then 1 else 0) + Dots(s[1..])
  }

  function FirstDot(s: string): (i: nat)
    ensures i <= |s| && (i < |s| <==> Dots(s) > 0) && (i < |s| ==> s[i] == '.')
  {
    if s == "" || s[0] == '.' then 0 else 1 + FirstDot(s[1..])
  }

  /** Name and namespace, when the key splits into exactly two parts. */
  function DotParts(key: string): (r: Option<(string, string)>)
    ensures r.Some? ==> r.value.0 + "." + r.value.1 == key
  {
    if Dots(key) == 1 then
      var i := FirstDot(key);
      assert key == key[..i] + [key[i]] + key[i + 1..];
      Some((key[..i], key[i + 1..]))
    else None
  }

  lemma {:induction false} NoDots(s: string)
    ensures Dots(s) == 0 <==> '.' !in s
  {
    if s != "" { NoDots(s[1..]); }
  }

  lemma {:induction false} DotsAdd(a: string, b: string)
    ensures Dots(a + b) == Dots(a) + Dots(b)
  {
    if a == "" {
      assert a + b == b;
    } else {
      assert (a + b)[1..] == a[1..] + b;
      DotsAdd(a[1..], b);
    }
  }

  lemma {:induction false} FirstDotAfter(a: string, b: string)
    requires '.' !in a
    ensures FirstDot(a + "." + b) == |a|
  {
    if a != "" {
      assert (a + "." + b)[0] == a[0] && (a + "." + b)[1..] == a[1..] + "." + b;
      FirstDotAfter(a[1..], b);
    }
  }

  /** A key splits into a name and a namespace exactly when a single dot separates them. */
  lemma {:induction false} DotPartsIff(key: string, name: string, namespace: string)
    ensures DotParts(key) == Some((name, namespace)) <==>
            key == name + "." + namespace && '.' !in name && '.' !in namespace
  {
    DotsAdd(name, ".");
    DotsAdd(name + ".", namespace);
    NoDots(name);
    NoDots(namespace);
    assert Dots(".") == 1;
    if key == name + "." + namespace && '.' !in name && '.' !in namespace {
      FirstDotAfter(name, namespace);
      assert key[..|name|] == name && key[|name| + 1..] == namespace;
    }
  }

  const NO_CONFIG: Config := Config(None, None, None, None, "")

  function ConfigOf(c: Container): Config { GetOr(c.config, NO_CONFIG).(hostConfig := c.hostConfig) }

  function CargoOf(name: string, c: Container): CargoSpecPartial {
    CargoSpecPartial(name, ConfigOf(c), None, None, None, None, None, None)
  }

  function Observed(c: Container): Option<StatusKind> {
    match c.state
    case Some(Running) => Some(StatusKind.Start)
    case Some(Restarting) => Some(StatusKind.Fail)
    case Some(Dead) => Some(StatusKind.Stop)
    case Some(Exited) => Some(StatusKind.Stop)
    case _ => None
  }

  // ---------------------------------------------------------------- one container

  datatype Boot = Boot(procs: Processes, t: Tables, namespaces: set<string>, inspected: set<string>, ids: seq<string>)

  /** The state reached and whether every request so far succeeded. */
  datatype Outcome = Outcome(boot: Boot, ok: bool)

  function ProcessSynced(w: World, procs: Processes, kind: string, key: string, c: Container,
                         now: int): Option<Processes> {
    var id := GetOr(c.id, "");
    if id in procs then
      Some(if procs[id].data == c then procs
           else procs[id := procs[id].(name := ProcName(c), data := c, updatedAt := now)])
    else
      var created := w.parseDate(GetOr(c.created, ""));
      if created.None? then None
      else Some(procs[id := Proc(ProcName(c), kind, key, w.host, c, created.value, now)])
  }

  function StatusSynced(t: Tables, key: string, c: Container): Option<Tables> {
    if Observed(c).None? then Some(t)
    else if key !in t.statuses then None
    else Some(SetStatus(t, key, t.statuses[key].(wanted := StatusKind.Start, actual := Observed(c).value)))
  }

  function CargoSynced(w: World, b: Boot, key: string, c: Container, u: Uuid, refused: bool): Outcome {
    var parts := DotParts(key);
    if parts.None? || key in b.inspected then Outcome(b, true)
    else
      var (name, namespace) := parts.value;
      var b1 := b.(inspected := b.inspected + {key});
      var cargo := Current(b.t, key);
      if cargo.None? then
        if refused then Outcome(b1, true)
        else
          var b2 := b1.(namespaces := b1.namespaces + {namespace});
          var (t, ok) := CargoCreated(w.alphanumeric, w.version, b.t, namespace, CargoOf(name, c), u);
          if !ok then Outcome(b2.(t := t), false)
          else
            var synced := StatusSynced(t, key, c);
            Outcome(b2.(t := GetOr(synced, t)), synced.Some?)
      else
        var synced := StatusSynced(b.t, cargo.value.cargoKey, c);
        if synced.None? then Outcome(b1, false)
        else if cargo.value.body.container == ConfigOf(c) then Outcome(b1.(t := synced.value), true)
        else
          var t1 := InsertSpec(synced.value, u, FromCargoPartial(key, w.version, CargoOf(name, c)));
          var id := ObjId(CargoKind, key);
          Outcome(b1.(t := SetRow(t1, id, t1.rows[id].(name := name, specKey := Some(u)))), true)
  }

  function Step(w: World, b: Boot, s: Summary, u: Uuid, refused: bool, now: int): Outcome {
    if Labelled(s).None? then Outcome(b, true)
    else
      var (kind, key) := Labelled(s).value;
      if w.inspect(IdOf(s)).None? then Outcome(b, false)
      else
        var c := w.inspect(IdOf(s)).value;
        var procs := ProcessSynced(w, b.procs, kind, key, c, now);
        if procs.None? then Outcome(b, false)
        else
          var b1 := b.(procs := procs.value, ids := b.ids + [IdOf(s)]);
          if kind == "cargo" then CargoSynced(w, b1, key, c, u, refused) else Outcome(b1, true)
  }

  /** What one boot is given: the listing, a spec key for each container, the positions at which
      registering a namespace fails, and the time. */
  datatype Input = Input(list: seq<Summary>, keys: seq<Uuid>, refused: set<nat>, now: int)

  predicate Usable(i: Input, t: Tables) {
    && |i.keys| == |i.list|
    && (forall j | 0 <= j < |i.keys| :: Fresh(t, i.keys[j]))
    && (forall j, k | 0 <= j < k < |i.keys| :: i.keys[j] != i.keys[k])
  }

  function Begin(procs: Processes, t: Tables, namespaces: set<string>): Boot { Boot(procs, t, namespaces, {}, []) }

  /** The container at position `n`, unless the run has already failed. */
  function RunNext(w: World, i: Input, n: nat, r: Outcome): Outcome
    requires n < |i.list| == |i.keys|
  {
    if r.ok then Step(w, r.boot, i.list[n], i.keys[n], n in i.refused, i.now) else r
  }

  /** The first `n` containers, stopping at the first failure. */
  function RunTo(w: World, i: Input, b: Boot, n: nat): Outcome
    requires n <= |i.list| == |i.keys|
  {
    if n == 0 then Outcome(b, true)
    else RunNext(w, i, n - 1, RunTo(w, i, b, n - 1))
  }

  lemma {:induction false} StopsAt(w: World, i: Input, b: Boot, n: nat, m: nat)
    requires n <= m <= |i.list| == |i.keys| && !RunTo(w, i, b, n).ok
    ensures RunTo(w, i, b, m) == RunTo(w, i, b, n)
    decreases m
  {
    if n < m { StopsAt(w, i, b, n, m - 1); }
  }

  // ---------------------------------------------------------------- rows of vanished containers

  const PROCESS_COLUMNS: GF.Columns := map[
    "key" := (GF.ColumnType.Text, "processes.key"),
    "name" := (GF.ColumnType.Text, "processes.name"),
    "kind" := (GF.ColumnType.Text, "processes.kind"),
    "node_name" := (GF.ColumnType.Text, "processes.node_name"),
    "kind_key" := (GF.ColumnType.Text, "processes.kind_key"),
    "data" := (GF.ColumnType.Json, "processes.data"),
    "created_at" := (GF.ColumnType.Timestamptz, "processes.created_at")]

  function RowOf(key: string, p: Proc): GF.Row {
    map["processes.key" := GF.Str(key),
        "processes.name" := GF.Str(p.name),
        "processes.kind" := GF.Str(p.kind),
        "processes.node_name" := GF.Str(p.node),
        "processes.kind_key" := GF.Str(p.kindKey),
        "processes.data" := GF.Doc(p.data.rest),
        "processes.created_at" := GF.Time(p.createdAt)]
  }

  function ZombieFilter(ids: seq<string>, host: string): GF.Filter {
    GF.WithCondition(GF.WithCondition(GF.EVERYTHING, "key", GF.NotIn(ids)), "node_name", GF.Eq(host))
  }

  function Swept(procs: Processes, ids: seq<string>, host: string): Processes {
    map k | k in procs && (k in ids || procs[k].node != host) :: procs[k]
  }

  lemma {:induction false} KeyAccepted(d: GF.Dialect, ids: seq<string>, key: string)
    ensures GF.Accepts(d, GF.ColumnType.Text, GF.NotIn(ids), GF.Str(key)) <==> key !in ids
  {
    forall j | 0 <= j < |ids|
      ensures GF.Literal(d, GF.ColumnType.Text, ids[j]) == Some(GF.Str(key)) <==> ids[j] == key
    {}
    if key in ids {
      var j :| 0 <= j < |ids| && ids[j] == key;
      assert GF.Literal(d, GF.ColumnType.Text, ids[j]) == Some(GF.Str(key));
    }
  }

  lemma {:induction false} KeyConditionOnly(d: GF.Dialect, ids: seq<string>, row: GF.Row)
    ensures GF.AllEffectiveAccept(d, PROCESS_COLUMNS, map["key" := GF.NotIn(ids)], row)
            <==> GF.Accepts(d, GF.ColumnType.Text, GF.NotIn(ids), GF.Cell(row, "processes.key"))
  {
    var conds: GF.Conditions := map["key" := GF.NotIn(ids)];
    assert GF.Effective(PROCESS_COLUMNS, conds, "key");
    assert forall k :: GF.Effective(PROCESS_COLUMNS, conds, k) ==> k == "key";
    assert GF.AcceptsAt(d, PROCESS_COLUMNS, conds, "key", row)
      == GF.Accepts(d, GF.ColumnType.Text, GF.NotIn(ids), GF.Cell(row, "processes.key"));
  }

  /** The filter's SQL meaning: rows of this node whose key is not in the list, every one of them when
      the list is empty. */
  lemma {:induction false} ZombieIff(d: GF.Dialect, ids: seq<string>, host: string, key: string, p: Proc)
    ensures GF.Selected(d, PROCESS_COLUMNS, ZombieFilter(ids, host), RowOf(key, p)) <==> key !in ids && p.node == host
  {
    var f := GF.WithCondition(GF.EVERYTHING, "key", GF.NotIn(ids));
    var row := RowOf(key, p);
    GF.ConditionsConjoin(d, PROCESS_COLUMNS, f, "node_name", GF.Eq(host), row);
    assert GF.ConditionsOf(f) - {"node_name"} == map["key" := GF.NotIn(ids)];
    KeyConditionOnly(d, ids, row);
    KeyAccepted(d, ids, key);
  }

  /** The zombie filter never makes the compiler panic. */
  lemma {:induction false} ZombieFilterCompiles(d: GF.Dialect, ids: seq<string>, host: string)
    ensures !GF.Panicky(d, PROCESS_COLUMNS, ZombieFilter(ids, host))
  {
    var conds := GF.ConditionsOf(ZombieFilter(ids, host));
    assert conds == map["key" := GF.NotIn(ids), "node_name" := GF.Eq(host)];
    forall key ensures !GF.BadTop(d, PROCESS_COLUMNS, conds, key) {}
  }

  // ---------------------------------------------------------------- the imperative form

  class Daemon {
    var procs: Processes
    var t: Tables
    var namespaces: set<string>

    constructor (procs: Processes, t: Tables, namespaces: set<string>)
      ensures this.procs == procs && this.t == t && this.namespaces == namespaces
    {
      this.procs, this.t, this.namespaces := procs, t, namespaces;
    }

    method SyncProcess(w: World, kind: string, key: string, c: Container, now: int) returns (ok: bool)
      modifies this`procs
      ensures ok <==> old(ProcessSynced(w, procs, kind, key, c, now)).Some?
      ensures procs == if ok then old(ProcessSynced(w, procs, kind, key, c, now)).value else old(procs)
    {
      var id := GetOr(c.id, "");
      if id in procs {
        if procs[id].data == c { return true; }
        procs := procs[id := procs[id].(name := ProcName(c), data := c, updatedAt := now)];
        return true;
      }
      var created := w.parseDate(GetOr(c.created, ""));
      if created.None? { return false; }
      procs := procs[id := Proc(ProcName(c), kind, key, w.host, c, created.value, now)];
      ok := true;
    }

    method SyncCargoStatus(key: string, c: Container) returns (ok: bool)
      modifies this`t
      ensures ok <==> old(StatusSynced(t, key, c)).Some?
      ensures t == GetOr(old(StatusSynced(t, key, c)), old(t))
    {
      ok := true;
      var status := Observed(c);
      if status.Some? {
        if key !in t.statuses { return false; }
        t := SetStatus(t, key, t.statuses[key].(wanted := StatusKind.Start, actual := status.value));
      }
    }

    /** The zombie deletion, through the filter compiler. */
    method DeleteZombies(d: GF.Dialect, ids: seq<string>, host: string)
      modifies this`procs
      ensures procs == Swept(old(procs), ids, host)
    {
      var r := GF.GenSqlQuery(d, PROCESS_COLUMNS, ZombieFilter(ids, host));
      forall k, p ensures GF.Selected(d, PROCESS_COLUMNS, ZombieFilter(ids, host), RowOf(k, p)) <==>
            k !in ids && p.node == host {
        ZombieIff(d, ids, host, k, p);
      }
      ZombieFilterCompiles(d, ids, host);
      procs := map k | k in procs && !GF.Selects(d, r.where_, RowOf(k, procs[k])) :: procs[k];
    }

    /** The whole synchronisation: what it leaves behind is what `RunTo` computes, less the rows of
        containers this node no longer has when everything went well. */
    method SyncProcesses(w: World, d: GF.Dialect, i: Input) returns (ok: bool)
      requires Usable(i, t)
      modifies this
      ensures var r := RunTo(w, i, old(Begin(procs, t, namespaces)), |i.list|);
              && ok == r.ok && t == r.boot.t && namespaces == r.boot.namespaces
              && procs == if ok then Swept(r.boot.procs, r.boot.ids, w.host) else r.boot.procs
    {
      var inspected: set<string>, ids: seq<string> := {}, [];
      ghost var b := Begin(procs, t, namespaces);
      var n := 0;
      while n < |i.list|
        invariant n <= |i.list|
        invariant RunTo(w, i, b, n) == Outcome(Boot(procs, t, namespaces, inspected, ids), true)
      {
        var s := i.list[n];
        n := n + 1;
        ghost var done := RunTo(w, i, b, n);
        if !done.ok { StopsAt(w, i, b, n, |i.list|); }
        var tag := Labelled(s);
        if tag.None? { continue; }
        var (kind, key) := tag.value;
        var id := IdOf(s);
        var inspect := w.inspect(id);
        if inspect.None? { return false; }
        var c := inspect.value;
        var synced := SyncProcess(w, kind, key, c, i.now);
        if !synced { return false; }
        ids := ids + [id];
        if kind == "cargo" {
          var parts := DotParts(key);
          if parts.None? { continue; }
          var (name, namespace) := parts.value;
          if key in inspected { continue; }
          inspected := inspected + {key};
          var cargo := Current(t, key);
          if cargo.None? {
            if n - 1 in i.refused { continue; }
            namespaces := namespaces + {namespace};
            var (t', created) := CargoCreated(w.alphanumeric, w.version, t, namespace, CargoOf(name, c), i.keys[n - 1]);
            t := t';
            if !created { return false; }
            var updated := SyncCargoStatus(key, c);
            if !updated { return false; }
          } else {
            var updated := SyncCargoStatus(cargo.value.cargoKey, c);
            if !updated { return false; }
            if cargo.value.body.container == ConfigOf(c) { continue; }
            t := InsertSpec(t, i.keys[n - 1], FromCargoPartial(key, w.version, CargoOf(name, c)));
            var row := ObjId(CargoKind, key);
            t := SetRow(t, row, t.rows[row].(name := name, specKey := Some(i.keys[n - 1])));
          }
        }
      }
      DeleteZombies(d, ids, w.host);
      ok := true;
    }
  }
}
