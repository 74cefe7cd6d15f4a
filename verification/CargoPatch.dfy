/** Patching a cargo: the in-place merges of the environment list and of the volume list. */
module CargoPatch {
  import opened Options
  import opened Specs

  // ---------------------------------------------------------------- NAME=VALUE entries

  /** Position of the first '=', or the length when there is none. */
  function FirstEq(s: string): (i: nat)
    ensures i <= |s| && (forall j | 0 <= j < i :: s[j] != '=') && (i < |s| ==> s[i] == '=')
  {
    if s == "" || s[0] == '=' then 0 else 1 + FirstEq(s[1..])
  }

  predicate Named(e: string) { FirstEq(e) < |e| }

  function NameOf(e: string): string { e[..FirstEq(e)] }

  function ValueOf(e: string): string
    requires Named(e)
  {
    e[FirstEq(e) + 1..]
  }

  function Entry(name: string, value: string): string { name + "=" + value }

  function Split(s: string): seq<string>
    decreases |s|
  {
    var i := FirstEq(s);
    if i == |s| then [s] else [s[..i]] + Split(s[i + 1..])
  }

  function Join(parts: seq<string>): string {
    if parts == [] then ""
    else if |parts| == 1 then parts[0]
    else parts[0] + "=" + Join(parts[1..])
  }

  lemma {:induction false} JoinCons(head: string, tail: seq<string>)
    requires tail != []
    ensures Join([head] + tail) == head + "=" + Join(tail)
  {
    assert ([head] + tail)[1..] == tail;
  }

  lemma {:induction false} CutAt(s: string, i: nat)
    requires i < |s| && s[i] == '='
    ensures s == s[..i] + "=" + s[i + 1..]
  {}

  lemma {:induction false} JoinSplit(s: string)
    ensures |Split(s)| >= 1 && Join(Split(s)) == s
    decreases |s|
  {
    var i := FirstEq(s);
    if i < |s| {
      var head, tail := s[..i], Split(s[i + 1..]);
      JoinSplit(s[i + 1..]);
      JoinCons(head, tail);
      CutAt(s, i);
      assert Split(s) == [head] + tail;
    }
  }

  /** Splitting at every '=' and joining all but the first part again cuts at the first '='. */
  lemma {:induction false} SplitCutsAtFirst(e: string)
    ensures |Split(e)| >= 2 <==> Named(e)
    ensures Named(e) ==> Split(e)[0] == NameOf(e) && Join(Split(e)[1..]) == ValueOf(e)
    ensures Named(e) ==> e == Entry(NameOf(e), ValueOf(e))
  {
    if Named(e) {
      var i := FirstEq(e);
      JoinSplit(e[i + 1..]);
      CutAt(e, i);
      assert Split(e) == [e[..i]] + Split(e[i + 1..]);
      assert Split(e)[1..] == Split(e[i + 1..]);
    }
  }

  predicate StartsWith(s: string, prefix: string) {
    |prefix| <= |s| && s[..|prefix|] == prefix
  }

  /** An entry starts with `name=` exactly when it is named `name`. */
  lemma {:induction false} PrefixIsName(x: string, name: string)
    requires '=' !in name
    ensures StartsWith(x, name + "=") <==> Named(x) && NameOf(x) == name
  {
    var n := |name|;
    if Named(x) && NameOf(x) == name {
      assert x[..n + 1] == name + "=";
    }
    if StartsWith(x, name + "=") {
      assert x[n] == x[..n + 1][n] == '=';
      assert forall j | 0 <= j < n :: x[j] == x[..n + 1][j] == name[j];
      assert FirstEq(x) == n;
      assert x[..n] == name;
    }
  }

  // ---------------------------------------------------------------- the merge loop

  /** First position whose entry starts with `prefix`, or the length of the list. */
  function Position(env: seq<string>, prefix: string): (p: nat)
    ensures p <= |env| && (forall j | 0 <= j < p :: !StartsWith(env[j], prefix))
    ensures p < |env| ==> StartsWith(env[p], prefix)
  {
    if env == [] || StartsWith(env[0], prefix) then 0 else 1 + Position(env[1..], prefix)
  }

  function MergeOne(env: seq<string>, e: string): seq<string> {
    var parts := Split(e);
    if |parts| < 2 then env
    else
      var name, value := parts[0], Join(parts[1..]);
      var pos := Position(env, name + "=");
      if pos == |env| then env + [e]
      else if env[pos] != value && value != "" then env[pos := Entry(name, value)]
      else if value == "" then env[..pos] + env[pos + 1..]
      else env
  }

  function Merge(env: seq<string>, patch: seq<string>): seq<string> {
    if patch == [] then env else MergeOne(Merge(env, patch[..|patch| - 1]), patch[|patch| - 1])
  }

  /** The daemon's loop: the list is changed in place, entry after entry. */
  method MergeEnv(current: seq<string>, patch: seq<string>) returns (env: seq<string>)
    ensures env == Merge(current, patch)
  {
    env := current;
    for i := 0 to |patch|
      invariant env == Merge(current, patch[..i])
    {
      assert patch[..i + 1][..i] == patch[..i];
      var parts := Split(patch[i]);
      if |parts| < 2 { continue; }
      var name, value := parts[0], Join(parts[1..]);
      var pos := Position(env, name + "=");
      if pos < |env| {
        if env[pos] != value && value != "" {
          env := env[pos := Entry(name, value)];
        } else if value == "" {
          env := env[..pos] + env[pos + 1..];
        }
      } else {
        env := env + [patch[i]];
      }
    }
    assert patch[..|patch|] == patch;
  }

  // ---------------------------------------------------------------- as a map

  datatype Item = Item(name: string, value: string) | Loose

  function ItemOf(e: string): Item {
    if Named(e) then Item(NameOf(e), ValueOf(e)) else Loose
  }

  function Items(env: seq<string>): (r: seq<Item>)
    ensures |r| == |env| && forall i | 0 <= i < |env| :: r[i] == ItemOf(env[i])
  {
    seq(|env|, i requires 0 <= i < |env| => ItemOf(env[i]))
  }

  predicate UniqueItems(items: seq<Item>) {
    forall i, j | 0 <= i < j < |items| && items[i].Item? && items[j].Item? :: items[i].name != items[j].name
  }

  function MapOf(items: seq<Item>): map<string, string>
    requires UniqueItems(items)
  {
    map i | 0 <= i < |items| && items[i].Item? :: items[i].name := items[i].value
  }

  predicate UniqueNames(env: seq<string>) { UniqueItems(Items(env)) }

  function AsMap(env: seq<string>): map<string, string>
    requires UniqueNames(env)
  {
    MapOf(Items(env))
  }

  lemma {:induction false} NewNameStaysUnique(items: seq<Item>, x: Item)
    requires UniqueItems(items) && x.Item? && x.name !in MapOf(items)
    ensures UniqueItems(items + [x])
  {
    forall i | 0 <= i < |items| && items[i].Item? ensures items[i].name != x.name {
      Lookup(items, i);
    }
  }

  lemma {:induction false} MapAppend(items: seq<Item>, x: Item)
    requires UniqueItems(items) && x.Item? && x.name !in MapOf(items)
    ensures UniqueItems(items + [x]) && MapOf(items + [x]) == MapOf(items)[x.name := x.value]
  {
    NewNameStaysUnique(items, x);
    var r, m := MapOf(items + [x]), MapOf(items)[x.name := x.value];
    Lookup(items + [x], |items|);
    forall k | k in MapOf(items) ensures k in r && r[k] == m[k] {
      var i := Locate(items, k);
      Lookup(items + [x], i);
    }
    forall k | k in r ensures k in m {
      var i := Locate(items + [x], k);
      if i < |items| { Lookup(items, i); }
    }
    assert r.Keys == m.Keys;
  }

  lemma {:induction false} MapUpdate(items: seq<Item>, pos: nat, x: Item)
    requires UniqueItems(items) && pos < |items| && items[pos].Item? && x.Item? && x.name == items[pos].name
    ensures UniqueItems(items[pos := x]) && MapOf(items[pos := x]) == MapOf(items)[x.name := x.value]
  {
    var r := items[pos := x];
    assert UniqueItems(r);
    assert forall i | 0 <= i < |items| :: r[i] == if i == pos then x else items[i];
    forall k | k in MapOf(items) ensures k in MapOf(r) {
      var i :| 0 <= i < |items| && items[i].Item? && items[i].name == k;
      assert r[i].name == k;
    }
  }

  lemma {:induction false} DeleteShifts(items: seq<Item>, pos: nat)
    requires UniqueItems(items) && pos < |items|
    ensures var r := items[..pos] + items[pos + 1..];
            && UniqueItems(r)
            && (forall i | 0 <= i < pos :: r[i] == items[i])
            && (forall i | pos < i < |items| :: r[i - 1] == items[i])
            && (forall i | pos <= i < |r| :: r[i] == items[i + 1])
  {}

  lemma {:induction false} Lookup(items: seq<Item>, i: nat)
    requires UniqueItems(items) && i < |items| && items[i].Item?
    ensures items[i].name in MapOf(items) && MapOf(items)[items[i].name] == items[i].value
  {}

  lemma {:induction false} Locate(items: seq<Item>, k: string) returns (i: nat)
    requires UniqueItems(items) && k in MapOf(items)
    ensures i < |items| && items[i] == Item(k, MapOf(items)[k])
  {
    i :| 0 <= i < |items| && items[i].Item? && items[i].name == k;
  }

  lemma {:induction false} DeleteKeeps(items: seq<Item>, pos: nat, k: string)
    requires UniqueItems(items) && pos < |items| && items[pos].Item?
    ensures var r := items[..pos] + items[pos + 1..];
            && UniqueItems(r)
            && (k in MapOf(r) <==> k in MapOf(items) && k != items[pos].name)
            && (k in MapOf(r) ==> MapOf(r)[k] == MapOf(items)[k])
  {
    var r := items[..pos] + items[pos + 1..];
    DeleteShifts(items, pos);
    if k in MapOf(items) && k != items[pos].name {
      var i := Locate(items, k);
      Lookup(r, if i < pos then i else i - 1);
    }
    if k in MapOf(r) {
      var j := Locate(r, k);
      var i := if j < pos then j else j + 1;
      assert items[i] == r[j];
      Lookup(items, i);
    }
  }

  lemma {:induction false} MapDelete(items: seq<Item>, pos: nat)
    requires UniqueItems(items) && pos < |items| && items[pos].Item?
    ensures var r := items[..pos] + items[pos + 1..];
            UniqueItems(r) && MapOf(r) == MapOf(items) - {items[pos].name}
  {
    var r := items[..pos] + items[pos + 1..];
    DeleteShifts(items, pos);
    var m, m' := MapOf(items) - {items[pos].name}, MapOf(r);
    forall k ensures (k in m' <==> k in m) && (k in m' ==> m'[k] == m[k]) {
      DeleteKeeps(items, pos, k);
    }
    assert m'.Keys == m.Keys;
  }

  /** The plain reading of a patch entry: set the name, or delete it when a present name gets an empty value. */
  function Overlay(m: map<string, string>, e: string): map<string, string> {
    if !Named(e) then m
    else if ValueOf(e) == "" && NameOf(e) in m then m - {NameOf(e)}
    else m[NameOf(e) := ValueOf(e)]
  }

  /** The one entry the loop skips: its new value spells out the whole old entry. */
  predicate Skipped(m: map<string, string>, e: string) {
    Named(e) && NameOf(e) in m && ValueOf(e) == Entry(NameOf(e), m[NameOf(e)])
  }

  function Overlaid(m: map<string, string>, patch: seq<string>): map<string, string> {
    if patch == [] then m
    else
      var before := Overlaid(m, patch[..|patch| - 1]);
      var e := patch[|patch| - 1];
      if Skipped(before, e) then before else Overlay(before, e)
  }

  /** Entries without '=' in the list, in order. */
  function Bare(env: seq<string>): seq<string> {
    if env == [] then []
    else Bare(env[..|env| - 1]) + (if Named(env[|env| - 1]) then [] else [env[|env| - 1]])
  }

  lemma {:induction false} BareConcat(a: seq<string>, b: seq<string>)
    ensures Bare(a + b) == Bare(a) + Bare(b)
  {
    if b == [] {
      assert a + b == a;
    } else {
      assert (a + b)[..|a + b| - 1] == a + b[..|b| - 1];
      BareConcat(a, b[..|b| - 1]);
    }
  }

  lemma {:induction false} BareDropsNamed(env: seq<string>, pos: nat, with: seq<string>)
    requires pos < |env| && Named(env[pos]) && Bare(with) == []
    ensures Bare(env[..pos] + with + env[pos + 1..]) == Bare(env)
  {
    assert env == env[..pos] + [env[pos]] + env[pos + 1..];
    BareConcat(env[..pos] + [env[pos]], env[pos + 1..]);
    BareConcat(env[..pos], [env[pos]]);
    BareConcat(env[..pos] + with, env[pos + 1..]);
    BareConcat(env[..pos], with);
    assert Bare([env[pos]]) == [];
  }

  /** One round of the loop is one overlay step on the map, unless it is the skipped entry; names stay
      unique and entries without '=' stay put. */
  lemma {:induction false} MergeOneRefines(env: seq<string>, e: string)
    requires UniqueNames(env)
    ensures UniqueNames(MergeOne(env, e))
    ensures AsMap(MergeOne(env, e)) == if Skipped(AsMap(env), e) then AsMap(env) else Overlay(AsMap(env), e)
    ensures Bare(MergeOne(env, e)) == Bare(env)
  {
    SplitCutsAtFirst(e);
    if Named(e) {
      var pos := Position(env, NameOf(e) + "=");
      PositionByName(env, NameOf(e));
      if pos == |env| {
        MergeAppends(env, e);
      } else {
        SplitCutsAtFirst(env[pos]);
        if ValueOf(e) == "" {
          MergeDeletes(env, pos);
        } else if env[pos] != ValueOf(e) {
          MergeUpdates(env, pos, e);
        }
      }
    }
  }

  /** The position found by prefix is the position of the name in the map. */
  lemma {:induction false} PositionByName(env: seq<string>, name: string)
    requires '=' !in name && UniqueNames(env)
    ensures var pos := Position(env, name + "=");
            if pos == |env| then name !in AsMap(env)
            else Named(env[pos]) && NameOf(env[pos]) == name && name in AsMap(env)
                    && AsMap(env)[name] == ValueOf(env[pos])
  {
    forall i | 0 <= i < |env|
      ensures StartsWith(env[i], name + "=") <==> Items(env)[i].Item? && Items(env)[i].name == name
    {
      PrefixIsName(env[i], name);
    }
  }

  lemma {:induction false} MergeAppends(env: seq<string>, e: string)
    requires UniqueNames(env) && Named(e) && NameOf(e) !in AsMap(env)
    ensures var r := env + [e];
            UniqueNames(r) && AsMap(r) == AsMap(env)[NameOf(e) := ValueOf(e)] && Bare(r) == Bare(env)
  {
    assert Items(env + [e]) == Items(env) + [ItemOf(e)];
    MapAppend(Items(env), ItemOf(e));
    BareConcat(env, [e]);
    assert Bare([e]) == [];
  }

  lemma {:induction false} MergeUpdates(env: seq<string>, pos: nat, e: string)
    requires UniqueNames(env) && pos < |env| && Named(env[pos]) && Named(e) && NameOf(e) == NameOf(env[pos])
    ensures var r := env[pos := e];
            UniqueNames(r) && AsMap(r) == AsMap(env)[NameOf(e) := ValueOf(e)] && Bare(r) == Bare(env)
  {
    var r := env[pos := e];
    assert r == env[..pos] + [e] + env[pos + 1..];
    assert Bare([e]) == [];
    BareDropsNamed(env, pos, [e]);
    assert Items(r) == Items(env)[pos := ItemOf(e)];
    MapUpdate(Items(env), pos, ItemOf(e));
  }

  lemma {:induction false} MergeDeletes(env: seq<string>, pos: nat)
    requires UniqueNames(env) && pos < |env| && Named(env[pos])
    ensures var r := env[..pos] + env[pos + 1..];
            UniqueNames(r) && AsMap(r) == AsMap(env) - {NameOf(env[pos])} && Bare(r) == Bare(env)
  {
    var r := env[..pos] + env[pos + 1..];
    assert env[..pos] + [] + env[pos + 1..] == r;
    BareDropsNamed(env, pos, []);
    assert Items(r) == Items(env)[..pos] + Items(env)[pos + 1..];
    MapDelete(Items(env), pos);
  }

  /** The whole merge refines the map fold, for every list of new entries. */
  lemma {:induction false} MergeRefines(env: seq<string>, patch: seq<string>)
    requires UniqueNames(env)
    ensures UniqueNames(Merge(env, patch))
    ensures AsMap(Merge(env, patch)) == Overlaid(AsMap(env), patch)
    ensures Bare(Merge(env, patch)) == Bare(env)
  {
    if patch != [] {
      MergeRefines(env, patch[..|patch| - 1]);
      MergeOneRefines(Merge(env, patch[..|patch| - 1]), patch[|patch| - 1]);
    }
  }

  /** The loop does what the plain reading of an entry asks exactly when the entry is not the skipped one. */
  lemma {:induction false} PlainReadingIff(env: seq<string>, e: string)
    requires UniqueNames(env)
    ensures UniqueNames(MergeOne(env, e))
    ensures AsMap(MergeOne(env, e)) == Overlay(AsMap(env), e) <==> !Skipped(AsMap(env), e)
  {
    MergeOneRefines(env, e);
    if Skipped(AsMap(env), e) {
      var m, n := AsMap(env), NameOf(e);
      assert |ValueOf(e)| > |m[n]|;
      assert Overlay(m, e)[n] == ValueOf(e);
    }
  }

  /** Setting A to the text "A=x" while the list holds "A=x" is the case that is dropped. */
  lemma {:induction false} DroppedAssignment()
    ensures NameOf("A=A=x") == "A" && ValueOf("A=A=x") == "A=x"
    ensures MergeOne(["A=x"], "A=A=x") == ["A=x"]
    ensures Overlay(map["A" := "x"], "A=A=x") == map["A" := "A=x"]
  {
    var e := "A=A=x";
    assert FirstEq(e) == 1 by { assert e[1..][0] == '='; }
    assert e[..1] == "A" && e[2..] == "A=x";
    DropsWholeEntry("A=x", e);
  }

  /** A new value that is the text of the list's only entry, of the same name, changes nothing. */
  lemma {:induction false} DropsWholeEntry(entry: string, e: string)
    requires Named(e) && ValueOf(e) == entry && StartsWith(entry, NameOf(e) + "=")
    ensures MergeOne([entry], e) == [entry]
  {
    SplitCutsAtFirst(e);
    assert Position([entry], NameOf(e) + "=") == 0;
  }

  // ---------------------------------------------------------------- merging twice

  /** Merging `e` into `env` changes nothing. */
  predicate Stable(env: seq<string>, e: string) {
    Named(e) ==>
      var pos := Position(env, NameOf(e) + "=");
      pos < |env| && ValueOf(e) != "" && (env[pos] == e || env[pos] == ValueOf(e))
  }

  lemma {:induction false} StableMerge(env: seq<string>, e: string)
    requires Stable(env, e)
    ensures MergeOne(env, e) == env
  {
    SplitCutsAtFirst(e);
  }

  lemma {:induction false} PositionIs(env: seq<string>, prefix: string, p: nat)
    requires p < |env| && StartsWith(env[p], prefix) && forall j | 0 <= j < p :: !StartsWith(env[j], prefix)
    ensures Position(env, prefix) == p
  {}

  lemma {:induction false} MergedIsStable(env: seq<string>, e: string)
    requires Named(e) ==> ValueOf(e) != ""
    ensures Stable(MergeOne(env, e), e)
  {
    SplitCutsAtFirst(e);
    if Named(e) {
      var prefix := NameOf(e) + "=";
      var pos := Position(env, prefix);
      PrefixIsName(e, NameOf(e));
      assert StartsWith(e, prefix);
      PositionIs(MergeOne(env, e), prefix, pos);
    }
  }

  lemma {:induction false} OthersStayStable(env: seq<string>, e: string, f: string)
    requires Stable(env, e)
    requires Named(f) ==> ValueOf(f) != "" && (Named(e) ==> NameOf(f) != NameOf(e))
    ensures Stable(MergeOne(env, f), e)
  {
    SplitCutsAtFirst(f);
    if Named(e) && Named(f) {
      var prefix := NameOf(e) + "=";
      var pos, pos' := Position(env, prefix), Position(env, NameOf(f) + "=");
      PrefixIsName(f, NameOf(e));
      assert !StartsWith(f, prefix);
      if pos' < |env| {
        PrefixIsName(env[pos'], NameOf(e));
        PrefixIsName(env[pos'], NameOf(f));
      }
      PositionIs(MergeOne(env, f), prefix, pos);
    }
  }

  /** New entries with distinct names and non-empty values. */
  predicate Plain(patch: seq<string>) {
    && (forall i | 0 <= i < |patch| && Named(patch[i]) :: ValueOf(patch[i]) != "")
    && UniqueNames(patch)
  }

  lemma {:induction false} AllStable(env: seq<string>, patch: seq<string>)
    requires Plain(patch)
    ensures forall i | 0 <= i < |patch| :: Stable(Merge(env, patch), patch[i])
  {
    if patch != [] {
      var init, last := patch[..|patch| - 1], patch[|patch| - 1];
      AllStable(env, init);
      MergedIsStable(Merge(env, init), last);
      forall i | 0 <= i < |init| ensures Stable(Merge(env, patch), patch[i]) {
        assert init[i] == patch[i];
        OthersStayStable(Merge(env, init), patch[i], last);
      }
    }
  }

  lemma {:induction false} StableFold(env: seq<string>, patch: seq<string>)
    requires forall i | 0 <= i < |patch| :: Stable(env, patch[i])
    ensures Merge(env, patch) == env
  {
    if patch != [] {
      StableFold(env, patch[..|patch| - 1]);
      StableMerge(env, patch[|patch| - 1]);
    }
  }

  /** Sending the same patch twice changes nothing more, whatever the old list holds. */
  lemma {:induction false} MergeIdempotent(env: seq<string>, patch: seq<string>)
    requires Plain(patch)
    ensures Merge(Merge(env, patch), patch) == Merge(env, patch)
  {
    AllStable(env, patch);
    StableFold(Merge(env, patch), patch);
  }

  // ---------------------------------------------------------------- volumes

  function AddVolumes(volumes: seq<string>, more: seq<string>): seq<string> {
    if more == [] then volumes
    else
      var before := AddVolumes(volumes, more[..|more| - 1]);
      if more[|more| - 1] in before then before else before + [more[|more| - 1]]
  }

  method MergeVolumes(current: seq<string>, more: seq<string>) returns (volumes: seq<string>)
    ensures volumes == AddVolumes(current, more)
  {
    volumes := current;
    for i := 0 to |more|
      invariant volumes == AddVolumes(current, more[..i])
    {
      assert more[..i + 1][..i] == more[..i];
      if more[i] !in volumes {
        volumes := volumes + [more[i]];
      }
    }
    assert more[..|more|] == more;
  }

  /** Old volumes keep their places, the new ones follow, and nothing new is listed twice. */
  lemma {:induction false} VolumesAdded(current: seq<string>, more: seq<string>)
    ensures var r := AddVolumes(current, more);
            && current <= r
            && (forall v :: v in r <==> v in current || v in more)
            && (forall i, j | 0 <= i < j < |r| && |current| <= j :: r[i] != r[j])
  {
    if more != [] {
      VolumesAdded(current, more[..|more| - 1]);
      assert forall v :: v in more <==> v in more[..|more| - 1] || v == more[|more| - 1];
    }
  }

  lemma {:induction false} KnownVolumesChangeNothing(volumes: seq<string>, more: seq<string>)
    requires forall v | v in more :: v in volumes
    ensures AddVolumes(volumes, more) == volumes
  {
    if more != [] {
      KnownVolumesChangeNothing(volumes, more[..|more| - 1]);
    }
  }

  // ---------------------------------------------------------------- the whole patch

  function BindsOf(h: Option<HostConfig>): seq<string> {
    GetOr(GetOr(h, DEFAULT_HOST).binds, [])
  }

  function PatchContainer(c: Config, u: Config): Config {
    var volumes := AddVolumes(BindsOf(c.hostConfig), BindsOf(u.hostConfig));
    c.(image := OrElse(u.image, c.image),
       cmd := OrElse(u.cmd, c.cmd),
       env := Some(Merge(GetOr(c.env, []), GetOr(u.env, []))),
       hostConfig := if volumes != [] || c.hostConfig.Some?
                     then Some(GetOr(c.hostConfig, DEFAULT_HOST).(binds := Some(volumes)))
                     else None)
  }

  /** The spec a patch stores.  Absent fields keep the current value, except the replication mode. */
  function PatchSpec(s: CargoSpecPartial, u: CargoSpecUpdate): CargoSpecPartial {
    CargoSpecPartial(
      s.name,
      if u.container.Some? then PatchContainer(s.container, u.container.value) else s.container,
      OrElse(u.initContainer, s.initContainer),
      u.replication,
      OrElse(u.secrets, s.secrets),
      OrElse(u.metadata, s.metadata),
      OrElse(u.imagePullSecret, s.imagePullSecret),
      OrElse(u.imagePullPolicy, s.imagePullPolicy))
  }

  /** Where the patch has its say: a given image or command replaces the old one and an absent one keeps it, the
      environment is merged, the volumes are added to, and the other settings of the container stay.  There is a
      host configuration afterwards exactly when there was one before or there is a volume. */
  lemma {:induction false} PatchOverlaysContainer(c: Config, u: Config)
    ensures var r := PatchContainer(c, u);
            && r.image == (if u.image.Some? then u.image else c.image)
            && r.cmd == (if u.cmd.Some? then u.cmd else c.cmd)
            && r.env == Some(Merge(GetOr(c.env, []), GetOr(u.env, [])))
            && r.rest == c.rest
            && (r.hostConfig.Some? <==> c.hostConfig.Some? || BindsOf(u.hostConfig) != [])
            && (r.hostConfig.Some? ==>
                  && BindsOf(c.hostConfig) <= BindsOf(r.hostConfig)
                  && (forall v :: v in BindsOf(r.hostConfig) <==>
                        v in BindsOf(c.hostConfig) || v in BindsOf(u.hostConfig))
                  && r.hostConfig.value.rest == if c.hostConfig.Some? then c.hostConfig.value.rest else "")
  {
    var current, more := BindsOf(c.hostConfig), BindsOf(u.hostConfig);
    VolumesAdded(current, more);
    if more != [] { assert more[0] in AddVolumes(current, more); }
  }

  /** Each given field replaces the stored one and each absent one keeps it, except that the replication mode is
      always the patch's. */
  lemma {:induction false} PatchOverlaysSpec(s: CargoSpecPartial, u: CargoSpecUpdate)
    ensures var r := PatchSpec(s, u);
            && r.name == s.name && r.replication == u.replication
            && (u.container.None? ==> r.container == s.container)
            && (u.container.Some? ==> r.container == PatchContainer(s.container, u.container.value))
            && r.initContainer == (if u.initContainer.Some? then u.initContainer else s.initContainer)
            && r.secrets == (if u.secrets.Some? then u.secrets else s.secrets)
            && r.metadata == (if u.metadata.Some? then u.metadata else s.metadata)
            && r.imagePullSecret == (if u.imagePullSecret.Some? then u.imagePullSecret else s.imagePullSecret)
            && r.imagePullPolicy == (if u.imagePullPolicy.Some? then u.imagePullPolicy else s.imagePullPolicy)
  {}

  const EMPTY_UPDATE: CargoSpecUpdate := CargoSpecUpdate(None, None, None, None, None, None, None)

  /** A patch that says nothing keeps the spec exactly when the cargo has no replication mode. */
  lemma {:induction false} EmptyPatchKeepsIff(s: CargoSpecPartial)
    ensures PatchSpec(s, EMPTY_UPDATE) == s <==> s.replication.None?
  {
    assert PatchSpec(s, EMPTY_UPDATE) == s.(replication := None);
  }

  /** Applying one patch twice stores the same spec as applying it once. */
  lemma {:induction false} PatchIdempotent(s: CargoSpecPartial, u: CargoSpecUpdate)
    requires u.container.Some? ==> Plain(GetOr(u.container.value.env, []))
    ensures PatchSpec(PatchSpec(s, u), u) == PatchSpec(s, u)
  {
    if u.container.Some? {
      var c, p := s.container, u.container.value;
      MergeIdempotent(GetOr(c.env, []), GetOr(p.env, []));
      var volumes := AddVolumes(BindsOf(c.hostConfig), BindsOf(p.hostConfig));
      VolumesAdded(BindsOf(c.hostConfig), BindsOf(p.hostConfig));
      assert BindsOf(PatchContainer(c, p).hostConfig) == volumes;
      KnownVolumesChangeNothing(volumes, BindsOf(p.hostConfig));
    }
  }
}
