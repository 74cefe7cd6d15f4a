/** Vm images: base images and the snapshots taken from them.  Every operation first reads and checks, then
    lets foreign tools work, and only then writes its row; other operations may run in between, so the
    write is guarded only by the table's primary key and by the foreign key from an image to its parent. */
module VmImages {
  import opened Options

  datatype ImageKind = Base | Snapshot

  /** `born` counts the writes before this one; it is not stored and only orders the rows. */
  datatype Image = Image(kind: ImageKind, parent: Option<string>, born: nat)

  /** Operations past their checks, about to write. */
  datatype Op =
    | AddSnapshot(name: string, parent: string)
    | AddClone(name: string)
    | Remove(name: string)

  datatype State = State(images: map<string, Image>, clock: nat, ops: map<nat, Op>)

  const INIT: State := State(map[], 0, map[])

  datatype Move =
    | Import(name: string)
    | BeginVm(n: nat, vmKey: string, image: string)
    | BeginSnapshot(n: nat, name: string, image: string)
    | BeginClone(n: nat, name: string, image: string)
    | BeginDelete(n: nat, name: string)
    | Commit(n: nat)
    | GiveUp(n: nat)

  predicate HasChildren(images: map<string, Image>, name: string) {
    exists c | c in images :: images[c].parent == Some(name)
  }

  /** Name of the snapshot a new vm runs on. */
  function SnapshotName(image: string, vmKey: string): string { image + "." + vmKey }

  predicate Enabled(s: State, m: Move) {
    match m
    case Import(name) => name !in s.images
    case BeginVm(n, vmKey, image) =>
      && n !in s.ops && image in s.images && s.images[image].kind.Base?
      && SnapshotName(image, vmKey) !in s.images
    case BeginSnapshot(n, name, image) => n !in s.ops && image in s.images && name !in s.images
    case BeginClone(n, name, image) =>
      n !in s.ops && image in s.images && s.images[image].kind.Snapshot? && name !in s.images
    case BeginDelete(n, name) => n !in s.ops && name in s.images && !HasChildren(s.images, name)
    case Commit(n) =>
      && n in s.ops
      && match s.ops[n] {
           case AddSnapshot(name, parent) => name !in s.images && parent in s.images
           case AddClone(name) => name !in s.images
           case Remove(name) => !HasChildren(s.images, name)
         }
    case GiveUp(n) => n in s.ops
  }

  function Write(s: State, op: Op): State {
    match op
    case AddSnapshot(name, parent) =>
      s.(images := s.images[name := Image(Snapshot, Some(parent), s.clock)], clock := s.clock + 1)
    case AddClone(name) =>
      s.(images := s.images[name := Image(Base, None, s.clock)], clock := s.clock + 1)
    case Remove(name) => s.(images := s.images - {name})
  }

  function Next(s: State, m: Move): State
    requires Enabled(s, m)
  {
    match m
    case Import(name) => Write(s, AddClone(name))
    case BeginVm(n, vmKey, image) => s.(ops := s.ops[n := AddSnapshot(SnapshotName(image, vmKey), image)])
    case BeginSnapshot(n, name, image) => s.(ops := s.ops[n := AddSnapshot(name, image)])
    case BeginClone(n, name, image) => s.(ops := s.ops[n := AddClone(name)])
    case BeginDelete(n, name) => s.(ops := s.ops[n := Remove(name)])
    case Commit(n) => Write(s, s.ops[n]).(ops := s.ops - {n})
    case GiveUp(n) => s.(ops := s.ops - {n})
  }

  predicate ValidRun(run: seq<Move>)
    decreases |run|, 0
  {
    run == [] || (ValidRun(run[..|run| - 1]) && Enabled(After(run[..|run| - 1]), run[|run| - 1]))
  }

  function After(run: seq<Move>): State
    requires ValidRun(run)
    decreases |run|, 1
  {
    if run == [] then INIT else Next(After(run[..|run| - 1]), run[|run| - 1])
  }

  // ---------------------------------------------------------------- the forest

  /** Base images have no parent; snapshots have one, which exists and is older. */
  predicate Forest(images: map<string, Image>) {
    forall c | c in images ::
      && (images[c].kind.Base? <==> images[c].parent.None?)
      && (images[c].parent.Some? ==>
            images[c].parent.value in images && images[images[c].parent.value].born < images[c].born)
  }

  predicate Inv(s: State) {
    Forest(s.images) && forall c | c in s.images :: s.images[c].born < s.clock
  }

  lemma {:induction false} StepKeepsInv(s: State, m: Move)
    requires Inv(s) && Enabled(s, m)
    ensures Inv(Next(s, m))
  {
    var s' := Next(s, m);
    if m.Commit? && s.ops[m.n].Remove? {
      forall c | c in s'.images && s'.images[c].parent.Some? ensures s'.images[c].parent.value in s'.images {
        assert s.images[c].parent != Some(s.ops[m.n].name);
      }
    }
  }

  lemma {:induction false} RunKeepsInv(run: seq<Move>)
    requires ValidRun(run)
    ensures Inv(After(run))
  {
    if run != [] {
      RunKeepsInv(run[..|run| - 1]);
      StepKeepsInv(After(run[..|run| - 1]), run[|run| - 1]);
    }
  }

  /** Follow the parents to a base image. */
  function Root(images: map<string, Image>, name: string): (r: string)
    requires Forest(images) && name in images
    ensures r in images && images[r].kind.Base?
    ensures images[name].kind.Base? <==> r == name
    decreases images[name].born
  {
    if images[name].parent.None? then name else Root(images, images[name].parent.value)
  }

  /** In every run, interleaved in any way: no parent is ever missing, base images have none, and every
      image descends from one base image that still exists. */
  lemma {:induction false} EveryImageHasARoot(run: seq<Move>, name: string)
    requires ValidRun(run) && name in After(run).images
    ensures var images := After(run).images;
            && (images[name].kind.Base? <==> images[name].parent.None?)
            && (images[name].parent.Some? ==> images[name].parent.value in images)
            && Forest(images) && images[Root(images, name)].kind.Base?
            && (images[name].parent.Some? ==> Root(images, name) == Root(images, images[name].parent.value))
  {
    RunKeepsInv(run);
  }

  // ---------------------------------------------------------------- snapshots of base images only

  predicate ParentsAreBase(images: map<string, Image>) {
    forall c | c in images && images[c].parent.Some? ::
      images[c].parent.value in images && images[images[c].parent.value].kind.Base?
  }

  /** A snapshot row is only written when its parent is a base image at that moment. */
  predicate Careful(s: State, m: Move) {
    m.Commit? && m.n in s.ops && s.ops[m.n].AddSnapshot? ==>
      s.ops[m.n].parent in s.images && s.images[s.ops[m.n].parent].kind.Base?
  }

  lemma {:induction false} CarefulStepIff(s: State, m: Move)
    requires Inv(s) && Enabled(s, m) && ParentsAreBase(s.images)
    ensures ParentsAreBase(Next(s, m).images) <==> Careful(s, m)
  {
    StepKeepsInv(s, m);
    var s' := Next(s, m);
    if m.Commit? && s.ops[m.n].AddSnapshot? {
      var name, parent := s.ops[m.n].name, s.ops[m.n].parent;
      assert s'.images[name].parent == Some(parent);
      assert s'.images[parent] == s.images[parent];
    }
    forall c | c in s'.images && c in s.images && s'.images[c].parent.Some?
      ensures s'.images[c].parent.value in s'.images
           && s'.images[s'.images[c].parent.value].kind == s.images[s.images[c].parent.value].kind
    {
      var p := s.images[c].parent.value;
      assert p in s'.images;
    }
  }

  ghost predicate AlwaysBaseParents(run: seq<Move>)
    requires ValidRun(run)
  {
    ParentsAreBase(After(run).images) && (run == [] || AlwaysBaseParents(run[..|run| - 1]))
  }

  predicate CarefulRun(run: seq<Move>)
    requires ValidRun(run)
  {
    run == [] || (CarefulRun(run[..|run| - 1]) && Careful(After(run[..|run| - 1]), run[|run| - 1]))
  }

  /** Snapshots only ever have base images as parents exactly in the runs in which no snapshot row is
      written for a parent that is a snapshot by then. */
  lemma {:induction false} BaseParentsIff(run: seq<Move>)
    requires ValidRun(run)
    ensures AlwaysBaseParents(run) <==> CarefulRun(run)
  {
    if run != [] {
      var init := run[..|run| - 1];
      RunKeepsInv(init);
      BaseParentsIff(init);
      if AlwaysBaseParents(init) {
        CarefulStepIff(After(init), run[|run| - 1]);
      }
    }
  }

  /** Creating a vm without interruption is careful: it has just checked for a base image. */
  lemma {:induction false} VmCreationIsCareful(s: State, n: nat, vmKey: string, image: string)
    requires Inv(s) && Enabled(s, BeginVm(n, vmKey, image))
    ensures Enabled(Next(s, BeginVm(n, vmKey, image)), Commit(n))
    ensures Careful(Next(s, BeginVm(n, vmKey, image)), Commit(n))
  {}

  lemma {:induction false} Extend(run: seq<Move>, m: Move)
    requires ValidRun(run) && Enabled(After(run), m)
    ensures ValidRun(run + [m]) && After(run + [m]) == Next(After(run), m)
  {
    assert (run + [m])[..|run|] == run;
  }

  /** The snapshot request does not check the kind of its image, so a snapshot can be taken of a snapshot. */
  lemma {:induction false} SnapshotOfSnapshot() returns (run: seq<Move>)
    ensures ValidRun(run) && !ParentsAreBase(After(run).images)
  {
    run := [];
    Extend(run, Import("a"));
    run := run + [Import("a")];
    Extend(run, BeginSnapshot(0, "b", "a"));
    run := run + [BeginSnapshot(0, "b", "a")];
    Extend(run, Commit(0));
    run := run + [Commit(0)];
    Extend(run, BeginSnapshot(0, "c", "b"));
    run := run + [BeginSnapshot(0, "c", "b")];
    Extend(run, Commit(0));
    run := run + [Commit(0)];
    assert After(run).images["c"].parent == Some("b");
    assert After(run).images["b"].kind.Snapshot?;
  }

  // ---------------------------------------------------------------- one operation at a time

  /** The move starts an operation. */
  predicate Starts(m: Move) { !m.Commit? && !m.GiveUp? }

  /** An operation only starts when no other is under way. */
  predicate OneAtATime(run: seq<Move>)
    requires ValidRun(run)
  {
    run == [] ||
    (OneAtATime(run[..|run| - 1]) && (Starts(run[|run| - 1]) ==> After(run[..|run| - 1]).ops == map[]))
  }

  /** The operation a move puts under way. */
  function Pending(m: Move): Option<(nat, Op)> {
    match m
    case BeginVm(n, vmKey, image) => Some((n, AddSnapshot(SnapshotName(image, vmKey), image)))
    case BeginSnapshot(n, name, image) => Some((n, AddSnapshot(name, image)))
    case BeginClone(n, name, image) => Some((n, AddClone(name)))
    case BeginDelete(n, name) => Some((n, Remove(name)))
    case _ => None
  }

  /** What is under way is what the last move started, and the images are still those it was checked against. */
  lemma {:induction false} OnlyTheLast(run: seq<Move>)
    requires ValidRun(run) && OneAtATime(run)
    ensures var s := After(run);
            if s.ops == map[] then true
            else
              && run != [] && Pending(run[|run| - 1]).Some?
              && (var (n, op) := Pending(run[|run| - 1]).value; s.ops == map[n := op])
              && s.images == After(run[..|run| - 1]).images && After(run[..|run| - 1]).ops == map[]
  {
    if run != [] {
      OnlyTheLast(run[..|run| - 1]);
      var before, m := After(run[..|run| - 1]), run[|run| - 1];
      if !Starts(m) {
        assert before.ops - {m.n} == map[];
      }
    }
  }

  /** One operation at a time, the daemon's own checks are enough: neither the primary key nor the foreign
      key to a parent ever refuses a write. */
  lemma {:induction false} ChecksSuffice(run: seq<Move>, n: nat)
    requires ValidRun(run) && OneAtATime(run) && n in After(run).ops
    ensures Enabled(After(run), Commit(n))
  {
    OnlyTheLast(run);
  }

  /** A snapshot request that goes through names a base image when it begins: the check the request lacks. */
  predicate RequestsNameBases(run: seq<Move>)
    requires ValidRun(run)
  {
    |run| < 2 ||
    (RequestsNameBases(run[..|run| - 1])
     && (run[|run| - 2].BeginSnapshot? && run[|run| - 1].Commit? ==> NamesBase(run)))
  }

  predicate NamesBase(run: seq<Move>)
    requires ValidRun(run) && |run| >= 2 && run[|run| - 2].BeginSnapshot?
  {
    var init := run[..|run| - 1];
    assert ValidRun(init) && init[|init| - 1] == run[|run| - 2];
    var images := After(init[..|init| - 1]).images;
    run[|run| - 2].image in images && images[run[|run| - 2].image].kind.Base?
  }

  /** The last move is careful exactly when it does not complete a snapshot request for a snapshot. */
  lemma {:induction false} CarefulIff(run: seq<Move>)
    requires ValidRun(run) && OneAtATime(run) && run != []
    ensures Careful(After(run[..|run| - 1]), run[|run| - 1])
            <==> (|run| >= 2 && run[|run| - 2].BeginSnapshot? && run[|run| - 1].Commit? ==> NamesBase(run))
  {
    var init, m := run[..|run| - 1], run[|run| - 1];
    OnlyTheLast(init);
    if m.Commit? {
      assert init[|init| - 1] == run[|run| - 2];
      assert Enabled(After(init[..|init| - 1]), init[|init| - 1]);
    }
  }

  lemma {:induction false} CarefulRunIff(run: seq<Move>)
    requires ValidRun(run) && OneAtATime(run)
    ensures CarefulRun(run) <==> RequestsNameBases(run)
  {
    if run != [] {
      CarefulRunIff(run[..|run| - 1]);
      CarefulIff(run);
    }
  }

  /** One operation at a time, all parents are base images throughout a run if and only if every snapshot
      request that goes through names a base image when it begins. */
  lemma {:induction false} SequentialBaseParentsIff(run: seq<Move>)
    requires ValidRun(run) && OneAtATime(run)
    ensures AlwaysBaseParents(run) <==> RequestsNameBases(run)
  {
    BaseParentsIff(run);
    CarefulRunIff(run);
  }

  predicate NoRequests(run: seq<Move>) { forall i | 0 <= i < |run| :: !run[i].BeginSnapshot? }

  lemma {:induction false} WithoutRequests(run: seq<Move>)
    requires ValidRun(run) && NoRequests(run)
    ensures RequestsNameBases(run)
  {
    if |run| >= 2 { WithoutRequests(run[..|run| - 1]); }
  }

  /** Imports, vm creations, clones and deletions, one at a time, only ever give snapshots base images as
      parents. */
  lemma {:induction false} BaseParentsWithoutRequests(run: seq<Move>)
    requires ValidRun(run) && OneAtATime(run) && NoRequests(run)
    ensures AlwaysBaseParents(run) && ParentsAreBase(After(run).images)
  {
    WithoutRequests(run);
    SequentialBaseParentsIff(run);
  }

  /** Running alone matters: while a vm creation is under way its image is deleted, and its name is taken by
      a snapshot of a base image. */
  lemma {:induction false} ReusedName() returns (run: seq<Move>)
    ensures ValidRun(run) && !ParentsAreBase(After(run).images)
    ensures forall i | 0 <= i < |run| && run[i].BeginSnapshot? :: run[i] == BeginSnapshot(2, "a", "b")
    ensures "b" in After(run).images && After(run).images["b"].kind.Base?
  {
    run := StolenName();
    assert SnapshotName("a", "v") == "a.v";
    Extend(run, Commit(0));
    run := run + [Commit(0)];
    assert After(run).images["a.v"].parent == Some("a");
    assert After(run).images["a"].kind.Snapshot?;
  }

  lemma {:induction false} StolenName() returns (run: seq<Move>)
    ensures ValidRun(run) && After(run).ops == map[0 := AddSnapshot(SnapshotName("a", "v"), "a")]
    ensures After(run).images == map["b" := Image(Base, None, 1), "a" := Image(Snapshot, Some("b"), 2)]
    ensures forall i | 0 <= i < |run| && run[i].BeginSnapshot? :: run[i] == BeginSnapshot(2, "a", "b")
  {
    run := [];
    Extend(run, Import("a"));
    run := run + [Import("a")];
    Extend(run, BeginVm(0, "v", "a"));
    run := run + [BeginVm(0, "v", "a")];
    Extend(run, BeginDelete(1, "a"));
    run := run + [BeginDelete(1, "a")];
    Extend(run, Commit(1));
    run := run + [Commit(1)];
    assert After(run).images == map[];
    Extend(run, Import("b"));
    run := run + [Import("b")];
    Extend(run, BeginSnapshot(2, "a", "b"));
    run := run + [BeginSnapshot(2, "a", "b")];
    Extend(run, Commit(2));
    run := run + [Commit(2)];
    assert After(run).ops == map[0 := AddSnapshot(SnapshotName("a", "v"), "a")];
  }

  // ---------------------------------------------------------------- where the rows come from

  /** The move asks for a row of this name, kind and parent, and may do so: a vm runs on a snapshot of a base image
      named after both, a clone is a base image made from a snapshot. */
  predicate AsksFor(before: State, m: Move, name: string, kind: ImageKind, parent: Option<string>) {
    && name !in before.images
    && match m
       case Import(x) => x == name && kind.Base? && parent.None?
       case BeginVm(_, vmKey, image) =>
         && name == image + "." + vmKey && kind.Snapshot? && parent == Some(image)
         && image in before.images && before.images[image].kind.Base?
       case BeginSnapshot(_, x, image) =>
         x == name && kind.Snapshot? && parent == Some(image) && image in before.images
       case BeginClone(_, x, image) =>
         && x == name && kind.Base? && parent.None?
         && image in before.images && before.images[image].kind.Snapshot?
       case _ => false
  }

  predicate AskedFor(run: seq<Move>, name: string, kind: ImageKind, parent: Option<string>)
    requires ValidRun(run)
  {
    && run != []
    && (AskedFor(run[..|run| - 1], name, kind, parent)
        || AsksFor(After(run[..|run| - 1]), run[|run| - 1], name, kind, parent))
  }

  predicate OpAskedFor(run: seq<Move>, op: Op)
    requires ValidRun(run)
  {
    match op
    case AddSnapshot(name, parent) => AskedFor(run, name, Snapshot, Some(parent))
    case AddClone(name) => AskedFor(run, name, Base, None)
    case Remove(_) => true
  }

  /** Every row, and every row about to be written, is one that a request which was allowed asked for. */
  lemma {:induction false} EveryRowWasAskedFor(run: seq<Move>)
    requires ValidRun(run)
    ensures forall c | c in After(run).images ::
              AskedFor(run, c, After(run).images[c].kind, After(run).images[c].parent)
    ensures forall n | n in After(run).ops :: OpAskedFor(run, After(run).ops[n])
  {
    if run != [] {
      var init, m := run[..|run| - 1], run[|run| - 1];
      EveryRowWasAskedFor(init);
      var s, s' := After(init), After(run);
      forall n | n in s'.ops ensures OpAskedFor(run, s'.ops[n]) {
        if n in s.ops && s'.ops[n] == s.ops[n] { assert OpAskedFor(init, s.ops[n]); }
      }
      forall c | c in s'.images ensures AskedFor(run, c, s'.images[c].kind, s'.images[c].parent) {
        if c in s.images && s'.images[c] == s.images[c] {
          assert AskedFor(init, c, s.images[c].kind, s.images[c].parent);
        } else if m.Commit? {
          assert OpAskedFor(init, s.ops[m.n]);
        }
      }
    }
  }

  /** A clone does not depend on what it was made from: the snapshot and its base image can go. */
  lemma {:induction false} CloneOutlivesItsSource() returns (run: seq<Move>)
    ensures ValidRun(run) && After(run).images.Keys == {"c"}
    ensures After(run).images["c"].kind.Base? && After(run).images["c"].parent.None?
  {
    run := [];
    Extend(run, Import("a"));
    run := run + [Import("a")];
    assert SnapshotName("a", "v") == "a.v";
    run := Uninterrupted(run, 0, BeginVm(0, "v", "a"));
    assert After(run).images == map["a" := Image(Base, None, 0), "a.v" := Image(Snapshot, Some("a"), 1)];
    run := Uninterrupted(run, 0, BeginClone(0, "c", "a.v"));
    run := Uninterrupted(run, 0, BeginDelete(0, "a.v"));
    assert After(run).images == map["a" := Image(Base, None, 0), "c" := Image(Base, None, 2)];
    run := Uninterrupted(run, 0, BeginDelete(0, "a"));
    assert After(run).images == map["c" := Image(Base, None, 2)];
  }

  /** An operation that is allowed to begin goes through when nothing comes in between. */
  lemma {:induction false} Uninterrupted(run: seq<Move>, n: nat, m: Move) returns (run': seq<Move>)
    requires ValidRun(run) && Enabled(After(run), m) && Pending(m).Some? && Pending(m).value.0 == n
    ensures ValidRun(run') && After(run').ops == After(run).ops
    ensures After(run').images == Write(After(run), Pending(m).value.1).images
    ensures After(run').clock == Write(After(run), Pending(m).value.1).clock
  {
    Extend(run, m);
    Extend(run + [m], Commit(n));
    run' := run + [m] + [Commit(n)];
  }
}
