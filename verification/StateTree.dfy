/** The order in which a statefile and its nested sub-states are applied.

    Each level lists the statefile, then its flattened sub-states, and reverses the list.  A node is
    named by its path: the indices of the sub-states leading to it. */
module StateTree {

  datatype Tree<S> = Node(state: S, subs: seq<Tree<S>>)

  type Path = seq<nat>

  function Reverse<T>(s: seq<T>): (r: seq<T>)
    ensures |r| == |s| && forall i | 0 <= i < |s| :: r[i] == s[|s| - 1 - i]
  {
    if s == [] then [] else Reverse(s[1..]) + [s[0]]
  }

  /** The list of statefiles in the order they are applied. */
  function Flatten<S>(t: Tree<S>): seq<S>
    decreases t, 1
  {
    Reverse([t.state] + FlattenAll(t.subs))
  }

  function FlattenAll<S>(ts: seq<Tree<S>>): seq<S>
    decreases ts, 0
  {
    if ts == [] then [] else Flatten(ts[0]) + FlattenAll(ts[1..])
  }

  // ---------------------------------------------------------------- paths

  predicate Valid<S>(t: Tree<S>, p: Path)
    decreases |p|
  {
    p == [] || (p[0] < |t.subs| && Valid(t.subs[p[0]], p[1..]))
  }

  function StateAt<S>(t: Tree<S>, p: Path): S
    requires Valid(t, p)
    decreases |p|
  {
    if p == [] then t.state else StateAt(t.subs[p[0]], p[1..])
  }

  function Under(i: nat, ps: seq<Path>): (r: seq<Path>)
    ensures |r| == |ps| && forall k | 0 <= k < |ps| :: r[k] == [i] + ps[k]
  {
    seq(|ps|, k requires 0 <= k < |ps| => [i] + ps[k])
  }

  /** The paths of the applied nodes, in the order of `Flatten`. */
  function Order<S>(t: Tree<S>): seq<Path>
    decreases t, 1
  {
    Reverse([[]] + OrderAll(t.subs, 0))
  }

  function OrderAll<S>(ts: seq<Tree<S>>, i: nat): seq<Path>
    decreases ts, 0
  {
    if ts == [] then [] else Under(i, Order(ts[0])) + OrderAll(ts[1..], i + 1)
  }

  // ---------------------------------------------------------------- the order, described directly

  /** Does `p` come before `q`, both below a node of even (or odd) depth?  A node of even depth comes
      after everything below it and takes its sub-states last to first; a node of odd depth comes
      before everything below it and takes them first to last. */
  predicate Before(even: bool, p: Path, q: Path)
    decreases |p|
  {
    if q == [] then p != [] && even
    else if p == [] then !even
    else if p[0] == q[0] then Before(!even, p[1..], q[1..])
    else if even then p[0] > q[0]
    else p[0] < q[0]
  }

  predicate Sorted(even: bool, ps: seq<Path>) {
    forall i, j | 0 <= i < j < |ps| :: Before(even, ps[i], ps[j])
  }

  lemma {:induction false} BeforeDual(even: bool, p: Path, q: Path)
    ensures Before(even, p, q) == Before(!even, q, p)
    decreases |p|
  {
    if p != [] && q != [] && p[0] == q[0] {
      BeforeDual(!even, p[1..], q[1..]);
    }
  }

  lemma {:induction false} NeverBeforeItself(even: bool, p: Path)
    ensures !Before(even, p, p)
    decreases |p|
  {
    if p != [] {
      NeverBeforeItself(!even, p[1..]);
    }
  }

  lemma {:induction false} UnderIsSorted(i: nat, ps: seq<Path>)
    requires Sorted(true, ps)
    ensures Sorted(false, Under(i, ps))
  {
    var a := Under(i, ps);
    forall m, n | 0 <= m < n < |a| ensures Before(false, a[m], a[n]) {
      assert a[m][1..] == ps[m] && a[n][1..] == ps[n];
    }
  }

  lemma {:induction false} SortedConcat(i: nat, a: seq<Path>, b: seq<Path>)
    requires Sorted(false, a) && Sorted(false, b)
    requires forall k | 0 <= k < |a| :: a[k] != [] && a[k][0] == i
    requires forall k | 0 <= k < |b| :: b[k] != [] && b[k][0] > i
    ensures Sorted(false, a + b)
  {
    forall m, n | 0 <= m < n < |a + b| ensures Before(false, (a + b)[m], (a + b)[n]) {
      if n >= |a| > m {
        assert (a + b)[m] == a[m] && (a + b)[n] == b[n - |a|];
      }
    }
  }

  lemma {:induction false} OrderIsSorted<S>(t: Tree<S>)
    ensures Sorted(true, Order(t))
    decreases t, 1
  {
    OrderAllIsSorted(t.subs, 0);
    var l := [[]] + OrderAll(t.subs, 0);
    assert Sorted(false, l);
    forall i, j | 0 <= i < j < |Order(t)| ensures Before(true, Order(t)[i], Order(t)[j]) {
      BeforeDual(true, Order(t)[i], Order(t)[j]);
    }
  }

  lemma {:induction false} OrderAllIsSorted<S>(ts: seq<Tree<S>>, i: nat)
    ensures Sorted(false, OrderAll(ts, i))
    ensures forall k | 0 <= k < |OrderAll(ts, i)| :: OrderAll(ts, i)[k] != [] && OrderAll(ts, i)[k][0] >= i
    decreases ts, 0
  {
    if ts != [] {
      OrderIsSorted(ts[0]);
      OrderAllIsSorted(ts[1..], i + 1);
      UnderIsSorted(i, Order(ts[0]));
      SortedConcat(i, Under(i, Order(ts[0])), OrderAll(ts[1..], i + 1));
    }
  }

  // ---------------------------------------------------------------- every node, once

  lemma {:induction false} OrderMatchesFlatten<S>(t: Tree<S>)
    ensures |Order(t)| == |Flatten(t)|
    ensures forall k | 0 <= k < |Order(t)| :: Valid(t, Order(t)[k]) && Flatten(t)[k] == StateAt(t, Order(t)[k])
    decreases t, 1
  {
    OrderAllMatches(t, t.subs, 0);
    var paths, states := OrderAll(t.subs, 0), FlattenAll(t.subs);
    assert Listed(t, [[]] + paths, [t.state] + states) by {
      forall k | 0 <= k < 1 + |paths|
        ensures Valid(t, ([[]] + paths)[k]) && ([t.state] + states)[k] == StateAt(t, ([[]] + paths)[k])
      {
        if k > 0 { assert ([[]] + paths)[k] == paths[k - 1] && ([t.state] + states)[k] == states[k - 1]; }
      }
    }
    ReverseListed(t, [[]] + paths, [t.state] + states);
  }

  /** The states are those at the paths. */
  predicate Listed<S(==)>(t: Tree<S>, paths: seq<Path>, states: seq<S>) {
    && |paths| == |states|
    && forall k | 0 <= k < |paths| :: Valid(t, paths[k]) && states[k] == StateAt(t, paths[k])
  }

  lemma {:induction false} ReverseListed<S>(t: Tree<S>, paths: seq<Path>, states: seq<S>)
    requires Listed(t, paths, states)
    ensures Listed(t, Reverse(paths), Reverse(states))
  {}

  lemma {:induction false} OrderAllMatches<S>(t: Tree<S>, ts: seq<Tree<S>>, i: nat)
    requires i + |ts| == |t.subs| && ts == t.subs[i..]
    ensures |OrderAll(ts, i)| == |FlattenAll(ts)|
    ensures forall k | 0 <= k < |OrderAll(ts, i)| ::
              Valid(t, OrderAll(ts, i)[k]) && FlattenAll(ts)[k] == StateAt(t, OrderAll(ts, i)[k])
    decreases ts, 0
  {
    if ts != [] {
      OrderMatchesFlatten(ts[0]);
      OrderAllMatches(t, ts[1..], i + 1);
      var a := Under(i, Order(ts[0]));
      forall k | 0 <= k < |a| ensures Valid(t, a[k]) && StateAt(t, a[k]) == Flatten(ts[0])[k] {
        assert a[k][1..] == Order(ts[0])[k];
      }
    }
  }

  lemma {:induction false} ListedBack<S>(t: Tree<S>, p: Path, m: nat) returns (k: nat)
    requires if m == 0 then p == [] else m - 1 < |OrderAll(t.subs, 0)| && OrderAll(t.subs, 0)[m - 1] == p
    ensures k < |Order(t)| && Order(t)[k] == p
  {
    var l := [[]] + OrderAll(t.subs, 0);
    assert l[m] == p;
    k := |l| - 1 - m;
  }

  lemma {:induction false} ListedChild<S>(t: Tree<S>, p: Path, n: nat) returns (k: nat)
    requires p != [] && p[0] < |t.subs| && n < |Order(t.subs[p[0]])| && Order(t.subs[p[0]])[n] == p[1..]
    ensures k < |Order(t)| && Order(t)[k] == p
  {
    var m := ListedUnder(t.subs, 0, p[0], n);
    assert [p[0]] + p[1..] == p;
    k := ListedBack(t, p, m + 1);
  }

  lemma {:induction false} EveryNodeListed<S>(t: Tree<S>, p: Path) returns (k: nat)
    requires Valid(t, p)
    ensures k < |Order(t)| && Order(t)[k] == p
    decreases |p|
  {
    if p == [] {
      k := ListedBack(t, p, 0);
    } else {
      var n := EveryNodeListed(t.subs[p[0]], p[1..]);
      k := ListedChild(t, p, n);
    }
  }

  lemma {:induction false} ListedUnder<S>(ts: seq<Tree<S>>, i: nat, j: nat, n: nat) returns (k: nat)
    requires j < |ts| && n < |Order(ts[j])|
    ensures k < |OrderAll(ts, i)| && OrderAll(ts, i)[k] == [i + j] + Order(ts[j])[n]
    decreases j
  {
    if j == 0 {
      k := n;
    } else {
      k := ListedUnder(ts[1..], i + 1, j - 1, n);
      k := k + |Order(ts[0])|;
    }
  }

  /** The applied list is the tree's nodes, each exactly once, in exactly the order `Before` describes. */
  lemma {:induction false} FlattenIsExactly<S>(t: Tree<S>)
    ensures |Order(t)| == |Flatten(t)|
    ensures forall k | 0 <= k < |Order(t)| :: Valid(t, Order(t)[k]) && Flatten(t)[k] == StateAt(t, Order(t)[k])
    ensures forall p :: Valid(t, p) <==> p in Order(t)
    ensures forall i, j | 0 <= i < |Order(t)| && 0 <= j < |Order(t)| :: i < j <==>
          Before(true, Order(t)[i], Order(t)[j])
  {
    OrderMatchesFlatten(t);
    OrderIsSorted(t);
    forall p | Valid(t, p) ensures p in Order(t) {
      var k := EveryNodeListed(t, p);
    }
    forall i, j | 0 <= i < |Order(t)| && 0 <= j < |Order(t)| && Before(true, Order(t)[i], Order(t)[j])
      ensures i < j
    {
      NotBothWays(true, Order(t)[i], Order(t)[j]);
      NeverBeforeItself(true, Order(t)[i]);
    }
  }

  lemma {:induction false} NotBothWays(even: bool, p: Path, q: Path)
    requires Before(even, p, q)
    ensures !Before(even, q, p)
    decreases |p|
  {
    if p != [] && q != [] && p[0] == q[0] {
      NotBothWays(!even, p[1..], q[1..]);
    }
  }

  // ---------------------------------------------------------------- consequences

  /** The statefile itself is applied last. */
  lemma {:induction false} RootIsLast<S>(t: Tree<S>)
    ensures |Flatten(t)| > 0 && Flatten(t)[|Flatten(t)| - 1] == t.state
  {}

  lemma {:induction false} DescendantOrder(even: bool, p: Path, r: Path)
    requires r != []
    ensures Before(even, p + r, p) <==> (even <==> |p| % 2 == 0)
    ensures Before(even, p, p + r) <==> !(even <==> |p| % 2 == 0)
    decreases |p|
  {
    if p == [] {
      assert p + r == r;
    } else {
      assert (p + r)[1..] == p[1..] + r;
      DescendantOrder(!even, p[1..], r);
    }
  }

  lemma {:induction false} NothingBetween(even: bool, p: Path, x: Path, y: Path, z: Path)
    requires Before(even, p + x, y) && Before(even, y, p + z)
    ensures p <= y
    decreases |p|
  {
    if p != [] {
      assert (p + x)[1..] == p[1..] + x && (p + z)[1..] == p[1..] + z;
      assert y != [] && y[0] == p[0];
      NothingBetween(!even, p[1..], x, y[1..], z);
    }
  }

  lemma {:induction false} StretchIsContiguous(o: seq<Path>, p: Path, i: nat, j: nat, k: nat)
    requires Sorted(true, o) && i < j < k < |o| && p <= o[i] && p <= o[k]
    ensures p <= o[j]
  {
    var x, z := o[i][|p|..], o[k][|p|..];
    assert o[i] == p + x && o[k] == p + z;
    NothingBetween(true, p, x, o[j], z);
  }

  /** A sub-state and everything below it form one uninterrupted stretch of the list. */
  lemma {:induction false} SubtreesAreContiguous<S>(t: Tree<S>, p: Path, i: nat, j: nat, k: nat)
    requires i < j < k < |Order(t)| && p <= Order(t)[i] && p <= Order(t)[k]
    ensures p <= Order(t)[j]
  {
    OrderIsSorted(t);
    StretchIsContiguous(Order(t), p, i, j, k);
  }

  /** What the documentation promises: every sub-state is applied before the state that includes it. */
  ghost predicate SubStatesFirst<S>(t: Tree<S>) {
    forall i, j | 0 <= i < |Order(t)| && 0 <= j < |Order(t)| && Order(t)[i] < Order(t)[j] :: j < i
  }

  /** Nodes of even depth follow everything below them, nodes of odd depth precede it. */
  lemma {:induction false} OrderByDepth<S>(t: Tree<S>, i: nat, j: nat)
    requires i < |Order(t)| && j < |Order(t)| && Order(t)[i] < Order(t)[j]
    ensures j < i <==> |Order(t)[i]| % 2 == 0
  {
    FlattenIsExactly(t);
    var p, q := Order(t)[i], Order(t)[j];
    assert q == p + q[|p|..];
    DescendantOrder(true, p, q[|p|..]);
  }

  lemma {:induction false} PrefixValid<S>(t: Tree<S>, p: Path, n: nat)
    requires Valid(t, p) && n <= |p|
    ensures Valid(t, p[..n])
    decreases |p|
  {
    if n > 0 {
      PrefixValid(t.subs[p[0]], p[1..], n - 1);
      assert p[..n][1..] == p[1..][..n - 1];
    }
  }

  /** The documented order holds exactly when no sub-state has sub-states of its own. */
  lemma {:induction false} SubStatesFirstIff<S>(t: Tree<S>)
    ensures SubStatesFirst(t) <==> forall p | Valid(t, p) :: |p| <= 1
  {
    FlattenIsExactly(t);
    if p :| Valid(t, p) && |p| > 1 {
      PrefixValid(t, p, 1);
      PrefixValid(t, p, 2);
      var i := EveryNodeListed(t, p[..1]);
      var j := EveryNodeListed(t, p[..2]);
      assert Order(t)[i] < Order(t)[j];
      OrderByDepth(t, i, j);
    } else {
      forall i, j | 0 <= i < |Order(t)| && 0 <= j < |Order(t)| && Order(t)[i] < Order(t)[j] ensures j < i {
        OrderByDepth(t, i, j);
      }
    }
  }

  lemma {:induction false} OneSub<S>(s: S, t: Tree<S>)
    ensures Flatten(Node(s, [t])) == Reverse([s] + Flatten(t))
  {
    assert [t][1..] == [];
    assert FlattenAll([t]) == Flatten(t) + [];
  }

  /** A statefile with one sub-state, which has one of its own. */
  function Chain<S>(root: S, middle: S, leaf: S): Tree<S> { Node(root, [Node(middle, [Node(leaf, [])])]) }

  lemma {:induction false} LeafAlone<S>(leaf: S)
    ensures Flatten(Node(leaf, [])) == [leaf]
  {
    assert FlattenAll<S>([]) == [] && [leaf] + [] == [leaf];
  }

  lemma {:induction false} ReverseFew<S>(a: S, b: S, c: S)
    ensures Reverse([a] + [b]) == [b, a] && Reverse([a] + [b, c]) == [c, b, a]
  {}

  lemma {:induction false} ChainOrder<S>(root: S, middle: S, leaf: S)
    ensures Flatten(Chain(root, middle, leaf)) == [middle, leaf, root]
  {
    var bottom := Node(leaf, []);
    LeafAlone(leaf);
    OneSub(middle, bottom);
    ReverseFew(middle, leaf, leaf);
    OneSub(root, Node(middle, [bottom]));
    ReverseFew(root, leaf, middle);
  }

  /** Three levels: the middle sub-state is applied before the sub-state it includes. */
  lemma {:induction false} MiddleComesFirst<S>(root: S, middle: S, leaf: S)
    ensures Flatten(Chain(root, middle, leaf)) == [middle, leaf, root]
    ensures !SubStatesFirst(Chain(root, middle, leaf))
  {
    ChainOrder(root, middle, leaf);
    var p: Path := [0, 0];
    assert p[1..] == [0] && [0][1..] == [];
    assert Valid(Chain(root, middle, leaf), p);
    DeepIsNotFirst(Chain(root, middle, leaf), p);
  }

  lemma {:induction false} DeepIsNotFirst<S>(t: Tree<S>, p: Path)
    requires Valid(t, p) && |p| > 1
    ensures !SubStatesFirst(t)
  {
    SubStatesFirstIff(t);
  }
}
