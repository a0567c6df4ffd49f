/** The bounded check of a measurement value before it is serialised. */
module CanonicalValue {
  import opened Wrappers

  const MAX_NODES: nat := 100_000
  const MAX_DEPTH: nat := 32

  datatype Kind = Null | Text | Integer | Float | Boolean | Foreign

  /** A value: a leaf of some type, a list, or a dictionary, whose keys are values too. */
  datatype Item = Leaf(kind: Kind) | List(items: seq<Item>) | Dict(pairs: seq<Pair>)

  datatype Pair = Pair(key: Item, value: Item)

  predicate IsText(v: Item) { v == Leaf(Text) }

  // ---------- what is to be checked ----------

  /** Every node, keys included. */
  function Nodes(v: Item): (n: nat)
    ensures n >= 1
    decreases v
  {
    match v
    case Leaf(_) => 1
    case List(items) => 1 + NodesOfAll(items)
    case Dict(pairs) => 1 + NodesOfPairs(pairs)
  }

  function NodesOfAll(items: seq<Item>): (n: nat)
    ensures n >= |items|
    decreases items
  {
    if items == [] then 0 else Nodes(items[0]) + NodesOfAll(items[1..])
  }

  function NodesOfPairs(pairs: seq<Pair>): (n: nat)
    ensures n >= 2 * |pairs|
    decreases pairs
  {
    if pairs == [] then 0 else NodesOfPair(pairs[0]) + NodesOfPairs(pairs[1..])
  }

  function NodesOfPair(pair: Pair): (n: nat)
    ensures n >= 2
    decreases pair
  {
    Nodes(pair.key) + Nodes(pair.value)
  }

  function Max(a: nat, b: nat): nat { if a >= b then a else b }

  /** The depth of the deepest node below a value. */
  function Depth(v: Item): nat
    decreases v
  {
    match v
    case Leaf(_) => 0
    case List(items) => if items == [] then 0 else 1 + DepthOfAll(items)
    case Dict(pairs) => if pairs == [] then 0 else 1 + DepthOfPairs(pairs)
  }

  function DepthOfAll(items: seq<Item>): nat
    decreases items
  {
    if items == [] then 0 else Max(Depth(items[0]), DepthOfAll(items[1..]))
  }

  function DepthOfPairs(pairs: seq<Pair>): nat
    decreases pairs
  {
    if pairs == [] then 0 else Max(DepthOfPair(pairs[0]), DepthOfPairs(pairs[1..]))
  }

  function DepthOfPair(pair: Pair): nat
    decreases pair
  {
    Max(Depth(pair.key), Depth(pair.value))
  }

  /** Every key is a text and every leaf has a permitted type. */
  predicate WellTyped(v: Item)
    decreases v
  {
    match v
    case Leaf(kind) => kind != Foreign
    case List(items) => WellTypedAll(items)
    case Dict(pairs) => WellTypedPairs(pairs)
  }

  predicate WellTypedAll(items: seq<Item>)
    decreases items
  {
    items == [] || (WellTyped(items[0]) && WellTypedAll(items[1..]))
  }

  predicate WellTypedPairs(pairs: seq<Pair>)
    decreases pairs
  {
    pairs == [] || (WellTypedPair(pairs[0]) && WellTypedPairs(pairs[1..]))
  }

  predicate WellTypedPair(pair: Pair)
    decreases pair
  {
    IsText(pair.key) && WellTyped(pair.key) && WellTyped(pair.value)
  }

  // ---------- the worklist ----------

  type Work = seq<(Item, nat)>

  function Children(v: Item): seq<Item> {
    match v
    case Leaf(_) => []
    case List(items) => items
    case Dict(pairs) => Interleaved(pairs)
  }

  function Interleaved(pairs: seq<Pair>): (items: seq<Item>)
    ensures |items| == 2 * |pairs|
  {
    if pairs == [] then [] else [pairs[0].key, pairs[0].value] + Interleaved(pairs[1..])
  }

  function At(items: seq<Item>, depth: nat): (work: Work)
    ensures |work| == |items|
  {
    seq(|items|, i requires 0 <= i < |items| => (items[i], depth))
  }

  /** What the loop requires of a popped value itself. */
  predicate Permitted(v: Item) {
    match v
    case Leaf(kind) => kind != Foreign
    case List(_) => true
    case Dict(pairs) => forall i :: 0 <= i < |pairs| ==> IsText(pairs[i].key)
  }

  function WorkNodes(work: Work): (n: nat)
    ensures n >= |work|
  {
    if work == [] then 0 else WorkNodes(work[..|work| - 1]) + Nodes(work[|work| - 1].0)
  }

  predicate WorkFits(work: Work) {
    forall i :: 0 <= i < |work| ==> WellTyped(work[i].0) && work[i].1 + Depth(work[i].0) <= MAX_DEPTH
  }

  lemma {:induction false} InterleavedFacts(pairs: seq<Pair>)
    ensures NodesOfAll(Interleaved(pairs)) == NodesOfPairs(pairs)
    ensures DepthOfAll(Interleaved(pairs)) == DepthOfPairs(pairs)
    ensures WellTypedPairs(pairs) <==>
      WellTypedAll(Interleaved(pairs)) && forall i :: 0 <= i < |pairs| ==> IsText(pairs[i].key)
  {
    if pairs != [] {
      InterleavedFacts(pairs[1..]);
      var all, rest := Interleaved(pairs), Interleaved(pairs[1..]);
      assert all[0] == pairs[0].key && all[1] == pairs[0].value && all[1..] == [pairs[0].value] + rest &&
             all[1..][1..] == rest;
      assert forall i :: 0 < i < |pairs| ==> pairs[i] == pairs[1..][i - 1];
    }
  }

  /** Nodes, depth and typing of a value, told from its children. */
  lemma FromChildren(v: Item)
    ensures Nodes(v) == 1 + NodesOfAll(Children(v))
    ensures Depth(v) == if Children(v) == [] then 0 else 1 + DepthOfAll(Children(v))
    ensures WellTyped(v) <==> Permitted(v) && WellTypedAll(Children(v))
  {
    if v.Dict? { InterleavedFacts(v.pairs); }
  }

  lemma {:induction false} AllTyped(items: seq<Item>)
    ensures WellTypedAll(items) <==> forall i :: 0 <= i < |items| ==> WellTyped(items[i])
  {
    if items != [] { AllTyped(items[1..]); }
  }

  lemma {:induction false} AllShallow(items: seq<Item>, n: nat)
    ensures DepthOfAll(items) <= n <==> forall i :: 0 <= i < |items| ==> Depth(items[i]) <= n
  {
    if items != [] { AllShallow(items[1..], n); }
  }

  // ---------- node by node ----------

  /** What a path leads to that names a child at every step; a dictionary's keys are children like its values. */
  ghost function NodeAt(v: Item, path: seq<nat>): Option<Item>
    decreases |path|
  {
    if path == [] then Some(v)
    else if path[0] < |Children(v)| then NodeAt(Children(v)[path[0]], path[1..])
    else None
  }

  /** A leaf is null, a text, a number or a truth value, and every key of a dictionary is a text. */
  ghost predicate AsItShould(v: Item) {
    && (v.Leaf? ==> v.kind == Null || v.kind == Text || v.kind == Integer || v.kind == Float || v.kind == Boolean)
    && (v.Dict? ==> forall i :: 0 <= i < |v.pairs| ==> v.pairs[i].key == Leaf(Text))
  }

  lemma {:induction false} InterleavedAt(pairs: seq<Pair>, i: nat)
    requires i < |pairs|
    ensures Interleaved(pairs)[2 * i] == pairs[i].key && Interleaved(pairs)[2 * i + 1] == pairs[i].value
  {
    if i > 0 { InterleavedAt(pairs[1..], i - 1); }
  }

  lemma {:induction false} ChildSmaller(v: Item, i: nat)
    requires i < |Children(v)|
    ensures Nodes(Children(v)[i]) < Nodes(v)
  {
    FromChildren(v);
    NodesOfOne(Children(v), i);
  }

  lemma {:induction false} NodesOfOne(items: seq<Item>, i: nat)
    requires i < |items|
    ensures Nodes(items[i]) <= NodesOfAll(items)
  {
    if i > 0 { NodesOfOne(items[1..], i - 1); }
  }

  lemma PathBelow(v: Item, i: nat, path: seq<nat>)
    requires i < |Children(v)|
    ensures NodeAt(v, [i] + path) == NodeAt(Children(v)[i], path)
  {
    assert ([i] + path)[1..] == path;
  }

  /** Every path in a value has at most `n` steps. */
  ghost predicate PathsWithin(v: Item, n: nat) {
    forall path :: NodeAt(v, path).Some? ==> |path| <= n
  }

  ghost predicate NodesAsTheyShould(v: Item) {
    forall path :: NodeAt(v, path).Some? ==> AsItShould(NodeAt(v, path).value)
  }

  lemma PathsFromChildren(v: Item, n: nat)
    ensures PathsWithin(v, n) <==>
      Children(v) == [] || (n > 0 && forall i :: 0 <= i < |Children(v)| ==> PathsWithin(Children(v)[i], n - 1))
  {
    hide Children;
    var c := Children(v);
    if PathsWithin(v, n) && c != [] {
      PathBelow(v, 0, []);
      assert NodeAt(v, [0] + []).Some? && |[0] + []| == 1;
      forall i, path | 0 <= i < |c| && NodeAt(c[i], path).Some? ensures |path| <= n - 1 {
        PathBelow(v, i, path);
        assert NodeAt(v, [i] + path).Some? && |[i] + path| == |path| + 1;
      }
    }
    if n > 0 && forall i :: 0 <= i < |c| ==> PathsWithin(c[i], n - 1) {
      forall path | NodeAt(v, path).Some? ensures |path| <= n {
        if path != [] { assert NodeAt(c[path[0]], path[1..]).Some?; }
      }
    }
  }

  lemma NodesFromChildren(v: Item)
    ensures NodesAsTheyShould(v) <==>
      AsItShould(v) && forall i :: 0 <= i < |Children(v)| ==> NodesAsTheyShould(Children(v)[i])
  {
    hide AsItShould, Children;
    var c := Children(v);
    if NodesAsTheyShould(v) {
      assert NodeAt(v, []) == Some(v);
      forall i, path | 0 <= i < |c| && NodeAt(c[i], path).Some? ensures AsItShould(NodeAt(c[i], path).value) {
        PathBelow(v, i, path);
      }
    }
    if AsItShould(v) && forall i :: 0 <= i < |c| ==> NodesAsTheyShould(c[i]) {
      forall path | NodeAt(v, path).Some? ensures AsItShould(NodeAt(v, path).value) {
        if path != [] {
          assert NodesAsTheyShould(c[path[0]]) && NodeAt(c[path[0]], path[1..]) == NodeAt(v, path);
        }
      }
    }
  }

  /** A value is no deeper than `n` exactly when every path in it has at most `n` steps. */
  lemma {:induction false} DepthByPaths(v: Item, n: nat)
    ensures Depth(v) <= n <==> PathsWithin(v, n)
    decreases Nodes(v)
  {
    var c := Children(v);
    FromChildren(v);
    PathsFromChildren(v, n);
    if n > 0 { AllShallow(c, n - 1); }
    hide Depth, DepthOfAll, PathsWithin;
    if n > 0 {
      forall i | 0 <= i < |c| ensures Depth(c[i]) <= n - 1 <==> PathsWithin(c[i], n - 1) {
        ChildSmaller(v, i);
        DepthByPaths(c[i], n - 1);
      }
    }
  }

  lemma PermittedIs(v: Item)
    ensures Permitted(v) <==> AsItShould(v)
  {
  }

  /** A value is well typed exactly when every node in it is as it should be. */
  lemma {:induction false} TypedByPaths(v: Item)
    ensures WellTyped(v) <==> NodesAsTheyShould(v)
    decreases Nodes(v)
  {
    var c := Children(v);
    FromChildren(v);
    NodesFromChildren(v);
    AllTyped(c);
    PermittedIs(v);
    hide WellTyped, WellTypedAll, Permitted, AsItShould, NodesAsTheyShould, Children;
    forall i | 0 <= i < |c| ensures WellTyped(c[i]) <==> NodesAsTheyShould(c[i]) {
      ChildSmaller(v, i);
      TypedByPaths(c[i]);
    }
  }

  /** A popped value fits exactly when it is permitted, not too deep, and its children fit one level down. */
  lemma PoppedFits(v: Item, depth: nat)
    ensures WellTyped(v) && depth + Depth(v) <= MAX_DEPTH <==>
            Permitted(v) && depth <= MAX_DEPTH && WorkFits(At(Children(v), depth + 1))
  {
    FromChildren(v);
    var c := Children(v);
    AllTyped(c);
    if depth < MAX_DEPTH { AllShallow(c, MAX_DEPTH - depth - 1); }
    hide WellTyped, Depth;
    var work := At(c, depth + 1);
    assert forall i :: 0 <= i < |c| ==> work[i] == (c[i], depth + 1);
    if c != [] && WorkFits(work) { assert work[0].1 <= MAX_DEPTH; }
  }

  lemma {:induction false} WorkNodesAppend(work: Work, items: seq<Item>, depth: nat)
    ensures WorkNodes(work + At(items, depth)) == WorkNodes(work) + NodesOfAll(items)
    decreases |items|
  {
    if items == [] {
      assert work + At(items, depth) == work;
    } else {
      var next := work + [(items[0], depth)];
      assert next[..|next| - 1] == work;
      assert work + At(items, depth) == next + At(items[1..], depth);
      WorkNodesAppend(next, items[1..], depth);
    }
  }

  lemma TheLimits()
    ensures MAX_NODES == 100_000 && MAX_DEPTH == 32
  {
  }

  lemma OneNodeEach(work: Work)
    ensures WorkNodes(work) >= |work|
  {
  }

  lemma NothingPending(value: Item)
    ensures WorkFits([(value, 0)]) <==> WellTyped(value) && Depth(value) <= MAX_DEPTH
    ensures WorkFits([])
    ensures WorkNodes([(value, 0)]) == Nodes(value) && WorkNodes([]) == 0
  {
    hide WellTyped, Depth, Nodes;
    assert [(value, 0)][0] == (value, 0) && [(value, 0)][..0] == [];
  }

  /** The traversal: accepts exactly the values of permitted types with at most 100000 nodes and depth at most 32. */
  method Check(value: Item) returns (ok: bool)
    ensures ok <==> Nodes(value) <= 100_000 && Depth(value) <= 32 && WellTyped(value)
    ensures ok <==> Nodes(value) <= 100_000 && PathsWithin(value, 32) && NodesAsTheyShould(value)
  {
    hide *;
    DepthByPaths(value, 32);
    TypedByPaths(value);
    NothingPending(value);
    TheLimits();
    var pending: Work, count := [(value, 0)], 0;
    while pending != []
      invariant count + WorkNodes(pending) == Nodes(value)
      invariant WorkFits(pending) <==> WellTyped(value) && Depth(value) <= MAX_DEPTH
      invariant count <= MAX_NODES
      decreases WorkNodes(pending)
    {
      var (item, depth) := pending[|pending| - 1];
      ghost var was := pending;
      pending := pending[..|pending| - 1];
      count := count + 1;
      Popped(was);
      if count > MAX_NODES || depth > MAX_DEPTH { return false; }
      if !Permitted(item) { return false; }
      pending := pending + At(Children(item), depth + 1);
      OneNodeEach(pending);
      if count + |pending| > MAX_NODES { return false; }
    }
    ok := true;
  }

  /** What popping an item and pushing its children does to the worklist. */
  lemma Popped(work: Work)
    requires work != []
    ensures var (v, depth) := work[|work| - 1];
      var next := work[..|work| - 1] + At(Children(v), depth + 1);
      && WorkNodes(next) + 1 == WorkNodes(work)
      && (WorkFits(work) <==> Permitted(v) && depth <= MAX_DEPTH && WorkFits(next))
  {
    var (v, depth) := work[|work| - 1];
    hide *;
    var front := work[..|work| - 1];
    PoppedFits(v, depth);
    FromChildren(v);
    WorkNodesAppend(front, Children(v), depth + 1);
    PopSplits(work);
    FitsAppend(front, At(Children(v), depth + 1));
  }

  ghost predicate OneFits(v: Item, depth: nat) {
    WellTyped(v) && depth + Depth(v) <= MAX_DEPTH
  }

  lemma PopSplits(work: Work)
    requires work != []
    ensures var (v, depth) := work[|work| - 1];
            WorkFits(work) <==> WorkFits(work[..|work| - 1]) && WellTyped(v) && depth + Depth(v) <= MAX_DEPTH
    ensures WorkNodes(work) == WorkNodes(work[..|work| - 1]) + Nodes(work[|work| - 1].0)
  {
    var n := |work| - 1;
    forall w: Work ensures WorkFits(w) <==> forall i :: 0 <= i < |w| ==> OneFits(w[i].0, w[i].1) {}
    hide WellTyped, Depth, Nodes, OneFits, WorkFits;
    assert forall i :: 0 <= i < n ==> work[..n][i] == work[i];
    OneFitsMeans(work[n].0, work[n].1);
  }

  lemma OneFitsMeans(v: Item, depth: nat)
    ensures OneFits(v, depth) <==> WellTyped(v) && depth + Depth(v) <= MAX_DEPTH
  {
    hide WellTyped, Depth;
  }

  lemma FitsAppend(work: Work, more: Work)
    ensures WorkFits(work + more) <==> WorkFits(work) && WorkFits(more)
  {
    hide WellTyped, Depth;
    if WorkFits(work + more) {
      forall i | 0 <= i < |more|
        ensures WellTyped(more[i].0) && more[i].1 + Depth(more[i].0) <= MAX_DEPTH
      {
        assert (work + more)[|work| + i] == more[i];
      }
      forall i | 0 <= i < |work|
        ensures WellTyped(work[i].0) && work[i].1 + Depth(work[i].0) <= MAX_DEPTH
      {
        assert (work + more)[i] == work[i];
      }
    }
  }
}
