/** Visibility of materials through their parents, resolved with a memo, a path guard and a depth limit. */
module VisibilityResolve {
  import opened Wrappers

  const LIMIT: nat := 32

  /** A material as far as resolving goes: its parent, and whether its governance is complete. */
  datatype Material = Material(parent: Option<string>, complete: bool)

  type Graph = map<string, Material>

  predicate Real(graph: Graph, id: string) {
    id in graph && graph[id].complete
  }

  /** The policy: the visibility of a material, given its parent's if that was resolved. */
  type Policy<!V> = (string, Option<V>) -> V

  // ---------- the plain recursion ----------

  /** Resolving without the memo. */
  function Plain<V>(graph: Graph, policy: Policy<V>, id: string, path: seq<string>): Option<V>
    decreases LIMIT - |path|
  {
    if !Real(graph, id) || id in path || |path| >= LIMIT then None
    else Some(policy(id, if graph[id].parent.Some? then Plain(graph, policy, graph[id].parent.value, path + [id])
      else None))
  }

  // ---------- chains that end ----------

  /** At most `n` complete materials on the way up from `id`, and then none. */
  predicate Ends(graph: Graph, id: string, n: nat)
    decreases n
  {
    Real(graph, id) ==> n > 0 && (graph[id].parent.Some? ==> Ends(graph, graph[id].parent.value, n - 1))
  }

  function Height(graph: Graph, id: string, n: nat): (h: nat)
    requires Ends(graph, id, n)
    ensures h <= n && (h == 0 <==> !Real(graph, id))
    decreases n
  {
    if !Real(graph, id) then 0
    else 1 + if graph[id].parent.Some? then Height(graph, graph[id].parent.value, n - 1) else 0
  }

  /** The visibility by the chain alone: no memo, no path, no limit. */
  function ByChain<V>(graph: Graph, policy: Policy<V>, id: string, n: nat): Option<V>
    requires Ends(graph, id, n)
    decreases n
  {
    if !Real(graph, id) then None
    else Some(policy(id, if graph[id].parent.Some? then ByChain(graph, policy, graph[id].parent.value, n - 1)
      else None))
  }

  lemma {:induction false} AnyBound<V>(graph: Graph, policy: Policy<V>, id: string, m: nat, n: nat)
    requires Ends(graph, id, m) && Ends(graph, id, n)
    ensures Height(graph, id, m) == Height(graph, id, n)
    ensures ByChain(graph, policy, id, m) == ByChain(graph, policy, id, n)
    decreases n
  {
    if Real(graph, id) && graph[id].parent.Some? { AnyBound(graph, policy, graph[id].parent.value, m - 1, n - 1); }
  }

  ghost predicate AllEnd(graph: Graph) {
    forall id :: Ends(graph, id, LIMIT)
  }

  /** Where every chain ends within the limit: the height of a material and its visibility. */
  function HeightOf(graph: Graph, id: string): nat
    requires Ends(graph, id, LIMIT)
  {
    Height(graph, id, LIMIT)
  }

  function Visibility<V>(graph: Graph, policy: Policy<V>, id: string): Option<V>
    requires Ends(graph, id, LIMIT)
  {
    ByChain(graph, policy, id, LIMIT)
  }

  lemma OneUp<V>(graph: Graph, policy: Policy<V>, id: string)
    requires AllEnd(graph) && Real(graph, id)
    ensures HeightOf(graph, id) == 1 + if graph[id].parent.Some? then HeightOf(graph, graph[id].parent.value) else 0
    ensures Visibility(graph, policy, id) ==
            Some(policy(id, if graph[id].parent.Some? then Visibility(graph, policy, graph[id].parent.value) else None))
  {
    assert Ends(graph, id, LIMIT);
    if graph[id].parent.Some? {
      assert Ends(graph, graph[id].parent.value, LIMIT);
      AnyBound(graph, policy, graph[id].parent.value, LIMIT - 1, LIMIT);
    }
  }

  /** A path that leads to a material: everything on it is higher, and it leaves room for what is above. */
  ghost predicate LeadsTo(graph: Graph, path: seq<string>, id: string)
    requires AllEnd(graph)
  {
    && |path| + HeightOf(graph, id) <= LIMIT
    && (Real(graph, id) ==> forall i :: 0 <= i < |path| ==> HeightOf(graph, path[i]) > HeightOf(graph, id))
  }

  lemma LeadsUp<V>(graph: Graph, policy: Policy<V>, path: seq<string>, id: string)
    requires AllEnd(graph) && Real(graph, id) && LeadsTo(graph, path, id)
    ensures id !in path && |path| < LIMIT
    ensures graph[id].parent.Some? ==> LeadsTo(graph, path + [id], graph[id].parent.value)
  {
    hide Ends;
    OneUp(graph, policy, id);
  }

  /** Where every chain ends within the limit: exactly the complete materials of the graph have a visibility, and it is
      the policy's answer to the material and its parent's visibility. */
  lemma VisibilityByFields<V>(graph: Graph, policy: Policy<V>, id: string)
    requires AllEnd(graph)
    ensures Ends(graph, id, LIMIT)
    ensures Visibility(graph, policy, id) ==
      if id !in graph || !graph[id].complete then None
      else if graph[id].parent.None? then Some(policy(id, None))
      else
        assert Ends(graph, graph[id].parent.value, LIMIT);
        Some(policy(id, Visibility(graph, policy, graph[id].parent.value)))
  {
    assert Ends(graph, id, LIMIT);
    if Real(graph, id) { OneUp(graph, policy, id); }
  }

  /** A way up through complete materials of the graph, each the parent of the one before it. */
  ghost predicate WayUp(graph: Graph, ids: seq<string>) {
    && (forall i :: 0 <= i < |ids| ==> ids[i] in graph && graph[ids[i]].complete)
    && (forall i :: 0 < i < |ids| ==> graph[ids[i - 1]].parent == Some(ids[i]))
  }

  lemma SecondIsParent(graph: Graph, ids: seq<string>)
    requires WayUp(graph, ids) && |ids| > 1
    ensures ids[0] in graph && graph[ids[0]].parent == Some(ids[1])
  {
    assert graph[ids[1 - 1]].parent == Some(ids[1]);
  }

  /** A chain ends within a bound exactly when no way up is longer. */
  lemma {:induction false} EndsExactlyWhen(graph: Graph, id: string, n: nat)
    ensures Ends(graph, id, n) <==>
      forall ids: seq<string> :: WayUp(graph, ids) && ids != [] && ids[0] == id ==> |ids| <= n
    decreases n
  {
    if Real(graph, id) && n == 0 {
      assert WayUp(graph, [id]);
    } else if Real(graph, id) && graph[id].parent.Some? {
      var up := graph[id].parent.value;
      EndsExactlyWhen(graph, up, n - 1);
      if Ends(graph, id, n) {
        forall ids: seq<string> | WayUp(graph, ids) && ids != [] && ids[0] == id ensures |ids| <= n {
          if |ids| > 1 { assert WayUp(graph, ids[1..]) && ids[1..][0] == up; }
        }
      } else {
        var ids: seq<string> :| WayUp(graph, ids) && ids != [] && ids[0] == up && |ids| > n - 1;
        var all := [id] + ids;
        assert WayUp(graph, all) && all[0] == id && |all| > n by {
          forall i | 0 < i < |all| ensures graph[all[i - 1]].parent == Some(all[i]) {
            if i > 1 { assert all[i - 1] == ids[i - 2] && all[i] == ids[i - 1]; }
          }
        }
      }
    } else if Real(graph, id) {
      forall ids: seq<string> | WayUp(graph, ids) && ids != [] && ids[0] == id ensures |ids| <= n {
        if |ids| > 1 { SecondIsParent(graph, ids); }
      }
    }
  }

  // ---------- the memo ----------

  function Answered<V>(memo: map<string, V>, id: string): Option<V> {
    if id in memo then Some(memo[id]) else None
  }

  /** The memo after resolving a material. */
  function Memoised<V>(graph: Graph, policy: Policy<V>, id: string, path: seq<string>,
      memo: map<string, V>): map<string, V>
    decreases LIMIT - |path|
  {
    if id in memo || !Real(graph, id) || id in path || |path| >= LIMIT then memo
    else if graph[id].parent.None? then memo[id := policy(id, None)]
    else
      var up := graph[id].parent.value;
      var after := Memoised(graph, policy, up, path + [id], memo);
      after[id := policy(id, Answered(after, up))]
  }

  function MemoisedAll<V>(graph: Graph, policy: Policy<V>, ids: seq<string>): map<string, V> {
    if ids == [] then map[]
    else Memoised(graph, policy, ids[|ids| - 1], [], MemoisedAll(graph, policy, ids[..|ids| - 1]))
  }

  /** On every graph: what is resolved stays as it is, and only complete materials off the path are added. */
  lemma {:induction false} MemoGrows<V>(graph: Graph, policy: Policy<V>, id: string, path: seq<string>,
      memo: map<string, V>)
    ensures var after := Memoised(graph, policy, id, path, memo);
      && (forall k :: k in memo ==> k in after && after[k] == memo[k])
      && (forall k :: k in after && k !in memo ==> Real(graph, k) && k !in path)
    decreases LIMIT - |path|
  {
    if !(id in memo || !Real(graph, id) || id in path || |path| >= LIMIT) && graph[id].parent.Some? {
      MemoGrows(graph, policy, graph[id].parent.value, path + [id], memo);
    }
  }

  /** Everything in the memo is what the chain alone gives. */
  ghost predicate MemoRight<V(!new)>(graph: Graph, policy: Policy<V>, memo: map<string, V>)
    requires AllEnd(graph)
  {
    forall id :: id in memo ==> Visibility(graph, policy, id) == Some(memo[id])
  }

  lemma {:induction false} MemoStaysRight<V(!new)>(graph: Graph, policy: Policy<V>, id: string, path: seq<string>,
      memo: map<string, V>)
    requires AllEnd(graph) && MemoRight(graph, policy, memo) && LeadsTo(graph, path, id)
    ensures var after := Memoised(graph, policy, id, path, memo);
            MemoRight(graph, policy, after) && Answered(after, id) == Visibility(graph, policy, id)
    decreases LIMIT - |path|
  {
    hide Ends, Height, ByChain, HeightOf, LeadsTo, Visibility;
    if id in memo {
    } else if !Real(graph, id) || id in path || |path| >= LIMIT {
      Unresolved(graph, policy, path, id);
    } else {
      LeadsUp(graph, policy, path, id);
      OneUp(graph, policy, id);
      if graph[id].parent.Some? { MemoStaysRight(graph, policy, graph[id].parent.value, path + [id], memo); }
    }
  }

  /** Where every chain ends within the limit, resolving in any order gives every material asked for the answer of the
      plain recursion. */
  lemma OrderDoesNotMatter<V(!new)>(graph: Graph, policy: Policy<V>, ids: seq<string>, i: nat)
    requires AllEnd(graph) && i < |ids|
    ensures Answered(MemoisedAll(graph, policy, ids), ids[i]) == Plain(graph, policy, ids[i], [])
  {
    hide Ends, Height, ByChain, Visibility, Plain, Memoised;
    FromTheTop(graph, ids[i]);
    PlainIsByChain(graph, policy, ids[i], []);
    StaysAnswered(graph, policy, ids, i);
  }

  lemma {:induction false} AllRight<V(!new)>(graph: Graph, policy: Policy<V>, ids: seq<string>)
    requires AllEnd(graph)
    ensures MemoRight(graph, policy, MemoisedAll(graph, policy, ids))
  {
    hide Ends, Height, ByChain, Visibility, Memoised;
    if ids != [] {
      AllRight(graph, policy, ids[..|ids| - 1]);
      FromTheTop(graph, ids[|ids| - 1]);
      MemoStaysRight(graph, policy, ids[|ids| - 1], [], MemoisedAll(graph, policy, ids[..|ids| - 1]));
    }
  }

  lemma {:induction false} StaysAnswered<V(!new)>(graph: Graph, policy: Policy<V>, ids: seq<string>, i: nat)
    requires AllEnd(graph) && i < |ids|
    ensures Answered(MemoisedAll(graph, policy, ids), ids[i]) == Visibility(graph, policy, ids[i])
  {
    hide Ends, Height, ByChain, Visibility, Memoised;
    var front, last := ids[..|ids| - 1], ids[|ids| - 1];
    AllRight(graph, policy, front);
    FromTheTop(graph, last);
    MemoStaysRight(graph, policy, last, [], MemoisedAll(graph, policy, front));
    MemoGrows(graph, policy, last, [], MemoisedAll(graph, policy, front));
    if i < |front| {
      StaysAnswered(graph, policy, front, i);
      AllRight(graph, policy, ids);
      if ids[i] !in MemoisedAll(graph, policy, front) {
        NotReal(graph, policy, ids[i]);
      }
    }
  }

  lemma NotReal<V>(graph: Graph, policy: Policy<V>, id: string)
    requires Ends(graph, id, LIMIT)
    ensures Visibility(graph, policy, id).None? <==> !Real(graph, id)
  {
  }

  class Resolver<V> {
    const graph: Graph
    const policy: Policy<V>
    var resolved: map<string, V>

    constructor (graph: Graph, policy: Policy<V>)
      ensures this.graph == graph && this.policy == policy && resolved == map[]
    {
      this.graph, this.policy, resolved := graph, policy, map[];
    }

    method Resolve(id: string, path: seq<string>) returns (r: Option<V>)
      modifies this`resolved
      ensures resolved == Memoised(graph, policy, id, path, old(resolved)) && r == Answered(resolved, id)
      decreases LIMIT - |path|
    {
      if id in resolved { return Some(resolved[id]); }
      if !Real(graph, id) || id in path || |path| >= LIMIT { return None; }
      var material := graph[id];
      var parent: Option<V> := None;
      if material.parent.Some? { parent := Resolve(material.parent.value, path + [id]); }
      resolved := resolved[id := policy(id, parent)];
      r := Some(resolved[id]);
    }

    /** Resolving materials one after the other, in the order given. */
    method ResolveAll(ids: seq<string>) returns (answers: seq<Option<V>>)
      requires resolved == map[]
      modifies this`resolved
      ensures resolved == MemoisedAll(graph, policy, ids) && |answers| == |ids|
      ensures forall i :: 0 <= i < |ids| ==> answers[i] == Answered(MemoisedAll(graph, policy, ids[..i + 1]), ids[i])
    {
      hide Memoised, Answered;
      answers := [];
      for i := 0 to |ids|
        invariant resolved == MemoisedAll(graph, policy, ids[..i]) && |answers| == i
        invariant forall j :: 0 <= j < i ==> answers[j] == Answered(MemoisedAll(graph, policy, ids[..j + 1]), ids[j])
      {
        assert ids[..i + 1][..i] == ids[..i];
        var r := Resolve(ids[i], []);
        answers := answers + [r];
      }
      assert ids[..|ids|] == ids;
    }
  }

  lemma Unresolved<V>(graph: Graph, policy: Policy<V>, path: seq<string>, id: string)
    requires AllEnd(graph) && LeadsTo(graph, path, id) && (!Real(graph, id) || id in path || |path| >= LIMIT)
    ensures Visibility(graph, policy, id) == None
  {
    if Real(graph, id) { LeadsUp(graph, policy, path, id); }
  }

  lemma FromTheTop(graph: Graph, id: string)
    requires AllEnd(graph)
    ensures LeadsTo(graph, [], id)
  {
  }

  /** Where all chains end within the limit, the plain recursion is the chain's visibility, on every path to it. */
  lemma {:induction false} PlainIsByChain<V>(graph: Graph, policy: Policy<V>, id: string, path: seq<string>)
    requires AllEnd(graph) && LeadsTo(graph, path, id)
    ensures Plain(graph, policy, id, path) == Visibility(graph, policy, id)
    decreases LIMIT - |path|
  {
    hide Ends, Height, ByChain, HeightOf, LeadsTo, Visibility;
    if Real(graph, id) {
      LeadsUp(graph, policy, path, id);
      OneUp(graph, policy, id);
      if graph[id].parent.Some? { PlainIsByChain(graph, policy, graph[id].parent.value, path + [id]); }
    } else {
      Unresolved(graph, policy, path, id);
    }
  }

  // ---------- chains that do not end ----------

  /** What a policy can tell apart at most: a material with or without its parent's answer. */
  datatype Answer = Answer(id: string, parent: Option<Answer>)

  const CYCLE: Graph := map["a" := Material(Some("b"), true), "b" := Material(Some("a"), true)]

  function Trace(id: string, parent: Option<Answer>): Answer { Answer(id, parent) }

  /** On a cycle the memo keeps what was found on the way: the answers depend on the order. */
  lemma CycleDependsOnOrder()
    ensures Answered(MemoisedAll(CYCLE, Trace, ["a", "b"]), "b") == Some(Answer("b", None))
    ensures Answered(MemoisedAll(CYCLE, Trace, ["b", "a"]), "b") == Some(Answer("b", Some(Answer("a", None))))
  {
    FromOneEnd("a", "b");
    FromOneEnd("b", "a");
    assert ["a", "b"][..1] == ["a"] && ["b", "a"][..1] == ["b"] && ["a"][..0] == [] && ["b"][..0] == [];
  }

  lemma FromOneEnd(x: string, y: string)
    requires (x == "a" && y == "b") || (x == "b" && y == "a")
    ensures Memoised(CYCLE, Trace, x, [], map[]) == map[y := Answer(y, None), x := Answer(x, Some(Answer(y, None)))]
  {
    var none: map<string, Answer> := map[];
    assert [] + [x] == [x] && [x] + [y] == [x, y];
    assert Memoised(CYCLE, Trace, x, [x, y], none) == none;
    assert Memoised(CYCLE, Trace, y, [x], none) == none[y := Answer(y, None)];
  }
}
