/** Exactly when the memoised resolver's answers do not depend on the order of the materials. */
module VisibilityOrder {
  import opened Wrappers
  import opened Sequences
  import opened VisibilityResolve

  /** The graph with materials that name themselves as parent made to name none. */
  function WithoutLoops(graph: Graph): Graph {
    map id | id in graph :: if graph[id].parent == Some(id) then Material(None, graph[id].complete) else graph[id]
  }

  lemma {:induction false} PlainWithoutLoops<V>(graph: Graph, policy: Policy<V>, id: string, path: seq<string>)
    ensures Plain(graph, policy, id, path) == Plain(WithoutLoops(graph), policy, id, path)
    decreases LIMIT - |path|
  {
    hide Plain;
    PlainStep(graph, policy, id, path);
    PlainStep(WithoutLoops(graph), policy, id, path);
    if Stops(graph, id, path) {
    } else if graph[id].parent == Some(id) {
      PlainStep(graph, policy, id, path + [id]);
    } else if graph[id].parent.Some? {
      PlainWithoutLoops(graph, policy, graph[id].parent.value, path + [id]);
    }
  }

  predicate Stops(graph: Graph, id: string, path: seq<string>) {
    !Real(graph, id) || id in path || |path| >= LIMIT
  }

  lemma PlainStep<V>(graph: Graph, policy: Policy<V>, id: string, path: seq<string>)
    ensures Stops(graph, id, path) ==> Plain(graph, policy, id, path) == None
    ensures !Stops(graph, id, path) ==>
      Plain(graph, policy, id, path) ==
      Some(policy(id, if graph[id].parent.Some? then Plain(graph, policy, graph[id].parent.value, path + [id])
        else None))
  {
  }

  lemma MemoStep<V>(graph: Graph, policy: Policy<V>, id: string, path: seq<string>, memo: map<string, V>)
    ensures id in memo || Stops(graph, id, path) ==> Memoised(graph, policy, id, path, memo) == memo
    ensures id !in memo && !Stops(graph, id, path) && graph[id].parent.None? ==>
      Memoised(graph, policy, id, path, memo) == memo[id := policy(id, None)]
    ensures id !in memo && !Stops(graph, id, path) && graph[id].parent.Some? ==>
      var up := graph[id].parent.value;
      var after := Memoised(graph, policy, up, path + [id], memo);
      Memoised(graph, policy, id, path, memo) == after[id := policy(id, Answered(after, up))]
  {
  }

  lemma {:induction false} MemoWithoutLoops<V>(graph: Graph, policy: Policy<V>, id: string, path: seq<string>,
      memo: map<string, V>)
    ensures Memoised(graph, policy, id, path, memo) == Memoised(WithoutLoops(graph), policy, id, path, memo)
    decreases LIMIT - |path|
  {
    hide Memoised;
    MemoStep(graph, policy, id, path, memo);
    MemoStep(WithoutLoops(graph), policy, id, path, memo);
    if id in memo || Stops(graph, id, path) {
    } else if graph[id].parent == Some(id) {
      MemoStep(graph, policy, id, path + [id], memo);
    } else if graph[id].parent.Some? {
      MemoWithoutLoops(graph, policy, graph[id].parent.value, path + [id], memo);
    }
  }

  lemma {:induction false} AllWithoutLoops<V>(graph: Graph, policy: Policy<V>, ids: seq<string>)
    ensures MemoisedAll(graph, policy, ids) == MemoisedAll(WithoutLoops(graph), policy, ids)
  {
    hide Memoised;
    if ids != [] {
      AllWithoutLoops(graph, policy, ids[..|ids| - 1]);
      MemoWithoutLoops(graph, policy, ids[|ids| - 1], [], MemoisedAll(graph, policy, ids[..|ids| - 1]));
    }
  }

  // ---------- the first resolution ----------

  /** From an empty memo the answer is the plain recursion's. */
  lemma {:induction false} FirstIsPlain<V>(graph: Graph, policy: Policy<V>, id: string, path: seq<string>)
    ensures Answered(Memoised(graph, policy, id, path, map[]), id) == Plain(graph, policy, id, path)
    decreases LIMIT - |path|
  {
    hide Memoised, Plain;
    MemoStep(graph, policy, id, path, map[]);
    PlainStep(graph, policy, id, path);
    if !Stops(graph, id, path) && graph[id].parent.Some? {
      FirstIsPlain(graph, policy, graph[id].parent.value, path + [id]);
    }
  }

  /** Resolving `up` first and then `id`. */
  lemma TwoSteps<V>(graph: Graph, policy: Policy<V>, up: string, id: string)
    ensures MemoisedAll(graph, policy, [up, id]) ==
      Memoised(graph, policy, id, [], Memoised(graph, policy, up, [], map[]))
  {
    hide Memoised;
    assert [up, id][..1] == [up] && [up][..0] == [];
    assert MemoisedAll(graph, policy, []) == map[];
    assert MemoisedAll(graph, policy, [up]) == Memoised(graph, policy, up, [], map[]);
  }

  // ---------- long chains ----------

  /** `n` different complete materials on the way up from `id`, none of them on the path. */
  predicate LongChain(graph: Graph, id: string, path: seq<string>, n: nat)
    decreases n
  {
    n == 0 ||
    (Real(graph, id) && id !in path &&
     (n == 1 || (graph[id].parent.Some? && LongChain(graph, graph[id].parent.value, path + [id], n - 1))))
  }

  lemma {:induction false} ShorterChain(graph: Graph, id: string, path: seq<string>, other: seq<string>, n: nat, m: nat)
    requires LongChain(graph, id, path, n) && m <= n && forall p :: p in other ==> p in path
    ensures LongChain(graph, id, other, m)
    decreases m
  {
    if m > 1 { ShorterChain(graph, graph[id].parent.value, path + [id], other + [id], n - 1, m - 1); }
  }

  function Levels(a: Option<Answer>): nat {
    if a.None? then 0 else 1 + Levels(a.value.parent)
  }

  lemma {:induction false} LevelsOfLong(graph: Graph, id: string, path: seq<string>, n: nat)
    requires |path| + n == LIMIT && LongChain(graph, id, path, n)
    ensures Levels(Plain(graph, Trace, id, path)) == n
    decreases n
  {
    hide Plain;
    PlainStep(graph, Trace, id, path);
    if n > 1 {
      LevelsOfLong(graph, graph[id].parent.value, path + [id], n - 1);
    } else if n == 1 && graph[id].parent.Some? {
      PlainStep(graph, Trace, graph[id].parent.value, path + [id]);
    }
  }

  /** Resolving up a long chain that avoids `y` does not resolve `y`. */
  lemma {:induction false} NotVisited(graph: Graph, id: string, path: seq<string>, avoided: seq<string>, n: nat,
      y: string)
    requires |path| + n == LIMIT && LongChain(graph, id, avoided, n) && y in avoided
    ensures y !in Memoised(graph, Trace, id, path, map[])
    decreases n
  {
    hide Memoised;
    MemoStep(graph, Trace, id, path, map[]);
    if !Stops(graph, id, path) && graph[id].parent.Some? {
      if n > 1 {
        NotVisited(graph, graph[id].parent.value, path + [id], avoided + [id], n - 1, y);
      } else {
        MemoStep(graph, Trace, graph[id].parent.value, path + [id], map[]);
      }
    }
  }

  /** A chain of 33 complete materials is answered differently once its second material is resolved. */
  lemma LongChainDiffers(graph: Graph, id: string)
    requires LongChain(graph, id, [], LIMIT + 1)
    ensures id in graph && graph[id].parent.Some?
    ensures Answered(MemoisedAll(graph, Trace, [graph[id].parent.value, id]), id) != Plain(graph, Trace, id, [])
  {
    hide Memoised, Plain, MemoisedAll;
    var up := graph[id].parent.value;
    assert [] + [id] == [id];
    assert LongChain(graph, up, [id], LIMIT);
    ShorterChain(graph, up, [id], [], LIMIT, LIMIT);
    ShorterChain(graph, up, [id], [id], LIMIT, LIMIT - 1);
    LevelsOfLong(graph, up, [], LIMIT);
    LevelsOfLong(graph, up, [id], LIMIT - 1);
    NotVisited(graph, up, [], [id], LIMIT, id);
    FirstIsPlain(graph, Trace, up, []);
    TwoSteps(graph, Trace, up, id);
    var first := Memoised(graph, Trace, up, [], map[]);
    MemoStep(graph, Trace, id, [], first);
    MemoStep(graph, Trace, up, [id], first);
    PlainStep(graph, Trace, id, []);
  }

  // ---------- cycles ----------

  /** Different complete materials, each the parent of the one before it. */
  predicate IsChain(graph: Graph, ids: seq<string>) {
    && Distinct(ids) && (forall i :: 0 <= i < |ids| ==> Real(graph, ids[i]))
    && (forall i :: 0 < i < |ids| ==> graph[ids[i - 1]].parent == Some(ids[i]))
  }

  predicate IsCycle(graph: Graph, ids: seq<string>) {
    ids != [] && IsChain(graph, ids) && graph[ids[|ids| - 1]].parent == Some(ids[0])
  }

  /** A chain that does not end within the limit is a long one or runs into a cycle. */
  lemma {:induction false} LongOrCyclic(graph: Graph, id: string, path: seq<string>) returns (cycle: seq<string>)
    requires |path| <= LIMIT && IsChain(graph, path) && (path != [] ==> graph[path[|path| - 1]].parent == Some(id))
    requires !Ends(graph, id, LIMIT - |path|)
    ensures cycle == [] ==> LongChain(graph, id, path, LIMIT + 1 - |path|)
    ensures cycle != [] ==> IsCycle(graph, cycle) && |cycle| <= LIMIT
    decreases LIMIT - |path|
  {
    if id in path {
      var i :| 0 <= i < |path| && path[i] == id;
      cycle := path[i..];
    } else if |path| == LIMIT {
      cycle := [];
    } else {
      cycle := LongOrCyclic(graph, graph[id].parent.value, path + [id]);
    }
  }

  /** Resolving the second material of a cycle leaves the first one resolved without its parent. */
  lemma {:induction false} AroundCycle(graph: Graph, c: seq<string>, k: nat)
    requires IsCycle(graph, c) && 2 <= |c| <= LIMIT && 1 <= k <= |c|
    ensures Answered(Memoised(graph, Trace, if k < |c| then c[k] else c[0], c[1..k], map[]), c[0]) ==
      Some(Answer(c[0], None))
    decreases |c| - k
  {
    hide Memoised;
    var id, path := if k < |c| then c[k] else c[0], c[1..k];
    MemoStep(graph, Trace, id, path, map[]);
    assert id !in path;
    if k < |c| {
      AroundCycle(graph, c, k + 1);
      assert c[1..k + 1] == path + [id];
    } else {
      assert c[1] == path[0];
      MemoStep(graph, Trace, c[1], path + [id], map[]);
    }
  }

  lemma CycleDiffers(graph: Graph, c: seq<string>)
    requires IsCycle(graph, c) && 2 <= |c| <= LIMIT
    ensures Answered(MemoisedAll(graph, Trace, [c[1], c[0]]), c[0]) != Plain(graph, Trace, c[0], [])
  {
    hide Memoised, Plain, MemoisedAll;
    AroundCycle(graph, c, 1);
    assert c[1..1] == [] && [] + [c[0]] == [c[0]];
    TwoSteps(graph, Trace, c[1], c[0]);
    MemoStep(graph, Trace, c[0], [], Memoised(graph, Trace, c[1], [], map[]));
    assert graph[c[0]].parent == Some(c[1]);
    PlainStep(graph, Trace, c[0], []);
    PlainStep(graph, Trace, c[1], [c[0]]);
  }

  // ---------- exactly when ----------

  /** Under this policy, in every order, every material asked for gets the plain recursion's answer. */
  ghost predicate OrderFreeUnder<V(!new)>(graph: Graph, policy: Policy<V>) {
    forall ids: seq<string>, i: nat :: i < |ids| ==>
      Answered(MemoisedAll(graph, policy, ids), ids[i]) == Plain(graph, policy, ids[i], [])
  }

  /** Under every policy. */
  ghost predicate OrderFree<V(!new)>(graph: Graph) {
    forall policy: Policy<V> :: OrderFreeUnder(graph, policy)
  }

  /** Where, apart from self-parents, every chain ends within 32 complete materials, every policy is answered in every
      order as by the plain recursion. */
  lemma OrderDoesNotMatterApartFromLoops<V(!new)>(graph: Graph, policy: Policy<V>, ids: seq<string>, i: nat)
    requires AllEnd(WithoutLoops(graph)) && i < |ids|
    ensures Answered(MemoisedAll(graph, policy, ids), ids[i]) == Plain(graph, policy, ids[i], [])
  {
    hide Ends, Memoised, Plain, WithoutLoops;
    AllWithoutLoops(graph, policy, ids);
    PlainWithoutLoops(graph, policy, ids[i], []);
    OrderDoesNotMatter(WithoutLoops(graph), policy, ids, i);
  }

  lemma NoLoops(graph: Graph, c: seq<string>)
    requires IsCycle(WithoutLoops(graph), c)
    ensures |c| >= 2
  {
  }

  lemma EndingIsOrderFree<V(!new)>(graph: Graph)
    requires AllEnd(WithoutLoops(graph))
    ensures OrderFree<V>(graph)
  {
    hide Ends, Memoised, Plain, MemoisedAll, WithoutLoops;
    forall policy: Policy<V> ensures OrderFreeUnder(graph, policy) {
      forall ids: seq<string>, i: nat | i < |ids|
        ensures Answered(MemoisedAll(graph, policy, ids), ids[i]) == Plain(graph, policy, ids[i], [])
      {
        OrderDoesNotMatterApartFromLoops(graph, policy, ids, i);
      }
    }
  }

  lemma NotOrderFree(graph: Graph)
    requires !AllEnd(WithoutLoops(graph))
    ensures !OrderFreeUnder(graph, Trace)
  {
    hide Ends, Memoised, Plain, MemoisedAll, LongChain;
    var cut := WithoutLoops(graph);
    var id :| !Ends(cut, id, LIMIT);
    var c := LongOrCyclic(cut, id, []);
    var ids: seq<string>;
    if c == [] {
      LongChainDiffers(cut, id);
      ids := [cut[id].parent.value, id];
    } else {
      NoLoops(graph, c);
      CycleDiffers(cut, c);
      ids := [c[1], c[0]];
    }
    AllWithoutLoops(graph, Trace, ids);
    PlainWithoutLoops(graph, Trace, ids[1], []);
    assert Answered(MemoisedAll(graph, Trace, ids), ids[1]) != Plain(graph, Trace, ids[1], []);
  }

  /** Under every policy the order does not matter, exactly when every chain ends so: otherwise the policy that traces
      its parents answers two materials differently in a certain order. */
  lemma OrderFreeExactlyWhen(graph: Graph)
    ensures OrderFree<Answer>(graph) <==> AllEnd(WithoutLoops(graph))
    ensures OrderFreeUnder(graph, Trace) <==> AllEnd(WithoutLoops(graph))
  {
    hide AllEnd, WithoutLoops, OrderFreeUnder;
    if AllEnd(WithoutLoops(graph)) { EndingIsOrderFree<Answer>(graph); } else { NotOrderFree(graph); }
  }
}
