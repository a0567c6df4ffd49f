/** Batch planning of scripts/api_test_scope.py: eight service lifetimes filled longest first,
    then folded so that each of four jobs runs one long and one short batch. */
module ApiTestScope {
  import opened LongestFirst
  import opened Order
  import opened Sorting
  import opened Wrappers
  import opened Sequences

  type Weights = map<string, real>

  function Weight(weights: Weights, name: string): real {
    if name in weights then weights[name] else 60.0
  }

  /** What a module adds to its group's total. */
  function Charge(weights: Weights, name: string): real {
    var w := Weight(weights, name);
    if w < 0.01 then 0.01 else w
  }

  /** The order of the sort key (-weight, name), on weights that are not clamped. */
  predicate Before(weights: Weights, a: string, b: string) {
    Weight(weights, a) > Weight(weights, b) || (Weight(weights, a) == Weight(weights, b) && TextAtMost(a, b))
  }

  /** A charge is the listed weight where that is at least a hundredth, a hundredth where it is less, and a minute for
      a module that is not listed. */
  lemma ChargeByCases(weights: Weights, name: string)
    ensures name in weights && weights[name] >= 0.01 ==> Charge(weights, name) == weights[name]
    ensures name in weights && weights[name] < 0.01 ==> Charge(weights, name) == 0.01
    ensures name !in weights ==> Charge(weights, name) == 60.0
  {
  }

  /** How long a group takes, read off the weight map alone. */
  ghost function Seconds(weights: Weights, group: seq<string>): real {
    if group == [] then 0.0
    else
      var last := group[|group| - 1];
      Seconds(weights, group[..|group| - 1])
      + if last !in weights then 60.0 else if weights[last] >= 0.01 then weights[last] else 0.01
  }

  /** Eight groups that hold the selection, each module as often as it was selected. */
  ghost predicate Splits(groups: seq<seq<string>>, selected: seq<string>) {
    |groups| == BINS && multiset(Flatten(groups)) == multiset(selected)
  }

  ghost predicate NoGroupOver(weights: Weights, groups: seq<seq<string>>, limit: real) {
    forall k :: 0 <= k < |groups| ==> Seconds(weights, groups[k]) <= limit
  }

  /** A perfect pairing of eight batches. */
  ghost predicate Pairing(mate: seq<nat>) {
    |mate| == BINS && forall i :: 0 <= i < BINS ==> mate[i] < BINS && mate[i] != i && mate[mate[i]] == i
  }

  ghost predicate NoPairOver(weights: Weights, batches: seq<seq<string>>, mate: seq<nat>, limit: real)
    requires |batches| == BINS && Pairing(mate)
  {
    forall i :: 0 <= i < BINS ==> Seconds(weights, batches[i]) + Seconds(weights, batches[mate[i]]) <= limit
  }

  /** Each batch is within 31/24 of the heaviest group of any split of the selection into eight. */
  ghost predicate NearOptimal(weights: Weights, batches: seq<seq<string>>, selected: seq<string>) {
    forall other: seq<seq<string>>, limit: real :: Splits(other, selected) && NoGroupOver(weights, other, limit)
      ==> forall k :: 0 <= k < |batches| ==> 24.0 * Seconds(weights, batches[k]) <= 31.0 * limit
  }

  /** No perfect pairing of the batches has a lighter heaviest pair than the neighbours. */
  ghost predicate BestNeighbours(weights: Weights, batches: seq<seq<string>>)
    requires |batches| == BINS
  {
    forall mate: seq<nat>, limit: real :: Pairing(mate) && NoPairOver(weights, batches, mate, limit)
      ==> NoPairOver(weights, batches, Neighbours(), limit)
  }

  /** From the lightest batch to the heaviest: the first of every job going forward, then the second going back. */
  ghost predicate InFoldedOrder(weights: Weights, batches: seq<seq<string>>)
    requires |batches| == BINS
  {
    Seconds(weights, batches[0]) <= Seconds(weights, batches[2])
    <= Seconds(weights, batches[4]) <= Seconds(weights, batches[6])
    <= Seconds(weights, batches[7]) <= Seconds(weights, batches[5])
    <= Seconds(weights, batches[3]) <= Seconds(weights, batches[1])
  }

  /** The pairing of the four jobs: batches 2p and 2p + 1 run one after the other. */
  ghost function Neighbours(): (mate: seq<nat>)
    ensures Pairing(mate)
  {
    [1, 0, 3, 2, 5, 4, 7, 6]
  }

  lemma {:induction false} FlattenEmpty<T>(groups: seq<seq<T>>)
    requires forall k :: 0 <= k < |groups| ==> groups[k] == []
    ensures Flatten(groups) == []
  {
    if groups != [] { FlattenEmpty(groups[..|groups| - 1]); }
  }

  lemma {:induction false} FlattenUpdate<T>(groups: seq<seq<T>>, k: nat, group: seq<T>)
    requires k < |groups|
    ensures multiset(Flatten(groups[k := group])) + multiset(groups[k]) == multiset(Flatten(groups)) + multiset(group)
  {
    var n := |groups| - 1;
    var changed := groups[k := group];
    if k < n {
      FlattenUpdate(groups[..n], k, group);
      assert changed[..n] == groups[..n][k := group];
      var last, before, after := multiset(groups[n]), multiset(groups[k]), multiset(group);
      assert multiset(Flatten(changed)) + before == multiset(Flatten(changed[..n])) + before + last;
      assert multiset(Flatten(groups)) + after == multiset(Flatten(groups[..n])) + after + last;
    } else {
      assert changed[..n] == groups[..n];
    }
  }

  lemma FlattenAppend<T>(groups: seq<seq<T>>, k: nat, x: T)
    requires k < |groups|
    ensures multiset(Flatten(groups[k := groups[k] + [x]])) == multiset(Flatten(groups)) + multiset{x}
  {
    FlattenUpdate(groups, k, groups[k] + [x]);
    var a, g := multiset(Flatten(groups[k := groups[k] + [x]])), multiset(groups[k]);
    assert a == a + g - g == multiset(Flatten(groups)) + (g + multiset{x}) - g;
  }

  lemma {:induction false} WeightRemove(weights: Weights, group: seq<string>, i: nat)
    requires i < |group|
    ensures Seconds(weights, group) == Seconds(weights, Without(group, i)) + Charge(weights, group[i])
  {
    var n := |group| - 1;
    var rest := Without(group, i);
    if i < n {
      WeightRemove(weights, group[..n], i);
      assert rest[..n - 1] == Without(group[..n], i);
    } else {
      assert rest == group[..n];
    }
  }

  lemma {:induction false} WeightOfPermutation(weights: Weights, a: seq<string>, b: seq<string>)
    requires multiset(a) == multiset(b)
    ensures Seconds(weights, a) == Seconds(weights, b)
  {
    SameLength(a, b);
    if a != [] {
      var n := |a| - 1;
      assert a[n] in multiset(b);
      var i :| 0 <= i < |b| && b[i] == a[n];
      WeightRemove(weights, b, i);
      MultisetRemove(a, n);
      MultisetRemove(b, i);
      assert Without(a, n) == a[..n];
      WeightOfPermutation(weights, a[..n], Without(b, i));
    }
  }

  lemma {:induction false} WeightPositive(weights: Weights, group: seq<string>)
    ensures group == [] ==> Seconds(weights, group) == 0.0
    ensures group != [] ==> Seconds(weights, group) > 0.0
  {
    if group != [] { WeightPositive(weights, group[..|group| - 1]); }
  }

  ghost function Charges(weights: Weights, names: seq<string>): (jobs: seq<real>)
    ensures |jobs| == |names|
  {
    seq(|names|, i requires 0 <= i < |names| => Charge(weights, names[i]))
  }

  /** The place of the last module in the groups that hold it. */
  lemma PullLast(names: seq<string>, groups: seq<seq<string>>) returns (b: nat, i: nat)
    requires Splits(groups, names) && names != []
    ensures b < BINS && i < |groups[b]| && groups[b][i] == names[|names| - 1]
    ensures Splits(groups[b := Without(groups[b], i)], names[..|names| - 1])
  {
    var n := |names| - 1;
    assert names[n] in multiset(Flatten(groups));
    b, i := FindInGroups(groups, names[n]);
    FlattenUpdate(groups, b, Without(groups[b], i));
    MultisetRemove(groups[b], i);
    MultisetRemove(names, n);
    assert Without(names, n) == names[..n];
    Withdraw(multiset(Flatten(groups[b := Without(groups[b], i)])), multiset(Flatten(groups)), multiset(groups[b]),
      names[n]);
  }

  lemma Withdraw<T>(after: multiset<T>, before: multiset<T>, group: multiset<T>, x: T)
    requires x in group && after + group == before + (group - multiset{x})
    ensures after == before - multiset{x}
  {
    assert group == group - multiset{x} + multiset{x};
    assert after + multiset{x} + (group - multiset{x}) == before + (group - multiset{x});
    assert after + multiset{x} == after + multiset{x} + (group - multiset{x}) - (group - multiset{x}) == before;
  }

  /** Any eight groups of the jobs are a schedule of the jobs, bin weights and all. */
  lemma {:induction false} ScheduleOfGroups(weights: Weights, names: seq<string>, groups: seq<seq<string>>)
      returns (at: seq<nat>)
    requires Splits(groups, names)
    ensures Schedule(at, |names|)
    ensures forall k: nat :: k < BINS ==>
      Load(Charges(weights, names), at, |names|, k) == Seconds(weights, groups[k])
  {
    if names == [] {
      at := [];
      forall k: nat | k < BINS ensures groups[k] == [] {
        if groups[k] != [] { InFlatten(groups, k, 0); }
      }
    } else {
      var n := |names| - 1;
      var b, i := PullLast(names, groups);
      var smaller := groups[b := Without(groups[b], i)];
      WeightRemove(weights, groups[b], i);
      var rest := ScheduleOfGroups(weights, names[..n], smaller);
      at := rest + [b];
      var jobs, x := Charges(weights, names[..n]), Charge(weights, names[n]);
      assert Charges(weights, names) == jobs + [x];
      forall k: nat | k < BINS
        ensures Load(Charges(weights, names), at, |names|, k) == Seconds(weights, groups[k])
      {
        LoadSnoc(jobs, rest, x, b, n, k);
        assert Load(jobs, rest, n, k) == Seconds(weights, smaller[k]);
      }
    }
  }

  lemma {:induction false} InFlatten<T>(groups: seq<seq<T>>, k: nat, i: nat)
    requires k < |groups| && i < |groups[k]|
    ensures groups[k][i] in Flatten(groups)
  {
    var n := |groups| - 1;
    if k < n { InFlatten(groups[..n], k, i); }
  }

  lemma {:induction false} FindInGroups<T>(groups: seq<seq<T>>, x: T) returns (k: nat, i: nat)
    requires x in Flatten(groups)
    ensures k < |groups| && i < |groups[k]| && groups[k][i] == x
  {
    var n := |groups| - 1;
    if x in groups[n] {
      k := n;
      i :| 0 <= i < |groups[n]| && groups[n][i] == x;
    } else {
      k, i := FindInGroups(groups[..n], x);
    }
  }

  ghost predicate LongestFirstOrder(weights: Weights, names: seq<string>) {
    forall i, j :: 0 <= i < j < |names| ==> Before(weights, names[i], names[j])
  }

  function SortByWeight(weights: Weights, names: seq<string>): (r: seq<string>)
    ensures multiset(r) == multiset(names)
  {
    Sort(names, (a, b) => Before(weights, a, b))
  }

  lemma SortByWeightOrdered(weights: Weights, names: seq<string>)
    ensures LongestFirstOrder(weights, SortByWeight(weights, names))
  {
    forall a, b ensures Before(weights, a, b) || Before(weights, b, a) { TextOrder(a, b); }
    forall a, b, c | Before(weights, a, b) && Before(weights, b, c) ensures Before(weights, a, c) {
      if TextAtMost(a, b) && TextAtMost(b, c) { TextTransitive(a, b, c); }
    }
    SortOrdered(names, (a, b) => Before(weights, a, b));
  }

  predicate InNameOrder(names: seq<string>) {
    forall i, j :: 0 <= i < j < |names| ==> TextAtMost(names[i], names[j])
  }

  function SortNames(names: seq<string>): (r: seq<string>)
    ensures multiset(r) == multiset(names) && |r| == |names|
  {
    Sort(names, TextAtMost)
  }

  lemma SortNamesOrdered(names: seq<string>)
    ensures InNameOrder(SortNames(names))
  {
    forall a, b ensures TextAtMost(a, b) || TextAtMost(b, a) { TextOrder(a, b); }
    forall a, b, c | TextAtMost(a, b) && TextAtMost(b, c) ensures TextAtMost(a, c) { TextTransitive(a, b, c); }
    SortOrdered(names, TextAtMost);
  }

  lemma SortNamesUnique(names: seq<string>, ordered: seq<string>)
    requires InNameOrder(ordered) && multiset(names) == multiset(ordered)
    ensures SortNames(names) == ordered
  {
    SortNamesOrdered(names);
    forall i, j | 0 <= i < |ordered| && 0 <= j < |ordered| && TextAtMost(ordered[i], ordered[j]) &&
      TextAtMost(ordered[j], ordered[i])
      ensures ordered[i] == ordered[j]
    {
      TextOrder(ordered[i], ordered[j]);
    }
    OrderedUnique(ordered, SortNames(names), TextAtMost);
  }

  /** A descending order of the plain weights is a descending order of the clamped charges. */
  lemma SortedIsDescending(weights: Weights, names: seq<string>)
    requires LongestFirstOrder(weights, names)
    ensures Descending(Charges(weights, names))
  {
    forall i, j | 0 <= i <= j < |names| ensures Charges(weights, names)[j] <= Charges(weights, names)[i] {
      if i < j { assert Before(weights, names[i], names[j]); }
    }
  }

  /** `min(range(8), key=(total, size, index))`. */
  method LightestBin(totals: seq<real>, groups: seq<seq<string>>) returns (best: nat)
    requires |totals| == |groups| == BINS
    ensures best < BINS
    ensures forall k :: 0 <= k < BINS ==>
      totals[best] < totals[k] || (totals[best] == totals[k] &&
        (|groups[best]| < |groups[k]| || (|groups[best]| == |groups[k]| && best <= k)))
  {
    best := 0;
    for i := 1 to BINS
      invariant best < i
      invariant forall k :: 0 <= k < i ==>
        totals[best] < totals[k] || (totals[best] == totals[k] &&
          (|groups[best]| < |groups[k]| || (|groups[best]| == |groups[k]| && best <= k)))
    {
      if totals[i] < totals[best] || (totals[i] == totals[best] && |groups[i]| < |groups[best]|) {
        best := i;
      }
    }
  }

  /** The totals are the group weights and the bin loads of the schedule `at`. */
  ghost predicate Tallied(weights: Weights, names: seq<string>, groups: seq<seq<string>>, totals: seq<real>,
      at: seq<nat>)
    requires |groups| == |totals| == BINS && |at| == |names|
  {
    forall k: nat :: k < BINS ==>
      totals[k] == Seconds(weights, groups[k]) == Load(Charges(weights, names), at, |names|, k)
  }

  /** The state of the assignment loop: groups and totals are a greedy schedule of the placed modules. */
  ghost predicate Placed(weights: Weights, names: seq<string>, groups: seq<seq<string>>, totals: seq<real>,
      at: seq<nat>) {
    && Splits(groups, names) && |totals| == BINS && Schedule(at, |names|)
    && Greedy(Charges(weights, names), at)
    && Tallied(weights, names, groups, totals, at)
  }

  lemma TallyStep(weights: Weights, names: seq<string>, groups: seq<seq<string>>, totals: seq<real>, at: seq<nat>,
                  name: string, b: nat)
    requires |groups| == |totals| == BINS && |at| == |names| && b < BINS && Tallied(weights, names, groups, totals, at)
    ensures Tallied(weights, names + [name], groups[b := groups[b] + [name]],
                    totals[b := totals[b] + Charge(weights, name)], at + [b])
  {
    var jobs, x := Charges(weights, names), Charge(weights, name);
    assert Charges(weights, names + [name]) == jobs + [x];
    assert (groups[b] + [name])[..|groups[b]|] == groups[b];
    forall k: nat | k < BINS ensures Load(jobs + [x], at + [b], |names|, k) == Load(jobs, at, |names|, k) {
      LoadSnoc(jobs, at, x, b, |names|, k);
    }
  }

  lemma PlaceStep(weights: Weights, names: seq<string>, groups: seq<seq<string>>, totals: seq<real>, at: seq<nat>,
                  name: string, b: nat)
    requires Placed(weights, names, groups, totals, at) && b < BINS
    requires forall k :: 0 <= k < BINS ==> totals[b] <= totals[k]
    ensures Placed(weights, names + [name], groups[b := groups[b] + [name]],
                   totals[b := totals[b] + Charge(weights, name)], at + [b])
  {
    FlattenAppend(groups, b, name);
    TallyStep(weights, names, groups, totals, at, name, b);
    GreedySnoc(Charges(weights, names), at, Charge(weights, name), b);
    assert Charges(weights, names + [name]) == Charges(weights, names) + [Charge(weights, name)];
  }

  /** The four folded pairs are the best of all perfect pairings. */
  lemma FoldedPairsBest(w: seq<real>, mate: seq<nat>, limit: real)
    requires |w| == BINS && Pairing(mate)
    requires w[0] <= w[2] <= w[4] <= w[6] <= w[7] <= w[5] <= w[3] <= w[1]
    requires forall i :: 0 <= i < BINS ==> w[i] + w[mate[i]] <= limit
    ensures forall i :: 0 <= i < BINS ==> w[i] + w[Neighbours()[i]] <= limit
  {
    assert mate[mate[1]] == 1 && mate[mate[3]] == 3 && mate[mate[5]] == 5 && mate[mate[7]] == 7;
    assert w[0] + w[1] <= limit;
    assert w[2] + w[3] <= limit;
    assert w[4] + w[5] <= limit;
    assert w[6] + w[7] <= limit;
  }

  /** The sort key (total, index) of a group. */
  predicate Lighter(totals: seq<real>, a: nat, b: nat) {
    var x, y := if a < |totals| then totals[a] else 0.0, if b < |totals| then totals[b] else 0.0;
    x < y || (x == y && a <= b)
  }

  /** `range(8)`. */
  function Groups(): (indices: seq<nat>)
    ensures |indices| == BINS && forall k :: 0 <= k < BINS ==> indices[k] == k
  {
    seq(BINS, k => k)
  }

  ghost predicate Indices(s: seq<nat>) {
    forall i :: 0 <= i < |s| ==> s[i] < BINS
  }

  ghost predicate RankOrder(totals: seq<real>, order: seq<nat>) {
    forall i, j :: 0 <= i < j < |order| ==> Lighter(totals, order[i], order[j])
  }

  function RankByTotal(totals: seq<real>): (order: seq<nat>)
    ensures |order| == BINS && multiset(order) == multiset(Groups())
  {
    Sort(Groups(), (a: nat, b: nat) => Lighter(totals, a, b))
  }

  lemma RankByTotalOrdered(totals: seq<real>)
    ensures RankOrder(totals, RankByTotal(totals)) && Indices(RankByTotal(totals))
  {
    SortOrdered(Groups(), (a: nat, b: nat) => Lighter(totals, a, b));
    IndicesOfPermutation(RankByTotal(totals));
  }

  lemma IndicesOfPermutation(order: seq<nat>)
    requires multiset(order) == multiset(Groups())
    ensures Indices(order)
  {
    forall i | 0 <= i < |order|
      ensures order[i] < BINS
    {
      assert order[i] in multiset(order); assert order[i] in Groups();
    }
  }

  /** The pairs of `zip(light, reversed(heavy))`, one after the other. */
  function Fold(light: seq<nat>, heavy: seq<nat>): (folded: seq<nat>)
    requires |light| == |heavy|
    ensures |folded| == 2 * |light|
  {
    if light == [] then [] else
    var n := |light| - 1;
    Fold(light[..n], heavy[1..]) + [light[n]] + [heavy[0]]
  }

  lemma {:induction false} FoldAt(light: seq<nat>, heavy: seq<nat>, p: nat)
    requires |light| == |heavy| && p < |light|
    ensures Fold(light, heavy)[2 * p] == light[p] && Fold(light, heavy)[2 * p + 1] == heavy[|heavy| - 1 - p]
  {
    var n := |light| - 1;
    if p < n {
      FoldAt(light[..n], heavy[1..], p);
      assert heavy[1..][n - 1 - p] == heavy[n - p];
    }
  }

  lemma {:induction false} FoldKeeps(light: seq<nat>, heavy: seq<nat>)
    requires |light| == |heavy|
    ensures multiset(Fold(light, heavy)) == multiset(light) + multiset(heavy)
  {
    if light != [] {
      var n := |light| - 1;
      FoldKeeps(light[..n], heavy[1..]);
      assert light == light[..n] + [light[n]];
      assert heavy == [heavy[0]] + heavy[1..];
    }
  }

  /** The eight groups, lightest with heaviest first. */
  function FoldedOrder(order: seq<nat>): (folded: seq<nat>)
    requires |order| == BINS
    ensures |folded| == BINS && multiset(folded) == multiset(order)
    ensures forall p :: 0 <= p < 4 ==> folded[2 * p] == order[p] && folded[2 * p + 1] == order[7 - p]
  {
    assert order == order[..4] + order[4..];
    FoldKeeps(order[..4], order[4..]);
    FoldAt(order[..4], order[4..], 0);
    FoldAt(order[..4], order[4..], 1);
    FoldAt(order[..4], order[4..], 2);
    FoldAt(order[..4], order[4..], 3);
    Fold(order[..4], order[4..])
  }

  function Batches(groups: seq<seq<string>>, indices: seq<nat>): (r: seq<seq<string>>)
    requires |groups| == BINS && Indices(indices)
    ensures |r| == |indices|
  {
    seq(|indices|, i requires 0 <= i < |indices| => SortNames(groups[indices[i]]))
  }

  lemma FlattenLast<T>(groups: seq<seq<T>>)
    requires groups != []
    ensures multiset(Flatten(groups)) == multiset(Flatten(groups[..|groups| - 1])) + multiset(groups[|groups| - 1])
  {
  }

  lemma {:induction false} FlattenRemove<T>(groups: seq<seq<T>>, i: nat)
    requires i < |groups|
    ensures multiset(Flatten(groups)) == multiset(Flatten(Without(groups, i))) + multiset(groups[i])
  {
    hide Flatten;
    var n := |groups| - 1;
    FlattenLast(groups);
    if i < n {
      FlattenRemove(groups[..n], i);
      FlattenLast(Without(groups, i));
      assert Without(groups, i)[..n - 1] == Without(groups[..n], i);
    } else {
      assert Without(groups, i) == groups[..n];
    }
  }

  lemma BatchesWithout(groups: seq<seq<string>>, a: seq<nat>, i: nat)
    requires |groups| == BINS && Indices(a) && i < |a|
    ensures Indices(Without(a, i)) && Without(Batches(groups, a), i) == Batches(groups, Without(a, i))
  {
    assert forall k :: 0 <= k < |a| - 1 ==> Without(a, i)[k] == a[if k < i then k else k + 1];
  }

  lemma BatchesRemove(groups: seq<seq<string>>, a: seq<nat>, i: nat)
    requires |groups| == BINS && Indices(a) && i < |a|
    ensures Indices(Without(a, i))
    ensures multiset(Flatten(Batches(groups, a))) ==
      multiset(Flatten(Batches(groups, Without(a, i)))) + multiset(SortNames(groups[a[i]]))
  {
    BatchesWithout(groups, a, i);
    FlattenRemove(Batches(groups, a), i);
  }

  /** Reordering groups keeps the modules they hold. */
  lemma {:induction false} BatchesOfPermutation(groups: seq<seq<string>>, a: seq<nat>, b: seq<nat>)
    requires |groups| == BINS && multiset(a) == multiset(b) && Indices(a) && Indices(b)
    ensures multiset(Flatten(Batches(groups, a))) == multiset(Flatten(Batches(groups, b)))
  {
    SameLength(a, b);
    if a != [] {
      var n := |a| - 1;
      assert a[n] in multiset(b);
      var i :| 0 <= i < |b| && b[i] == a[n];
      MultisetRemove(a, n);
      MultisetRemove(b, i);
      BatchesOfPermutation(groups, Without(a, n), Without(b, i));
      BatchesRemove(groups, a, n);
      BatchesRemove(groups, b, i);
    }
  }

  lemma {:induction false} FlattenOfSorted(groups: seq<seq<string>>, sorted: seq<seq<string>>)
    requires |groups| == |sorted|
    requires forall k :: 0 <= k < |groups| ==> sorted[k] == SortNames(groups[k])
    ensures multiset(Flatten(sorted)) == multiset(Flatten(groups))
  {
    if groups != [] {
      var n := |groups| - 1;
      FlattenOfSorted(groups[..n], sorted[..n]);
    }
  }

  lemma BatchesSplit(selected: seq<string>, groups: seq<seq<string>>, indices: seq<nat>)
    requires Splits(groups, selected) && multiset(indices) == multiset(Groups()) && Indices(indices)
    ensures Splits(Batches(groups, indices), selected)
  {
    SameLength(indices, Groups());
    BatchesOfPermutation(groups, Groups(), indices);
    FlattenOfSorted(groups, Batches(groups, Groups()));
  }

  /** The weights of the folded batches: first of each pair ascending, second descending. */
  lemma FoldedWeights(weights: Weights, groups: seq<seq<string>>, totals: seq<real>, order: seq<nat>)
    requires |groups| == |totals| == |order| == BINS && RankOrder(totals, order) && Indices(order)
    requires forall k: nat :: k < BINS ==> totals[k] == Seconds(weights, groups[k])
    requires Indices(FoldedOrder(order))
    ensures var batches := Batches(groups, FoldedOrder(order));
      && (forall k: nat :: k < BINS ==> Seconds(weights, batches[k]) == totals[FoldedOrder(order)[k]])
      && totals[order[0]] <= totals[order[1]] <= totals[order[2]] <= totals[order[3]]
         <= totals[order[4]] <= totals[order[5]] <= totals[order[6]] <= totals[order[7]]
  {
    var batches := Batches(groups, FoldedOrder(order));
    forall k: nat | k < BINS ensures Seconds(weights, batches[k]) == totals[FoldedOrder(order)[k]] {
      WeightOfPermutation(weights, batches[k], groups[FoldedOrder(order)[k]]);
    }
    forall i | 0 <= i < 7 ensures totals[order[i]] <= totals[order[i + 1]] {
      assert Lighter(totals, order[i], order[i + 1]);
    }
  }

  lemma NothingPlaced(weights: Weights, groups: seq<seq<string>>, totals: seq<real>)
    requires |groups| == |totals| == BINS && forall k :: 0 <= k < BINS ==> groups[k] == [] && totals[k] == 0.0
    ensures Placed(weights, [], groups, totals, [])
  {
    FlattenEmpty(groups);
  }

  lemma PlacedSizes(weights: Weights, names: seq<string>, groups: seq<seq<string>>, totals: seq<real>, at: seq<nat>)
    requires Placed(weights, names, groups, totals, at)
    ensures |groups| == |totals| == BINS
  {
  }

  /** The assignment loop: each module in turn goes to the lightest group. */
  method FillGroups(names: seq<string>, weights: Weights)
      returns (groups: seq<seq<string>>, totals: seq<real>, ghost at: seq<nat>)
    ensures Placed(weights, names, groups, totals, at)
  {
    groups, totals, at := seq(BINS, k => []), seq(BINS, k => 0.0), [];
    NothingPlaced(weights, groups, totals);
    assert names[..0] == [];
    hide Placed, Charge;
    for i := 0 to |names|
      invariant Placed(weights, names[..i], groups, totals, at)
    {
      PlacedSizes(weights, names[..i], groups, totals, at);
      var index := LightestBin(totals, groups);
      PlaceStep(weights, names[..i], groups, totals, at, names[i], index);
      assert names[..i + 1] == names[..i] + [names[i]];
      groups := groups[index := groups[index] + [names[i]]];
      totals := totals[index := totals[index] + Charge(weights, names[i])];
      at := at + [index];
    }
    assert names[..|names|] == names;
  }

  /** The plan of the eight batches, or no plan exactly when the selection has fewer than eight
      modules or is not in name order. The plan splits the selection; its heaviest batch is within
      31/24 of the heaviest group of every split into eight groups; no pairing of its batches has a
      lighter heaviest pair than the plan's own neighbours; and the k-th lightest batch comes k-th
      among the four that run first. */
  method Balanced(selected: seq<string>, weights: Weights) returns (r: Option<seq<seq<string>>>)
    ensures r.None? <==> |selected| < BINS || !InNameOrder(selected)
    ensures r.Some? ==> Splits(r.value, selected)
    ensures r.Some? ==> forall k :: 0 <= k < BINS ==> r.value[k] != [] && InNameOrder(r.value[k])
    ensures r.Some? ==>
      NearOptimal(weights, r.value, selected) && BestNeighbours(weights, r.value) && InFoldedOrder(weights, r.value)
  {
    var names := SortByWeight(weights, selected);
    ghost var at;
    var groups, totals;
    groups, totals, at := FillGroups(names, weights);
    SortByWeightOrdered(weights, selected);
    GuardMeaning(weights, selected, names, groups, totals, at);
    if (exists k :: 0 <= k < BINS && groups[k] == []) || SortNames(Flatten(groups)) != selected {
      return None;
    }
    var order := RankByTotal(totals);
    RankByTotalOrdered(totals);
    IndicesOfPermutation(FoldedOrder(order));
    r := Some(Batches(groups, FoldedOrder(order)));
    BatchesSplit(selected, groups, FoldedOrder(order));
    PlanMeaning(weights, selected, names, groups, totals, at, order);
  }

  lemma GuardMeaning(weights: Weights, selected: seq<string>, names: seq<string>, groups: seq<seq<string>>,
                     totals: seq<real>, at: seq<nat>)
    requires multiset(names) == multiset(selected) && Placed(weights, names, groups, totals, at)
    requires LongestFirstOrder(weights, names)
    ensures (exists k :: 0 <= k < BINS && groups[k] == []) <==> |selected| < BINS
    ensures SortNames(Flatten(groups)) == selected <==> InNameOrder(selected)
  {
    SameLength(names, selected);
    SortedIsDescending(weights, names);
    forall k: nat | k < BINS ensures totals[k] > 0.0 <==> groups[k] != [] { WeightPositive(weights, groups[k]); }
    if |names| < BINS {
      var k := EmptyBin(Charges(weights, names), at, |names|);
      assert groups[k] == [];
    } else {
      forall k: nat | k < BINS ensures groups[k] != [] { EveryBinUsed(Charges(weights, names), at, k); }
    }
    SortNamesOrdered(Flatten(groups));
    if InNameOrder(selected) { SortNamesUnique(Flatten(groups), selected); }
  }

  lemma PlanMeaning(weights: Weights, selected: seq<string>, names: seq<string>, groups: seq<seq<string>>,
                    totals: seq<real>, at: seq<nat>, order: seq<nat>)
    requires multiset(names) == multiset(selected) && Placed(weights, names, groups, totals, at)
    requires LongestFirstOrder(weights, names)
    requires forall k :: 0 <= k < BINS ==> groups[k] != []
    requires |order| == BINS && RankOrder(totals, order) && Indices(order) && Indices(FoldedOrder(order))
    ensures var batches := Batches(groups, FoldedOrder(order));
      && (forall k :: 0 <= k < BINS ==> batches[k] != [] && InNameOrder(batches[k]))
      && NearOptimal(weights, batches, selected) && BestNeighbours(weights, batches) && InFoldedOrder(weights, batches)
  {
    hide LongestFirstOrder, RankOrder, FoldedOrder, Seconds, BestNeighbours, InFoldedOrder, InNameOrder;
    var batches := Batches(groups, FoldedOrder(order));
    forall k | 0 <= k < BINS ensures batches[k] != [] && InNameOrder(batches[k]) {
      SortNamesOrdered(groups[FoldedOrder(order)[k]]);
    }
    PlanNearOptimal(weights, selected, names, groups, totals, at, order);
    FoldedIsBest(weights, groups, totals, order);
  }

  lemma PlanNearOptimal(weights: Weights, selected: seq<string>, names: seq<string>, groups: seq<seq<string>>,
                        totals: seq<real>, at: seq<nat>, order: seq<nat>)
    requires multiset(names) == multiset(selected) && Placed(weights, names, groups, totals, at)
    requires LongestFirstOrder(weights, names)
    requires forall k :: 0 <= k < BINS ==> groups[k] != []
    requires |order| == BINS && RankOrder(totals, order) && Indices(order) && Indices(FoldedOrder(order))
    ensures NearOptimal(weights, Batches(groups, FoldedOrder(order)), selected)
  {
    assert |groups| == BINS;
    hide LongestFirstOrder, RankOrder, FoldedOrder, Seconds, Splits;
    var batches := Batches(groups, FoldedOrder(order));
    FoldedWeights(weights, groups, totals, order);
    forall other: seq<seq<string>>, limit: real | Splits(other, selected) && NoGroupOver(weights, other, limit)
      ensures forall k :: 0 <= k < BINS ==> 24.0 * Seconds(weights, batches[k]) <= 31.0 * limit
    {
      forall k | 0 <= k < BINS ensures 24.0 * Seconds(weights, batches[k]) <= 31.0 * limit {
        GroupWithinBound(weights, selected, names, groups, totals, at, FoldedOrder(order)[k], other, limit);
      }
    }
  }

  lemma FoldedIsBest(weights: Weights, groups: seq<seq<string>>, totals: seq<real>, order: seq<nat>)
    requires |groups| == |totals| == |order| == BINS && RankOrder(totals, order) && Indices(order)
    requires forall k: nat :: k < BINS ==> totals[k] == Seconds(weights, groups[k])
    requires Indices(FoldedOrder(order))
    ensures BestNeighbours(weights, Batches(groups, FoldedOrder(order)))
    ensures InFoldedOrder(weights, Batches(groups, FoldedOrder(order)))
  {
    hide Seconds, RankOrder, FoldedOrder;
    var batches := Batches(groups, FoldedOrder(order));
    FoldedWeights(weights, groups, totals, order);
    var w := seq(BINS, k requires 0 <= k < BINS => Seconds(weights, batches[k]));
    FoldedChain(totals, order, w);
    forall k: nat | k < BINS ensures w[k] == Seconds(weights, batches[k]) {}
    forall mate: seq<nat>, limit: real | Pairing(mate) && NoPairOver(weights, batches, mate, limit)
      ensures NoPairOver(weights, batches, Neighbours(), limit)
    {
      forall i | 0 <= i < BINS ensures w[i] + w[mate[i]] <= limit { assert w[i] == Seconds(weights, batches[i]); }
      FoldedPairsBest(w, mate, limit);
      forall i | 0 <= i < BINS
        ensures Seconds(weights, batches[i]) + Seconds(weights, batches[Neighbours()[i]]) <= limit
      {
        assert w[i] + w[Neighbours()[i]] <= limit;
      }
    }
  }

  lemma FoldedChain(totals: seq<real>, order: seq<nat>, w: seq<real>)
    requires |totals| == |order| == |w| == BINS && Indices(order) && Indices(FoldedOrder(order))
    requires forall k: nat :: k < BINS ==> w[k] == totals[FoldedOrder(order)[k]]
    requires totals[order[0]] <= totals[order[1]] <= totals[order[2]] <= totals[order[3]]
         <= totals[order[4]] <= totals[order[5]] <= totals[order[6]] <= totals[order[7]]
    ensures w[0] <= w[2] <= w[4] <= w[6] <= w[7] <= w[5] <= w[3] <= w[1]
  {
    var folded := FoldedOrder(order);
    assert folded[2 * 0] == order[0] && folded[2 * 1] == order[1] && folded[2 * 2] == order[2] &&
           folded[2 * 3] == order[3];
    assert folded[2 * 0 + 1] == order[7] && folded[2 * 1 + 1] == order[6] && folded[2 * 2 + 1] == order[5] &&
           folded[2 * 3 + 1] == order[4];
  }

  lemma GroupWithinBound(weights: Weights, selected: seq<string>, names: seq<string>, groups: seq<seq<string>>,
                         totals: seq<real>, at: seq<nat>, k: nat, other: seq<seq<string>>, limit: real)
    requires multiset(names) == multiset(selected) && Placed(weights, names, groups, totals, at)
    requires LongestFirstOrder(weights, names)
    requires k < BINS && Splits(other, selected) && NoGroupOver(weights, other, limit)
    ensures 24.0 * totals[k] <= 31.0 * limit
  {
    SortedIsDescending(weights, names);
    var rival := ScheduleOfGroups(weights, names, other);
    LongestFirstBound(Charges(weights, names), at, rival, |names|, k, limit);
  }
}
