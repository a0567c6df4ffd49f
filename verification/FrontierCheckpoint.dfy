/** The checkpoint of a frontier: candidate lists stored as ranks over a shared dictionary of targets. */
module FrontierCheckpoint {
  import opened Wrappers

  const WIDTH: nat := 55

  datatype Hit = Hit(vector: string, paper: string, bindings: string, distance: real)

  datatype Target = Target(vector: string, paper: string, bindings: string)

  datatype Rank = Rank(slot: nat, distance: real)

  datatype Origin = Origin(exclusions: string, ranks: seq<Rank>)

  type Key = (string, string)

  /** The tables: targets by slot, origins by paper and source. */
  datatype Tables = Tables(targets: seq<Target>, origins: map<Key, Origin>)

  const NO_TABLES: Tables := Tables([], map[])

  datatype Found = Miss | Corrupt | Hits(hits: seq<Hit>)

  // ---------- saving ----------

  function SlotOf(targets: seq<Target>, vector: string): (slot: nat)
    ensures slot <= |targets| && (slot < |targets| ==> targets[slot].vector == vector)
    ensures forall k :: 0 <= k < slot ==> targets[k].vector != vector
  {
    if targets == [] then 0 else if targets[0].vector == vector then 0 else 1 + SlotOf(targets[1..], vector)
  }

  predicate Usable(hit: Hit, earlier: seq<Hit>) {
    && hit.vector != "" && hit.paper != "" && 0.0 <= hit.distance <= 2.0
    && (earlier != [] ==> earlier[|earlier| - 1].distance <= hit.distance)
    && forall k :: 0 <= k < |earlier| ==> earlier[k].vector != hit.vector
  }

  function TargetOf(hit: Hit): Target { Target(hit.vector, hit.paper, hit.bindings) }

  /** The dictionary with the target of one hit in it. */
  function WithTarget(targets: seq<Target>, hit: Hit): seq<Target> {
    if SlotOf(targets, hit.vector) < |targets| then targets else targets + [TargetOf(hit)]
  }

  /** The dictionary and the ranks after the first `n` hits; `None` where saving raises. */
  function Bind(targets: seq<Target>, hits: seq<Hit>, n: nat): Option<(seq<Target>, seq<Rank>)>
    requires n <= |hits|
  {
    if n == 0 then Some((targets, []))
    else
      match Bind(targets, hits, n - 1)
      case None => None
      case Some((bound, ranks)) =>
        var hit := hits[n - 1];
        var now := WithTarget(bound, hit);
        var slot := SlotOf(now, hit.vector);
        if Usable(hit, hits[..n - 1]) && slot < |now| && now[slot] == TargetOf(hit) then
          Some((now, ranks + [Rank(slot, hit.distance)]))
        else None
  }

  lemma BindNothing(targets: seq<Target>, hits: seq<Hit>)
    ensures Bind(targets, hits, 0) == Some((targets, []))
  {
  }

  lemma BindOneMore(targets: seq<Target>, hits: seq<Hit>, n: nat)
    requires n < |hits|
    ensures Bind(targets, hits, n).None? ==> Bind(targets, hits, n + 1).None?
    ensures Bind(targets, hits, n).Some? ==>
      var (bound, ranks) := Bind(targets, hits, n).value;
      var now := WithTarget(bound, hits[n]);
      var slot := SlotOf(now, hits[n].vector);
      Bind(targets, hits, n + 1) ==
      if Usable(hits[n], hits[..n]) && slot < |now| && now[slot] == TargetOf(hits[n])
      then Some((now, ranks + [Rank(slot, hits[n].distance)])) else None
  {
    hide Usable, SlotOf, WithTarget, TargetOf;
  }

  /** Saving one complete list, or `None` with nothing changed. */
  function Save(t: Tables, key: Key, exclusions: string, hits: seq<Hit>): Option<Tables> {
    if |hits| != WIDTH then None
    else
      match Bind(t.targets, hits, |hits|)
      case None => None
      case Some((targets, ranks)) =>
        var origin := Origin(exclusions, ranks);
        if key in t.origins && t.origins[key] != origin then None
        else Some(Tables(targets, t.origins[key := origin]))
  }

  // ---------- reading ----------

  predicate RankFits(targets: seq<Target>, ranks: seq<Rank>, k: nat)
    requires k < |ranks|
  {
    && ranks[k].slot < |targets| && 0.0 <= ranks[k].distance <= 2.0
    && (k > 0 ==> ranks[k - 1].distance <= ranks[k].distance)
  }

  predicate DistinctSlots(ranks: seq<Rank>) {
    forall i, j :: 0 <= i < j < |ranks| ==> ranks[i].slot != ranks[j].slot
  }

  const NO_TARGET: Target := Target("", "", "")

  function HitAt(targets: seq<Target>, rank: Rank): Hit {
    var t := if rank.slot < |targets| then targets[rank.slot] else NO_TARGET;
    Hit(t.vector, t.paper, t.bindings, rank.distance)
  }

  function HitsOf(targets: seq<Target>, ranks: seq<Rank>): seq<Hit> {
    seq(|ranks|, k requires 0 <= k < |ranks| => HitAt(targets, ranks[k]))
  }

  function Find(t: Tables, key: Key, exclusions: string, limit: nat): Found
    requires 1 <= limit <= WIDTH
  {
    if key !in t.origins || t.origins[key].exclusions != exclusions then Miss
    else
      var ranks := t.origins[key].ranks;
      if |ranks| != WIDTH then Corrupt
      else
        var first := ranks[..limit];
        if DistinctSlots(first) && forall k :: 0 <= k < limit ==> RankFits(t.targets, first, k)
        then Hits(HitsOf(t.targets, first))
        else Corrupt
  }

  // ---------- what saving keeps ----------

  /** Every target is entered once, under its vector. */
  predicate OneEntryEach(targets: seq<Target>) {
    forall i, j :: 0 <= i < j < |targets| ==> targets[i].vector != targets[j].vector
  }

  predicate Listed(targets: seq<Target>, ranks: seq<Rank>) {
    DistinctSlots(ranks) && forall k :: 0 <= k < |ranks| ==> RankFits(targets, ranks, k)
  }

  predicate Sound(t: Tables) {
    OneEntryEach(t.targets) && forall key :: key in t.origins ==>
      |t.origins[key].ranks| == WIDTH && Listed(t.targets, t.origins[key].ranks)
  }

  lemma SlotFound(targets: seq<Target>, slot: nat)
    requires OneEntryEach(targets) && slot < |targets|
    ensures SlotOf(targets, targets[slot].vector) == slot
  {
  }

  /** The ranks bound so far list exactly the hits, in a dictionary that only grew. */
  ghost predicate Lists(before: seq<Target>, targets: seq<Target>, ranks: seq<Rank>, hits: seq<Hit>) {
    && before <= targets && OneEntryEach(targets) && |ranks| == |hits| && Listed(targets, ranks)
    && forall k :: 0 <= k < |ranks| ==> HitAt(targets, ranks[k]) == hits[k]
  }

  lemma {:induction false} BindLists(targets: seq<Target>, hits: seq<Hit>, n: nat)
    requires n <= |hits| && OneEntryEach(targets) && Bind(targets, hits, n).Some?
    ensures Lists(targets, Bind(targets, hits, n).value.0, Bind(targets, hits, n).value.1, hits[..n])
  {
    hide Lists, Usable, SlotOf, WithTarget, TargetOf, Bind, OneEntryEach;
    if n > 0 {
      BindOneMore(targets, hits, n - 1);
      BindLists(targets, hits, n - 1);
      var (bound, ranks) := Bind(targets, hits, n - 1).value;
      BindStep(targets, bound, ranks, hits[..n - 1], hits[n - 1]);
      assert hits[..n] == hits[..n - 1] + [hits[n - 1]];
    } else {
      BindNothing(targets, hits);
      NothingListed(targets);
    }
  }

  lemma NothingListed(targets: seq<Target>)
    requires OneEntryEach(targets)
    ensures Lists(targets, targets, [], [])
  {
  }

  lemma BindStep(before: seq<Target>, bound: seq<Target>, ranks: seq<Rank>, earlier: seq<Hit>, hit: Hit)
    requires Lists(before, bound, ranks, earlier) && Usable(hit, earlier)
    requires var now := WithTarget(bound, hit); var slot := SlotOf(now, hit.vector);
             slot < |now| && now[slot] == TargetOf(hit)
    ensures var now := WithTarget(bound, hit);
            Lists(before, now, ranks + [Rank(SlotOf(now, hit.vector), hit.distance)], earlier + [hit])
  {
    var now := WithTarget(bound, hit);
    var slot := SlotOf(now, hit.vector);
    var all := ranks + [Rank(slot, hit.distance)];
    hide SlotOf;
    forall k | 0 <= k < |ranks| ensures all[k].slot != slot && HitAt(now, all[k]) == earlier[k] {
      assert RankFits(bound, ranks, k) && HitAt(bound, ranks[k]) == earlier[k];
    }
    if ranks != [] { assert HitAt(bound, ranks[|ranks| - 1]) == earlier[|earlier| - 1]; }
    forall k | 0 <= k < |all| ensures RankFits(now, all, k) {
      if k < |ranks| { assert RankFits(bound, ranks, k); }
    }
  }

  /** Saving keeps the tables sound, only adds targets, and leaves every other list as it was. */
  lemma SaveKeeps(t: Tables, key: Key, exclusions: string, hits: seq<Hit>)
    requires Sound(t) && Save(t, key, exclusions, hits).Some?
    ensures var after := Save(t, key, exclusions, hits).value;
            Sound(after) && t.targets <= after.targets && after.origins.Keys == t.origins.Keys + {key} &&
            forall other :: other in t.origins ==> after.origins[other] == t.origins[other]
  {
    hide Bind;
    BindLists(t.targets, hits, |hits|);
    assert hits[..|hits|] == hits;
    var after := Save(t, key, exclusions, hits).value;
    forall other | other in after.origins
      ensures |after.origins[other].ranks| == WIDTH && Listed(after.targets, after.origins[other].ranks)
    {
      if other != key { StillListed(t.targets, after.targets, t.origins[other].ranks); }
    }
  }

  lemma StillListed(targets: seq<Target>, more: seq<Target>, ranks: seq<Rank>)
    requires targets <= more && Listed(targets, ranks)
    ensures Listed(more, ranks)
  {
    forall k | 0 <= k < |ranks| ensures RankFits(more, ranks, k) { assert RankFits(targets, ranks, k); }
  }

  /** What was saved is read back, any prefix of it, under the same exclusions. */
  lemma SaveThenFind(t: Tables, key: Key, exclusions: string, hits: seq<Hit>, limit: nat)
    requires Sound(t) && Save(t, key, exclusions, hits).Some? && 1 <= limit <= WIDTH
    ensures Find(Save(t, key, exclusions, hits).value, key, exclusions, limit) == Hits(hits[..limit])
  {
    hide Bind;
    BindLists(t.targets, hits, |hits|);
    assert hits[..|hits|] == hits;
    var after := Save(t, key, exclusions, hits).value;
    FindListed(after, key, limit, hits);
  }

  lemma FindListed(t: Tables, key: Key, limit: nat, hits: seq<Hit>)
    requires key in t.origins && |hits| == |t.origins[key].ranks| == WIDTH && 1 <= limit <= WIDTH
    requires Listed(t.targets, t.origins[key].ranks)
    requires forall k :: 0 <= k < WIDTH ==> HitAt(t.targets, t.origins[key].ranks[k]) == hits[k]
    ensures Find(t, key, t.origins[key].exclusions, limit) == Hits(hits[..limit])
  {
    var ranks := t.origins[key].ranks;
    var first := ranks[..limit];
    forall k | 0 <= k < limit ensures RankFits(t.targets, first, k) { assert RankFits(t.targets, ranks, k); }
  }

  /** Later saves never change what an earlier one reads as, whatever the exclusions asked for. */
  lemma FindStable(t: Tables, key: Key, exclusions: string, hits: seq<Hit>, other: Key, wanted: string, limit: nat)
    requires Sound(t) && Save(t, key, exclusions, hits).Some? && other in t.origins && 1 <= limit <= WIDTH
    ensures Find(Save(t, key, exclusions, hits).value, other, wanted, limit) == Find(t, other, wanted, limit)
  {
    hide Save, Find, Sound;
    SaveKeeps(t, key, exclusions, hits);
    FindGrown(t, Save(t, key, exclusions, hits).value, other, wanted, limit);
  }

  /** Under a saved key nothing but the same list can be saved ... */
  lemma OnlyReplays(t: Tables, key: Key, exclusions: string, hits: seq<Hit>, otherExclusions: string,
      otherHits: seq<Hit>)
    requires Sound(t) && Save(t, key, exclusions, hits).Some?
    requires Save(Save(t, key, exclusions, hits).value, key, otherExclusions, otherHits).Some?
    ensures otherExclusions == exclusions && otherHits == hits
  {
    hide Bind, Find;
    var after := Save(t, key, exclusions, hits).value;
    SaveKeeps(t, key, exclusions, hits);
    SaveThenFind(t, key, exclusions, hits, WIDTH);
    SaveThenFind(after, key, otherExclusions, otherHits, WIDTH);
    FindStable(after, key, otherExclusions, otherHits, key, exclusions, WIDTH);
    assert otherHits[..WIDTH] == otherHits && hits[..WIDTH] == hits;
  }

  /** ... and saving that again is accepted and changes nothing. */
  lemma ReplayIsAccepted(t: Tables, key: Key, exclusions: string, hits: seq<Hit>)
    requires Sound(t) && Save(t, key, exclusions, hits).Some?
    ensures Save(Save(t, key, exclusions, hits).value, key, exclusions, hits) == Save(t, key, exclusions, hits)
  {
    hide Bind;
    var after := Save(t, key, exclusions, hits).value;
    SaveKeeps(t, key, exclusions, hits);
    BindAgain(t.targets, after.targets, hits, |hits|);
    assert after.origins[key := after.origins[key]] == after.origins;
  }

  /** Binding hits that the dictionary already lists leaves it alone and finds the same slots. */
  lemma {:induction false} BindAgain(before: seq<Target>, targets: seq<Target>, hits: seq<Hit>, n: nat)
    requires n <= |hits| && OneEntryEach(before) && OneEntryEach(targets) && Bind(before, hits, n).Some?
    requires Bind(before, hits, n).value.0 <= targets
    ensures Bind(targets, hits, n) == Some((targets, Bind(before, hits, n).value.1))
  {
    if n > 0 {
      var (bound, ranks) := Bind(before, hits, n - 1).value;
      BindLists(before, hits, n - 1);
      var now := WithTarget(bound, hits[n - 1]);
      assert bound <= now;
      BindAgain(before, targets, hits, n - 1);
      var slot := SlotOf(now, hits[n - 1].vector);
      assert targets[slot] == now[slot];
      SlotFound(targets, slot);
    }
  }

  // ---------- lists that agree on their targets ----------

  /** Every target is the one the catalogue has for its vector. */
  ghost predicate Agrees(targets: seq<Target>, catalogue: string -> Target) {
    forall slot :: 0 <= slot < |targets| ==> targets[slot] == catalogue(targets[slot].vector)
  }

  /** A complete list in order, with the catalogue's targets. */
  ghost predicate Healthy(hits: seq<Hit>, catalogue: string -> Target) {
    && |hits| == WIDTH
    && forall i :: 0 <= i < |hits| ==> Usable(hits[i], hits[..i]) && TargetOf(hits[i]) == catalogue(hits[i].vector)
  }

  lemma WithTargetAgrees(targets: seq<Target>, hit: Hit, catalogue: string -> Target)
    requires Agrees(targets, catalogue) && TargetOf(hit) == catalogue(hit.vector)
    ensures var now := WithTarget(targets, hit); var slot := SlotOf(now, hit.vector);
            Agrees(now, catalogue) && slot < |now| && now[slot] == TargetOf(hit)
  {
    var now := WithTarget(targets, hit);
    var slot := SlotOf(now, hit.vector);
    if SlotOf(targets, hit.vector) == |targets| { assert now[|targets|].vector == hit.vector; }
    assert slot < |now| && now[slot].vector == hit.vector;
  }

  lemma {:induction false} BindHealthy(targets: seq<Target>, hits: seq<Hit>, n: nat, catalogue: string -> Target)
    requires Agrees(targets, catalogue) && Healthy(hits, catalogue) && n <= |hits|
    ensures Bind(targets, hits, n).Some? && Agrees(Bind(targets, hits, n).value.0, catalogue)
  {
    hide Bind, Agrees, Usable, WithTarget, SlotOf, TargetOf;
    if n == 0 {
      BindNothing(targets, hits);
    } else {
      BindOneMore(targets, hits, n - 1);
      BindHealthy(targets, hits, n - 1, catalogue);
      WithTargetAgrees(Bind(targets, hits, n - 1).value.0, hits[n - 1], catalogue);
    }
  }

  /** Under a key of its own such a list is always saved, and the tables keep agreeing. */
  lemma SaveHealthy(t: Tables, key: Key, exclusions: string, hits: seq<Hit>, catalogue: string -> Target)
    requires Agrees(t.targets, catalogue) && Healthy(hits, catalogue) && key !in t.origins
    ensures Save(t, key, exclusions, hits).Some? && Agrees(Save(t, key, exclusions, hits).value.targets, catalogue)
  {
    hide Bind, Agrees;
    BindHealthy(t.targets, hits, |hits|, catalogue);
  }

  /** Tables that only grew read a list as before. */
  lemma FindGrown(t: Tables, after: Tables, key: Key, wanted: string, limit: nat)
    requires Sound(t) && t.targets <= after.targets && key in t.origins && 1 <= limit <= WIDTH
    requires key in after.origins && after.origins[key] == t.origins[key]
    ensures Find(after, key, wanted, limit) == Find(t, key, wanted, limit)
  {
    var ranks := t.origins[key].ranks;
    var first := ranks[..limit];
    forall k | 0 <= k < limit
      ensures RankFits(t.targets, first, k) && RankFits(after.targets, first, k)
      ensures HitAt(t.targets, first[k]) == HitAt(after.targets, first[k])
    {
      assert first[k] == ranks[k];
      assert RankFits(t.targets, ranks, k);
    }
    assert HitsOf(t.targets, first) == HitsOf(after.targets, first);
  }

  // ---------- exactly what is saved and what is found ----------

  /** Distances from 0 to 2 in ascending order. */
  ghost predicate Ascends(distances: seq<real>) {
    && (forall k :: 0 <= k < |distances| ==> 0.0 <= distances[k] <= 2.0)
    && (forall j, k :: 0 <= j < k < |distances| ==> distances[j] <= distances[k])
  }

  ghost function DistancesOf(hits: seq<Hit>): seq<real> {
    seq(|hits|, k requires 0 <= k < |hits| => hits[k].distance)
  }

  ghost function RankDistances(ranks: seq<Rank>): seq<real> {
    seq(|ranks|, k requires 0 <= k < |ranks| => ranks[k].distance)
  }

  lemma {:induction false} NeighboursAscend(distances: seq<real>)
    requires forall k :: 0 <= k < |distances| ==> 0.0 <= distances[k] <= 2.0
    requires forall k :: 0 < k < |distances| ==> distances[k - 1] <= distances[k]
    ensures Ascends(distances)
  {
    if distances != [] {
      var front, last := distances[..|distances| - 1], |distances| - 1;
      NeighboursAscend(front);
      forall j, k | 0 <= j < k < |distances| ensures distances[j] <= distances[k] {
        if k == last && j < last { assert front[j] <= front[last - 1]; }
        if k < last { assert front[j] <= front[k]; }
      }
    }
  }

  /** A prefix of a list is found exactly when the list is stored for these exclusions with 55 ranks, and the ranks of
      the prefix are of different targets that are there, at distances from 0 to 2 in ascending order; a list that is
      stored otherwise is reported as corrupt, and one that is not stored as missing. */
  lemma FindsExactlyWhen(t: Tables, key: Key, exclusions: string, limit: nat)
    requires 1 <= limit <= WIDTH
    ensures Find(t, key, exclusions, limit).Miss? <==> key !in t.origins || t.origins[key].exclusions != exclusions
    ensures Find(t, key, exclusions, limit).Hits? <==>
      && key in t.origins && t.origins[key].exclusions == exclusions && |t.origins[key].ranks| == 55
      && var ranks := t.origins[key].ranks[..limit];
        && (forall k :: 0 <= k < limit ==> ranks[k].slot < |t.targets|)
        && (forall j, k :: 0 <= j < k < limit ==> ranks[j].slot != ranks[k].slot)
        && Ascends(RankDistances(ranks))
    ensures Find(t, key, exclusions, limit).Hits? ==>
      var hits, ranks := Find(t, key, exclusions, limit).hits, t.origins[key].ranks;
      && |hits| == limit
      && forall k :: 0 <= k < limit ==>
        && ranks[k].slot < |t.targets| && hits[k].distance == ranks[k].distance
        && Target(hits[k].vector, hits[k].paper, hits[k].bindings) == t.targets[ranks[k].slot]
  {
    if key in t.origins && |t.origins[key].ranks| == WIDTH {
      var ranks := t.origins[key].ranks[..limit];
      RanksAscend(t.targets, ranks);
    }
  }

  lemma RanksAscend(targets: seq<Target>, ranks: seq<Rank>)
    ensures (forall k :: 0 <= k < |ranks| ==> RankFits(targets, ranks, k)) <==>
      (forall k :: 0 <= k < |ranks| ==> ranks[k].slot < |targets|) && Ascends(RankDistances(ranks))
  {
    var d := RankDistances(ranks);
    if forall k :: 0 <= k < |ranks| ==> RankFits(targets, ranks, k) {
      forall k | 0 <= k < |d| ensures 0.0 <= d[k] <= 2.0 && ranks[k].slot < |targets| {
        assert RankFits(targets, ranks, k);
      }
      forall k | 0 < k < |d| ensures d[k - 1] <= d[k] { assert RankFits(targets, ranks, k); }
      NeighboursAscend(d);
    }
    if (forall k :: 0 <= k < |ranks| ==> ranks[k].slot < |targets|) && Ascends(d) {
      forall k | 0 <= k < |ranks| ensures RankFits(targets, ranks, k) {
        assert ranks[k].slot < |targets| && d[k] == ranks[k].distance && 0.0 <= d[k] <= 2.0;
        if k > 0 { assert d[k - 1] == ranks[k - 1].distance && d[k - 1] <= d[k]; }
      }
    }
  }

  /** Different vectors of papers, at distances from 0 to 2 in ascending order. */
  ghost predicate ProperList(hits: seq<Hit>) {
    && (forall k :: 0 <= k < |hits| ==> hits[k].vector != "" && hits[k].paper != "")
    && (forall j, k :: 0 <= j < k < |hits| ==> hits[j].vector != hits[k].vector)
    && Ascends(DistancesOf(hits))
  }

  /** Nothing known of these vectors is different. */
  ghost predicate NothingContrary(targets: seq<Target>, hits: seq<Hit>) {
    forall i, k :: 0 <= i < |targets| && 0 <= k < |hits| && targets[i].vector == hits[k].vector ==>
      targets[i] == Target(hits[k].vector, hits[k].paper, hits[k].bindings)
  }

  ghost predicate AllUsable(hits: seq<Hit>) {
    forall k :: 0 <= k < |hits| ==> Usable(hits[k], hits[..k])
  }

  lemma UsableIsProper(hits: seq<Hit>)
    ensures AllUsable(hits) <==> ProperList(hits)
  {
    var d := DistancesOf(hits);
    if AllUsable(hits) {
      forall k | 0 <= k < |hits| ensures 0.0 <= d[k] <= 2.0 && hits[k].vector != "" && hits[k].paper != "" {
        assert Usable(hits[k], hits[..k]);
      }
      forall k | 0 < k < |hits| ensures d[k - 1] <= d[k] {
        assert Usable(hits[k], hits[..k]) && hits[..k][k - 1] == hits[k - 1];
      }
      forall j, k | 0 <= j < k < |hits| ensures hits[j].vector != hits[k].vector {
        assert Usable(hits[k], hits[..k]) && hits[..k][j] == hits[j];
      }
      NeighboursAscend(d);
    }
    if ProperList(hits) {
      forall k | 0 <= k < |hits| ensures Usable(hits[k], hits[..k]) {
        assert d[k] == hits[k].distance && (k > 0 ==> d[k - 1] == hits[k - 1].distance && d[k - 1] <= d[k]);
      }
    }
  }

  ghost predicate NamedIn(hits: seq<Hit>, n: nat, vector: string) {
    exists k :: 0 <= k < n && k < |hits| && hits[k].vector == vector
  }

  /** The old targets, and behind them targets of the first hits. */
  ghost predicate Grown(targets: seq<Target>, bound: seq<Target>, hits: seq<Hit>, n: nat) {
    targets <= bound && forall i :: |targets| <= i < |bound| ==> NamedIn(hits, n, bound[i].vector)
  }

  /** Nothing known of the first hits' vectors is different. */
  ghost predicate Fits(targets: seq<Target>, hit: Hit) {
    forall i :: 0 <= i < |targets| && targets[i].vector == hit.vector ==> targets[i] == TargetOf(hit)
  }

  lemma ContraryOneByOne(targets: seq<Target>, hits: seq<Hit>)
    ensures NothingContrary(targets, hits) <==> forall k :: 0 <= k < |hits| ==> Fits(targets, hits[k])
  {
    if NothingContrary(targets, hits) {
      forall k | 0 <= k < |hits| ensures Fits(targets, hits[k]) {}
    }
    if forall k :: 0 <= k < |hits| ==> Fits(targets, hits[k]) {
      forall i, k | 0 <= i < |targets| && 0 <= k < |hits| && targets[i].vector == hits[k].vector
        ensures targets[i] == Target(hits[k].vector, hits[k].paper, hits[k].bindings)
      {
        assert Fits(targets, hits[k]);
      }
    }
  }

  /** Usable hits are bound exactly when none of them contradicts an old target. */
  lemma {:induction false} BindsExactlyWhen(targets: seq<Target>, hits: seq<Hit>, n: nat)
    requires n <= |hits| && OneEntryEach(targets) && ProperList(hits) && AllUsable(hits)
    ensures Bind(targets, hits, n).Some? <==> forall k :: 0 <= k < n ==> Fits(targets, hits[k])
    ensures Bind(targets, hits, n).Some? ==> Grown(targets, Bind(targets, hits, n).value.0, hits, n)
  {
    hide Bind, Fits, Grown, ProperList, OneEntryEach, Usable, WithTarget, SlotOf, TargetOf;
    if n == 0 {
      BindNothing(targets, hits);
      NothingGrown(targets, hits);
    } else {
      BindOneMore(targets, hits, n - 1);
      BindsExactlyWhen(targets, hits, n - 1);
      assert Usable(hits[n - 1], hits[..n - 1]);
      if Bind(targets, hits, n - 1).Some? {
        OneMoreBound(targets, Bind(targets, hits, n - 1).value.0, hits, n - 1);
      }
    }
  }

  lemma NothingGrown(targets: seq<Target>, hits: seq<Hit>)
    ensures Grown(targets, targets, hits, 0)
  {
  }

  lemma {:induction false} SlotOfNew(bound: seq<Target>, t: Target)
    requires SlotOf(bound, t.vector) == |bound|
    ensures SlotOf(bound + [t], t.vector) == |bound|
  {
    if bound != [] {
      assert (bound + [t])[1..] == bound[1..] + [t];
      SlotOfNew(bound[1..], t);
    }
  }

  lemma NotNamed(hits: seq<Hit>, n: nat)
    requires n < |hits| && ProperList(hits)
    ensures !NamedIn(hits, n, hits[n].vector)
  {
  }

  lemma NamedMore(hits: seq<Hit>, n: nat, vector: string)
    requires NamedIn(hits, n, vector) || (n < |hits| && vector == hits[n].vector)
    ensures NamedIn(hits, n + 1, vector)
  {
    if NamedIn(hits, n, vector) {
      var k :| 0 <= k < n && k < |hits| && hits[k].vector == vector;
    }
  }

  lemma OneMoreBound(targets: seq<Target>, bound: seq<Target>, hits: seq<Hit>, n: nat)
    requires n < |hits| && OneEntryEach(targets) && ProperList(hits) && Grown(targets, bound, hits, n)
    ensures var now := WithTarget(bound, hits[n]);
      var slot := SlotOf(now, hits[n].vector);
      slot < |now| && (now[slot] == TargetOf(hits[n]) <==> Fits(targets, hits[n])) && Grown(targets, now, hits, n + 1)
  {
    hide SlotOf, ProperList, NamedIn;
    var hit := hits[n];
    var now, slot := WithTarget(bound, hit), SlotOf(bound, hit.vector);
    NotNamed(hits, n);
    forall i | |targets| <= i < |now| ensures NamedIn(hits, n + 1, now[i].vector) {
      if i < |bound| { assert now[i] == bound[i]; }
      NamedMore(hits, n, now[i].vector);
    }
    if slot < |bound| {
      assert slot < |targets| && targets[slot] == bound[slot];
    } else {
      SlotOfNew(bound, TargetOf(hit));
      assert forall i :: 0 <= i < |targets| ==> targets[i] == bound[i];
    }
  }

  /** A list is saved under a new key exactly when it has 55 hits, on different vectors, at distances from 0 to 2 in
      ascending order, and no stored target says otherwise of one of its vectors. */
  lemma SavesExactlyWhen(t: Tables, key: Key, exclusions: string, hits: seq<Hit>)
    requires Sound(t) && key !in t.origins
    ensures Save(t, key, exclusions, hits).Some? <==>
      |hits| == 55 && ProperList(hits) && NothingContrary(t.targets, hits)
  {
    hide Bind, ProperList, NothingContrary, Usable, Fits;
    assert hits[..|hits|] == hits;
    UsableIsProper(hits);
    if Bind(t.targets, hits, |hits|).Some? { BoundAreUsable(t.targets, hits, |hits|); }
    if ProperList(hits) {
      BindsExactlyWhen(t.targets, hits, |hits|);
      ContraryOneByOne(t.targets, hits);
    }
  }

  lemma {:induction false} BoundAreUsable(targets: seq<Target>, hits: seq<Hit>, n: nat)
    requires n <= |hits| && Bind(targets, hits, n).Some?
    ensures forall k :: 0 <= k < n ==> Usable(hits[k], hits[..k])
  {
    hide Bind, Usable, WithTarget, SlotOf;
    if n > 0 {
      BindOneMore(targets, hits, n - 1);
      BoundAreUsable(targets, hits, n - 1);
    }
  }
}
