/** Bounded sample lists, kept sorted and cut to size while rows stream by. */
module SampleLists {
  import opened Wrappers
  import opened Order
  import opened Sorting

  function First<T>(s: seq<T>, limit: nat): (r: seq<T>)
    ensures |r| <= limit && |r| <= |s|
  {
    if |s| <= limit then s else s[..limit]
  }

  /** The samples among the rows: a row without a difference gives none. */
  function Candidates<T>(rows: seq<Option<T>>): seq<T> {
    if rows == [] then []
    else Candidates(rows[..|rows| - 1]) + if rows[|rows| - 1].Some? then [rows[|rows| - 1].value] else []
  }

  // ---------- where insertion happens ----------

  function Position<T(!new)>(s: seq<T>, x: T, le: (T, T) -> bool): (p: nat)
    ensures p <= |s| && (p > 0 ==> le(s[p - 1], x)) && forall i :: p <= i < |s| ==> !le(s[i], x)
  {
    if s == [] || le(s[|s| - 1], x) then |s| else Position(s[..|s| - 1], x, le)
  }

  /** A sequence with an element put in at a position. */
  function PutIn<T>(s: seq<T>, p: nat, x: T): seq<T>
    requires p <= |s|
  {
    s[..p] + [x] + s[p..]
  }

  lemma PutInFront<T>(s: seq<T>, p: nat, x: T)
    requires p < |s|
    ensures PutIn(s, p, x) == PutIn(s[..|s| - 1], p, x) + [s[|s| - 1]]
  {
    assert s[p..] == s[..|s| - 1][p..] + [s[|s| - 1]];
    assert s[..p] == s[..|s| - 1][..p];
  }

  lemma {:induction false} InsertAt<T(!new)>(s: seq<T>, x: T, le: (T, T) -> bool)
    ensures Insert(s, x, le) == PutIn(s, Position(s, x, le), x)
  {
    if s == [] || le(s[|s| - 1], x) {
      assert PutIn(s, |s|, x) == s + [x];
    } else {
      hide PutIn;
      InsertAt(s[..|s| - 1], x, le);
      PutInFront(s, Position(s[..|s| - 1], x, le), x);
    }
  }

  lemma BeforePosition<T(!new)>(s: seq<T>, x: T, le: (T, T) -> bool, i: nat)
    requires Preorder(le) && Ordered(s, le) && i < Position(s, x, le)
    ensures le(s[i], x)
  {
    hide Position;
    var last := s[Position(s, x, le) - 1];
    assert i < Position(s, x, le) - 1 ==> le(s[i], last);
  }

  lemma PositionIs<T(!new)>(s: seq<T>, x: T, le: (T, T) -> bool, p: nat)
    requires p <= |s| && (p > 0 ==> le(s[p - 1], x)) && forall i :: p <= i < |s| ==> !le(s[i], x)
    ensures Position(s, x, le) == p
  {
  }

  lemma PositionInCut<T(!new)>(s: seq<T>, x: T, le: (T, T) -> bool, limit: nat)
    requires Preorder(le) && Ordered(s, le) && limit < |s|
    ensures var p := Position(s, x, le); Position(s[..limit], x, le) == if p <= limit then p else limit
  {
    hide Position, Preorder, Ordered;
    var p := Position(s, x, le);
    var q := if p <= limit then p else limit;
    if q > 0 { BeforePosition(s, x, le, q - 1); }
    PositionIs(s[..limit], x, le, q);
  }

  lemma PutInThenCut<T>(s: seq<T>, p: nat, x: T, limit: nat)
    requires limit < |s| && p <= |s|
    ensures First(PutIn(s[..limit], if p <= limit then p else limit, x), limit) == First(PutIn(s, p, x), limit)
  {
    if p <= limit { assert s[..limit][..p] == s[..p]; }
  }

  /** What is cut off cannot come back: cutting before an insertion and after it is the same as cutting after it. */
  lemma CutBeforeInsert<T(!new)>(s: seq<T>, x: T, le: (T, T) -> bool, limit: nat)
    requires Preorder(le) && Ordered(s, le)
    ensures First(Insert(First(s, limit), x, le), limit) == First(Insert(s, x, le), limit)
  {
    hide Insert, PutIn, Position, Preorder, Ordered;
    if |s| > limit {
      InsertAt(s, x, le);
      InsertAt(s[..limit], x, le);
      PositionInCut(s, x, le, limit);
      PutInThenCut(s, Position(s, x, le), x, limit);
    }
  }

  /** As many candidates as the limit allows, in order, and each candidate left out is behind every one kept. */
  ghost predicate KeepsFirst<T(!new)>(samples: seq<T>, all: seq<T>, le: (T, T) -> bool, limit: nat) {
    && |samples| == (if |all| <= limit then |all| else limit)
    && Ordered(samples, le) && multiset(samples) <= multiset(all)
    && forall x, y :: x in multiset(all) - multiset(samples) && y in samples ==> le(y, x)
  }

  lemma SplitAt<T>(sorted: seq<T>, n: nat, all: seq<T>)
    requires n <= |sorted| && multiset(sorted) == multiset(all)
    ensures multiset(sorted[..n]) <= multiset(all) && multiset(all) - multiset(sorted[..n]) == multiset(sorted[n..])
  {
    assert sorted == sorted[..n] + sorted[n..];
  }

  lemma BehindKept<T(!new)>(sorted: seq<T>, n: nat, le: (T, T) -> bool, x: T, y: T)
    requires n <= |sorted| && Ordered(sorted, le) && x in sorted[n..] && y in sorted[..n]
    ensures le(y, x)
  {
    var i :| 0 <= i < n && sorted[..n][i] == y;
    var j :| 0 <= j < |sorted| - n && sorted[n..][j] == x;
    assert sorted[i] == y && sorted[n + j] == x;
  }

  lemma FirstOfSorted<T(!new)>(all: seq<T>, le: (T, T) -> bool, limit: nat)
    requires Preorder(le)
    ensures KeepsFirst(First(Sort(all, le), limit), all, le, limit)
  {
    SortOrdered(all, le);
    var sorted := Sort(all, le);
    var n := if |sorted| <= limit then |sorted| else limit;
    assert First(sorted, limit) == sorted[..n];
    hide *;
    SplitAt(sorted, n, all);
    KeptFirst(sorted, n, all, le, limit);
  }

  lemma KeptFirst<T(!new)>(sorted: seq<T>, n: nat, all: seq<T>, le: (T, T) -> bool, limit: nat)
    requires n == (if |all| <= limit then |all| else limit) && n <= |sorted| && Ordered(sorted, le)
    requires multiset(sorted[..n]) <= multiset(all) && multiset(all) - multiset(sorted[..n]) == multiset(sorted[n..])
    ensures KeepsFirst(sorted[..n], all, le, limit)
  {
    assert Ordered(sorted[..n], le);
    hide Ordered;
    forall x, y | x in multiset(all) - multiset(sorted[..n]) && y in sorted[..n] ensures le(y, x) {
      assert x in multiset(sorted[n..]);
      assert x in sorted[n..];
      BehindKept(sorted, n, le, x, y);
    }
  }

  // ---------- the streams ----------

  lemma NoCandidates<T>(rows: seq<Option<T>>)
    ensures Candidates(rows[..0]) == []
  {
  }

  lemma CandidatesStep<T>(rows: seq<Option<T>>, i: nat)
    requires i < |rows|
    ensures var before := Candidates(rows[..i]);
            Candidates(rows[..i + 1]) == if rows[i].Some? then before + [rows[i].value] else before
  {
    assert rows[..i + 1][..i] == rows[..i];
    assert Candidates(rows[..i]) + [] == Candidates(rows[..i]);
  }

  lemma InsertIsSort<T(!new)>(samples: seq<T>, x: T, le: (T, T) -> bool)
    requires Preorder(le) && Ordered(samples, le)
    ensures Sort(samples + [x], le) == Insert(samples, x, le)
  {
    SortOfOrdered(samples, le);
    assert (samples + [x])[..|samples|] == samples;
  }

  lemma StreamStep<T(!new)>(before: seq<T>, x: T, le: (T, T) -> bool, limit: nat)
    requires Preorder(le)
    ensures First(Sort(First(Sort(before, le), limit) + [x], le), limit) == First(Sort(before + [x], le), limit)
    ensures |Sort(First(Sort(before, le), limit) + [x], le)| <= limit + 1
  {
    SortOrdered(before, le);
    var sorted := Sort(before, le);
    InsertIsSort(First(sorted, limit), x, le);
    CutBeforeInsert(sorted, x, le, limit);
    assert (before + [x])[..|before|] == before;
  }

  /** Append, sort, and drop the last sample when there is one too many. */
  method StreamWithPop<T(!new)>(rows: seq<Option<T>>, le: (T, T) -> bool, limit: nat) returns (samples: seq<T>)
    requires Preorder(le)
    ensures samples == First(Sort(Candidates(rows), le), limit)
    ensures KeepsFirst(samples, Candidates(rows), le, limit)
  {
    hide Preorder, Sort, Candidates;
    samples := [];
    NoCandidates(rows);
    NothingSorted(le);
    for i := 0 to |rows|
      invariant samples == First(Sort(Candidates(rows[..i]), le), limit)
    {
      CandidatesStep(rows, i);
      if rows[i].Some? {
        StreamStep(Candidates(rows[..i]), rows[i].value, le, limit);
        samples := Sort(samples + [rows[i].value], le);
        if |samples| > limit { samples := samples[..|samples| - 1]; }
      }
    }
    assert rows[..|rows|] == rows;
    FirstOfSorted(Candidates(rows), le, limit);
  }

  /** The same with a cut at the limit, and nothing kept under a limit of zero. */
  method StreamWithCut<T(!new)>(rows: seq<Option<T>>, le: (T, T) -> bool, limit: nat) returns (samples: seq<T>)
    requires Preorder(le)
    ensures samples == First(Sort(Candidates(rows), le), limit)
    ensures KeepsFirst(samples, Candidates(rows), le, limit)
  {
    hide Preorder, Sort, Candidates;
    samples := [];
    NoCandidates(rows);
    NothingSorted(le);
    for i := 0 to |rows|
      invariant samples == First(Sort(Candidates(rows[..i]), le), limit)
    {
      CandidatesStep(rows, i);
      if rows[i].Some? && limit > 0 {
        StreamStep(Candidates(rows[..i]), rows[i].value, le, limit);
        samples := Sort(samples + [rows[i].value], le);
        samples := First(samples, limit);
      }
    }
    assert rows[..|rows|] == rows;
    FirstOfSorted(Candidates(rows), le, limit);
  }

  lemma NothingSorted<T(!new)>(le: (T, T) -> bool)
    ensures Sort([], le) == []
  {
  }

  // ---------- order of the rows ----------

  /** Where the sort key tells samples apart, the order of the rows does not matter. */
  lemma RowOrderDoesNotMatter<T(!new)>(rows: seq<Option<T>>, others: seq<Option<T>>, le: (T, T) -> bool, limit: nat)
    requires Preorder(le) && multiset(Candidates(rows)) == multiset(Candidates(others))
    requires Distinguishes(Sort(Candidates(rows), le), le)
    ensures First(Sort(Candidates(rows), le), limit) == First(Sort(Candidates(others), le), limit)
  {
    SortOrdered(Candidates(rows), le);
    SortOrdered(Candidates(others), le);
    OrderedUnique(Sort(Candidates(rows), le), Sort(Candidates(others), le), le);
  }

  // ---------- the two sort keys ----------

  /** A sample by its sort key and what it carries. */
  datatype Sample = Sample(scope: string, id: string, detail: string)

  predicate ById(a: Sample, b: Sample) { TextAtMost(a.id, b.id) }

  predicate ByScopeAndId(a: Sample, b: Sample) {
    TextLess(a.scope, b.scope) || (a.scope == b.scope && TextAtMost(a.id, b.id))
  }

  lemma KeysAreOrders()
    ensures Preorder(ById) && Preorder(ByScopeAndId)
  {
    forall a: Sample, b: Sample ensures (ById(a, b) || ById(b, a)) && (ByScopeAndId(a, b) || ByScopeAndId(b, a)) {
      TextOrder(a.id, b.id);
      TextOrder(a.scope, b.scope);
    }
    forall a: Sample, b: Sample, c: Sample
      ensures (ById(a, b) && ById(b, c) ==> ById(a, c))
      ensures (ByScopeAndId(a, b) && ByScopeAndId(b, c) ==> ByScopeAndId(a, c))
    {
      if ById(a, b) && ById(b, c) { TextTransitive(a.id, b.id, c.id); }
      TextOrder(a.scope, b.scope);
      TextOrder(b.scope, c.scope);
      if TextAtMost(a.scope, b.scope) && TextAtMost(b.scope, c.scope) { TextTransitive(a.scope, b.scope, c.scope); }
    }
  }

  ghost predicate UniqueIds(samples: seq<Sample>) {
    forall i, j :: 0 <= i < j < |samples| ==> samples[i].id != samples[j].id
  }

  /** With unique ids the property report's samples do not depend on the order of the rows. */
  lemma UniqueIdsDecide(rows: seq<Option<Sample>>, others: seq<Option<Sample>>, limit: nat)
    requires UniqueIds(Candidates(rows)) && multiset(Candidates(rows)) == multiset(Candidates(others))
    ensures First(Sort(Candidates(rows), ById), limit) == First(Sort(Candidates(others), ById), limit)
  {
    KeysAreOrders();
    hide Preorder, Sort;
    var s, sorted := Candidates(rows), Sort(Candidates(rows), ById);
    forall i, j | 0 <= i < |sorted| && 0 <= j < |sorted| && ById(sorted[i], sorted[j]) && ById(sorted[j], sorted[i])
      ensures sorted[i] == sorted[j]
    {
      TextOrder(sorted[i].id, sorted[j].id);
      FromMultiset(sorted, s, i);
      FromMultiset(sorted, s, j);
      var a :| 0 <= a < |s| && s[a] == sorted[i];
      var b :| 0 <= b < |s| && s[b] == sorted[j];
    }
    RowOrderDoesNotMatter(rows, others, ById, limit);
  }

  ghost predicate UniqueScopedIds(samples: seq<Sample>) {
    forall i, j :: 0 <= i < j < |samples| ==> samples[i].scope != samples[j].scope || samples[i].id != samples[j].id
  }

  /** With unique pairs of scope and id the same holds of the anomaly audit's samples. */
  lemma UniqueScopedIdsDecide(rows: seq<Option<Sample>>, others: seq<Option<Sample>>, limit: nat)
    requires UniqueScopedIds(Candidates(rows)) && multiset(Candidates(rows)) == multiset(Candidates(others))
    ensures First(Sort(Candidates(rows), ByScopeAndId), limit) == First(Sort(Candidates(others), ByScopeAndId), limit)
  {
    KeysAreOrders();
    hide Preorder, Sort;
    var s, sorted := Candidates(rows), Sort(Candidates(rows), ByScopeAndId);
    forall i, j | 0 <= i < |sorted| && 0 <= j < |sorted| && ByScopeAndId(sorted[i], sorted[j]) &&
      ByScopeAndId(sorted[j], sorted[i])
      ensures sorted[i] == sorted[j]
    {
      TextOrder(sorted[i].scope, sorted[j].scope);
      TextOrder(sorted[i].id, sorted[j].id);
      FromMultiset(sorted, s, i);
      FromMultiset(sorted, s, j);
      var a :| 0 <= a < |s| && s[a] == sorted[i];
      var b :| 0 <= b < |s| && s[b] == sorted[j];
    }
    RowOrderDoesNotMatter(rows, others, ByScopeAndId, limit);
  }

  lemma FromMultiset<T>(t: seq<T>, s: seq<T>, i: nat)
    requires multiset(t) == multiset(s) && i < |t|
    ensures t[i] in s
  {
    assert t[i] in multiset(t);
  }
}
