/** Python's stable `sorted`, as an insertion sort over an order given as a predicate. */
module Sorting {

  ghost predicate Preorder<T(!new)>(le: (T, T) -> bool) {
    && (forall a, b :: le(a, b) || le(b, a))
    && (forall a, b, c :: le(a, b) && le(b, c) ==> le(a, c))
  }

  ghost predicate Ordered<T(!new)>(s: seq<T>, le: (T, T) -> bool) {
    forall i, j :: 0 <= i < j < |s| ==> le(s[i], s[j])
  }

  /** Insertion behind every element that is at most `x`. */
  function Insert<T(!new)>(s: seq<T>, x: T, le: (T, T) -> bool): (r: seq<T>)
    ensures multiset(r) == multiset(s) + multiset{x}
    ensures |r| == |s| + 1
  {
    if s == [] || le(s[|s| - 1], x) then s + [x]
    else
      assert s == s[..|s| - 1] + [s[|s| - 1]];
      Insert(s[..|s| - 1], x, le) + [s[|s| - 1]]
  }

  function Sort<T(!new)>(s: seq<T>, le: (T, T) -> bool): (r: seq<T>)
    ensures multiset(r) == multiset(s)
    ensures |r| == |s|
  {
    if s == [] then [] else
    assert s == s[..|s| - 1] + [s[|s| - 1]];
    Insert(Sort(s[..|s| - 1], le), s[|s| - 1], le)
  }

  lemma {:induction false} InsertOrdered<T(!new)>(s: seq<T>, x: T, le: (T, T) -> bool)
    requires Preorder(le) && Ordered(s, le)
    ensures Ordered(Insert(s, x, le), le)
  {
    if s != [] && !le(s[|s| - 1], x) {
      var rest := Insert(s[..|s| - 1], x, le);
      InsertOrdered(s[..|s| - 1], x, le);
      forall i | 0 <= i < |rest| ensures le(rest[i], s[|s| - 1]) {
        assert rest[i] in multiset(rest);
        assert rest[i] in multiset(s[..|s| - 1]) || rest[i] == x;
        if rest[i] in multiset(s[..|s| - 1]) { assert rest[i] in s[..|s| - 1]; }
      }
    }
  }

  lemma {:induction false} SortOrdered<T(!new)>(s: seq<T>, le: (T, T) -> bool)
    requires Preorder(le)
    ensures Ordered(Sort(s, le), le)
  {
    if s != [] {
      SortOrdered(s[..|s| - 1], le);
      InsertOrdered(Sort(s[..|s| - 1], le), s[|s| - 1], le);
    }
  }

  lemma {:induction false} SortOfOrdered<T(!new)>(s: seq<T>, le: (T, T) -> bool)
    requires Ordered(s, le)
    ensures Sort(s, le) == s
  {
    if s != [] {
      SortOfOrdered(s[..|s| - 1], le);
      assert |s| > 1 ==> le(s[..|s| - 1][|s| - 2], s[|s| - 1]);
    }
  }

  /** The elements that the order does not tell from `a`, in their order. */
  ghost function Ties<T(!new)>(s: seq<T>, a: T, le: (T, T) -> bool): seq<T> {
    if s == [] then []
    else
      var last := s[|s| - 1];
      Ties(s[..|s| - 1], a, le) + if le(a, last) && le(last, a) then [last] else []
  }

  lemma TiesMore<T(!new)>(s: seq<T>, x: T, a: T, le: (T, T) -> bool)
    ensures Ties(s + [x], a, le) == Ties(s, a, le) + if le(a, x) && le(x, a) then [x] else []
  {
    assert (s + [x])[..|s|] == s;
  }

  lemma {:induction false} InsertTies<T(!new)>(s: seq<T>, x: T, a: T, le: (T, T) -> bool)
    requires Preorder(le) && Ordered(s, le)
    ensures Ties(Insert(s, x, le), a, le) == Ties(s, a, le) + if le(a, x) && le(x, a) then [x] else []
  {
    hide Ties, Preorder;
    if s == [] || le(s[|s| - 1], x) {
      TiesMore(s, x, a, le);
    } else {
      var front, last := s[..|s| - 1], s[|s| - 1];
      InsertTies(front, x, a, le);
      TiesMore(Insert(front, x, le), last, a, le);
      TiesMore(front, last, a, le);
      assert front + [last] == s;
      NotBothTied(x, last, a, le);
    }
  }

  lemma NotBothTied<T(!new)>(x: T, last: T, a: T, le: (T, T) -> bool)
    requires Preorder(le) && !le(last, x)
    ensures !(le(a, x) && le(x, a) && le(a, last) && le(last, a))
  {
  }

  /** The sort is stable: elements that the order does not tell apart keep their order. */
  lemma {:induction false} SortIsStable<T(!new)>(s: seq<T>, a: T, le: (T, T) -> bool)
    requires Preorder(le)
    ensures Ties(Sort(s, le), a, le) == Ties(s, a, le)
  {
    if s != [] {
      hide Ties, Preorder, Insert;
      var front, last := s[..|s| - 1], s[|s| - 1];
      SortIsStable(front, a, le);
      SortOrdered(front, le);
      InsertTies(Sort(front, le), last, a, le);
      TiesMore(front, last, a, le);
      assert front + [last] == s;
    }
  }

  ghost predicate Distinguishes<T(!new)>(s: seq<T>, le: (T, T) -> bool) {
    forall i, j :: 0 <= i < |s| && 0 <= j < |s| && le(s[i], s[j]) && le(s[j], s[i]) ==> s[i] == s[j]
  }

  lemma LastAgrees<T(!new)>(s: seq<T>, t: seq<T>, le: (T, T) -> bool)
    requires multiset(s) == multiset(t) && Ordered(s, le) && Ordered(t, le) && Distinguishes(s, le)
    requires 0 < |s| && 0 < |t|
    ensures s[|s| - 1] == t[|t| - 1]
  {
    var a, b := s[|s| - 1], t[|t| - 1];
    assert a in multiset(t) && b in multiset(s);
    var i :| 0 <= i < |t| && t[i] == a;
    var j :| 0 <= j < |s| && s[j] == b;
    assert i < |t| - 1 ==> le(t[i], b);
    assert j < |s| - 1 ==> le(s[j], a);
  }

  function Without<T>(s: seq<T>, i: nat): seq<T>
    requires i < |s|
  {
    s[..i] + s[i + 1..]
  }

  lemma MultisetRemove<T>(s: seq<T>, i: nat)
    requires i < |s|
    ensures multiset(Without(s, i)) == multiset(s) - multiset{s[i]}
  {
    assert s == s[..i] + [s[i]] + s[i + 1..];
  }

  lemma SameLength<T>(s: seq<T>, t: seq<T>)
    requires multiset(s) == multiset(t)
    ensures |s| == |t|
  {
    assert |s| == |multiset(s)|;
    assert |t| == |multiset(t)|;
  }

  lemma FrontAgrees<T(!new)>(s: seq<T>, t: seq<T>, a: T)
    requires multiset(s + [a]) == multiset(t + [a])
    ensures multiset(s) == multiset(t)
  {
    assert multiset(s) == multiset(s + [a]) - multiset{a};
    assert multiset(t) == multiset(t + [a]) - multiset{a};
  }

  /** Two ordered arrangements of the same elements agree when the order tells elements apart. */
  lemma {:induction false} OrderedUnique<T(!new)>(s: seq<T>, t: seq<T>, le: (T, T) -> bool)
    requires multiset(s) == multiset(t) && Ordered(s, le) && Ordered(t, le) && Distinguishes(s, le)
    ensures s == t
  {
    SameLength(s, t);
    if s != [] {
      LastAgrees(s, t, le);
      var n := |s| - 1;
      var s', t' := s[..n], t[..n];
      assert s == s' + [s[n]] && t == t' + [s[n]];
      FrontAgrees(s', t', s[n]);
      OrderedUnique(s', t', le);
    }
  }
}
