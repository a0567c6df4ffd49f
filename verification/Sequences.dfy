/** Sequences without repetition, sequences of sequences put together, and sequences inside others. */
module Sequences {
  predicate Distinct<T(==)>(s: seq<T>) {
    forall i, j :: 0 <= i < j < |s| ==> s[i] != s[j]
  }

  function Flatten<T>(parts: seq<seq<T>>): seq<T> {
    if parts == [] then [] else Flatten(parts[..|parts| - 1]) + parts[|parts| - 1]
  }

  lemma {:induction false} FlattenFirst<T>(parts: seq<seq<T>>)
    requires parts != []
    ensures Flatten(parts) == parts[0] + Flatten(parts[1..])
  {
    var n := |parts| - 1;
    if n == 0 {
      assert parts[..0] == [] && parts[1..] == [];
      assert Flatten(parts) == [] + parts[0] == parts[0] + [];
    } else {
      FlattenFirst(parts[..n]);
      assert parts[..n][1..] == parts[1..][..n - 1];
      assert parts[0] + (Flatten(parts[1..n]) + parts[n]) == (parts[0] + Flatten(parts[1..n])) + parts[n];
    }
  }

  /** A sequence stands in another one at a position. */
  predicate Stands<T(==)>(s: seq<T>, i: nat, t: seq<T>) {
    i + |t| <= |s| && s[i..i + |t|] == t
  }

  lemma StandsParts<T>(s: seq<T>, i: nat, a: seq<T>, b: seq<T>)
    requires Stands(s, i, a + b)
    ensures Stands(s, i, a) && Stands(s, i + |a|, b) && i + |a| + |b| <= |s|
  {
    var t := a + b;
    assert s[i..i + |a|] == t[..|a|];
    assert s[i + |a|..i + |t|] == t[|a|..];
  }

  lemma StandsAll<T>(s: seq<T>)
    ensures Stands(s, 0, s)
  {
  }

  lemma StandsChar<T>(s: seq<T>, i: nat, t: seq<T>, k: nat)
    requires Stands(s, i, t) && k < |t|
    ensures i + |t| <= |s| && s[i + k] == t[k]
  {
  }
}
