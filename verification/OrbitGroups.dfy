/** The images of one site under the declared operations, each grouped with the first kept image that it is near. */
module OrbitGroups {
  import opened Lattice

  /** A kept image: the operation that gave it, and all operations whose image was found near it. */
  datatype Group = Group(representative: nat, members: seq<nat>)

  // ---------- which operation represents which ----------

  predicate Below(s: seq<nat>, n: nat) {
    forall k :: 0 <= k < |s| ==> s[k] < n
  }

  /** The position in `reps` of the first representative near point `i`, or `|reps|`. */
  function FirstNear<P>(points: seq<P>, near: (P, P) -> bool, reps: seq<nat>, i: nat): (g: nat)
    requires i < |points| && Below(reps, |points|)
    ensures g <= |reps| && (g < |reps| ==> near(points[i], points[reps[g]]))
    ensures forall h :: 0 <= h < g ==> !near(points[i], points[reps[h]])
  {
    if reps == [] then 0
    else if near(points[i], points[reps[0]]) then 0
    else 1 + FirstNear(points, near, reps[1..], i)
  }

  /** The representatives among the first `n` points: those near no earlier representative. */
  function Reps<P>(points: seq<P>, near: (P, P) -> bool, n: nat): (reps: seq<nat>)
    requires n <= |points|
    ensures Below(reps, n)
  {
    if n == 0 then []
    else
      var reps := Reps(points, near, n - 1);
      if FirstNear(points, near, reps, n - 1) < |reps| then reps else reps + [n - 1]
  }

  function RepOf<P>(points: seq<P>, near: (P, P) -> bool, i: nat): (r: nat)
    requires i < |points|
    ensures r <= i
  {
    var reps := Reps(points, near, i);
    var g := FirstNear(points, near, reps, i);
    if g < |reps| then reps[g] else i
  }

  function Members<P>(points: seq<P>, near: (P, P) -> bool, rep: nat, n: nat): seq<nat>
    requires n <= |points|
  {
    if n == 0 then []
    else Members(points, near, rep, n - 1) + if RepOf(points, near, n - 1) == rep then [n - 1] else []
  }

  ghost predicate GroupsAre<P>(points: seq<P>, near: (P, P) -> bool, n: nat, groups: seq<Group>)
    requires n <= |points|
  {
    && |groups| == |Reps(points, near, n)|
    && forall g :: 0 <= g < |groups| ==>
         groups[g].representative == Reps(points, near, n)[g] &&
           groups[g].members == Members(points, near, groups[g].representative, n)
  }

  /** The grouping loop: each operation joins the first near group, or opens one. */
  method GroupOrbit<P>(points: seq<P>, near: (P, P) -> bool) returns (groups: seq<Group>)
    ensures GroupsAre(points, near, |points|, groups)
  {
    groups := [];
    NoGroups(points, near);
    hide GroupsAre, Reps, Members, FirstNear;
    for i := 0 to |points|
      invariant GroupsAre(points, near, i, groups)
    {
      ghost var reps := Reps(points, near, i);
      RepresentativesAre(points, near, i, groups);
      var g := 0;
      while g < |groups| && !near(points[i], points[groups[g].representative])
        invariant 0 <= g <= |groups| && forall h :: 0 <= h < g ==> !near(points[i], points[reps[h]])
      {
        g := g + 1;
      }
      FirstNearIs(points, near, reps, i, g);
      if g < |groups| {
        JoinsGroup(points, near, i, groups, g);
        groups := groups[g := groups[g].(members := groups[g].members + [i])];
      } else {
        OpensGroup(points, near, i, groups);
        groups := groups + [Group(i, [i])];
      }
    }
  }

  lemma NoGroups<P>(points: seq<P>, near: (P, P) -> bool)
    ensures GroupsAre(points, near, 0, [])
  {
  }

  lemma RepresentativesAre<P>(points: seq<P>, near: (P, P) -> bool, n: nat, groups: seq<Group>)
    requires n <= |points| && GroupsAre(points, near, n, groups)
    ensures |groups| == |Reps(points, near, n)| && forall k :: 0 <= k < |groups| ==>
      groups[k].representative == Reps(points, near, n)[k]
  {
    hide Reps, Members;
  }

  lemma FirstNearIs<P>(points: seq<P>, near: (P, P) -> bool, reps: seq<nat>, i: nat, g: nat)
    requires i < |points| && Below(reps, |points|) && g <= |reps|
    requires forall h :: 0 <= h < g ==> !near(points[i], points[reps[h]])
    requires g < |reps| ==> near(points[i], points[reps[g]])
    ensures FirstNear(points, near, reps, i) == g
  {
  }

  lemma JoinsGroup<P>(points: seq<P>, near: (P, P) -> bool, i: nat, groups: seq<Group>, g: nat)
    requires i < |points| && GroupsAre(points, near, i, groups)
    requires g == FirstNear(points, near, Reps(points, near, i), i) < |groups|
    ensures GroupsAre(points, near, i + 1, groups[g := groups[g].(members := groups[g].members + [i])])
  {
    hide FirstNear;
    RepsDistinct(points, near, i);
    assert Reps(points, near, i + 1) == Reps(points, near, i);
    hide Reps;
    forall h | 0 <= h < |groups| && h != g
      ensures Members(points, near, groups[h].representative, i) + [] == groups[h].members {}
  }

  lemma OpensGroup<P>(points: seq<P>, near: (P, P) -> bool, i: nat, groups: seq<Group>)
    requires i < |points| && GroupsAre(points, near, i, groups)
    requires FirstNear(points, near, Reps(points, near, i), i) == |groups|
    ensures GroupsAre(points, near, i + 1, groups + [Group(i, [i])])
  {
    hide FirstNear;
    var reps := Reps(points, near, i);
    assert Reps(points, near, i + 1) == reps + [i];
    assert RepOf(points, near, i) == i;
    hide Reps, RepOf;
    NoMembersYet(points, near, i, i);
    forall h | 0 <= h < |groups| ensures Members(points, near, groups[h].representative, i) + [] == groups[h].members {}
  }

  lemma {:induction false} RepsDistinct<P>(points: seq<P>, near: (P, P) -> bool, n: nat)
    requires n <= |points|
    ensures forall g, h :: 0 <= g < h < |Reps(points, near, n)| ==> Reps(points, near, n)[g] < Reps(points, near, n)[h]
  {
    if n > 0 { RepsDistinct(points, near, n - 1); }
  }

  lemma {:induction false} NoMembersYet<P>(points: seq<P>, near: (P, P) -> bool, rep: nat, n: nat)
    requires n <= rep && n <= |points|
    ensures Members(points, near, rep, n) == []
  {
    hide RepOf;
    if n > 0 { NoMembersYet(points, near, rep, n - 1); }
  }

  // ---------- what the groups are ----------

  /** Kept images are pairwise apart: none is near one kept before it. */
  lemma {:induction false} RepsApart<P>(points: seq<P>, near: (P, P) -> bool, n: nat, g: nat, h: nat)
    requires n <= |points| && g < h < |Reps(points, near, n)|
    ensures !near(points[Reps(points, near, n)[h]], points[Reps(points, near, n)[g]])
  {
    if h < |Reps(points, near, n - 1)| { RepsApart(points, near, n - 1, g, h); }
  }

  lemma {:induction false} RepIsKept<P>(points: seq<P>, near: (P, P) -> bool, n: nat, i: nat)
    requires i < n <= |points|
    ensures RepOf(points, near, i) in Reps(points, near, n)
  {
    if i < n - 1 { RepIsKept(points, near, n - 1, i); }
  }

  lemma {:induction false} MembersAre<P>(points: seq<P>, near: (P, P) -> bool, rep: nat, n: nat, i: nat)
    requires n <= |points|
    ensures i in Members(points, near, rep, n) <==> i < n && RepOf(points, near, i) == rep
  {
    hide RepOf;
    if n > 0 { MembersAre(points, near, rep, n - 1, i); }
  }

  predicate Ascending(s: seq<nat>) {
    forall a, b :: 0 <= a < b < |s| ==> s[a] < s[b]
  }

  lemma AscendingSnoc(s: seq<nat>, n: nat)
    requires Ascending(s) && Below(s, n)
    ensures Ascending(s + [n]) && s + [] == s
  {
  }

  lemma {:induction false} MembersAscend<P>(points: seq<P>, near: (P, P) -> bool, rep: nat, n: nat)
    requires n <= |points|
    ensures Ascending(Members(points, near, rep, n))
  {
    hide RepOf;
    if n > 0 {
      MembersAscend(points, near, rep, n - 1);
      var m := Members(points, near, rep, n - 1);
      forall a | 0 <= a < |m| ensures m[a] < n - 1 { MembersAre(points, near, rep, n - 1, m[a]); }
      AscendingSnoc(m, n - 1);
    }
  }

  /** Each operation is in exactly one group: that of the first representative it is near. */
  lemma GroupsPartition<P>(points: seq<P>, near: (P, P) -> bool, groups: seq<Group>, i: nat) returns (g: nat)
    requires GroupsAre(points, near, |points|, groups) && i < |points|
    ensures g < |groups| && groups[g].representative < |points|
    ensures forall h :: 0 <= h < |groups| ==> (i in groups[h].members <==> h == g)
    ensures near(points[i], points[groups[g].representative]) || i == groups[g].representative
    ensures forall h :: 0 <= h < g && groups[h].representative <= i ==>
      !near(points[i], points[groups[h].representative])
  {
    hide FirstNear, Members, Reps;
    var reps := Reps(points, near, |points|);
    RepIsKept(points, near, |points|, i);
    RepsDistinct(points, near, |points|);
    g :| 0 <= g < |reps| && reps[g] == RepOf(points, near, i);
    hide RepOf;
    NearOwnRep(points, near, i);
    forall h | 0 <= h < |groups|
      ensures i in groups[h].members <==> h == g
    {
      MembersAre(points, near, reps[h], |points|, i);
    }
    forall h | 0 <= h < g && reps[h] <= i
      ensures !near(points[i], points[reps[h]])
    {
      EarlierAreFar(points, near, |points|, i, g, h);
    }
  }

  lemma NearOwnRep<P>(points: seq<P>, near: (P, P) -> bool, i: nat)
    requires i < |points|
    ensures near(points[i], points[RepOf(points, near, i)]) || RepOf(points, near, i) == i
  {
  }

  lemma {:induction false} EarlierReps<P>(points: seq<P>, near: (P, P) -> bool, i: nat, n: nat)
    requires i <= n <= |points|
    ensures |Reps(points, near, i)| <= |Reps(points, near, n)|
    ensures Reps(points, near, n)[..|Reps(points, near, i)|] == Reps(points, near, i)
    ensures forall g :: |Reps(points, near, i)| <= g < |Reps(points, near, n)| ==> Reps(points, near, n)[g] >= i
  {
    if i < n { EarlierReps(points, near, i, n - 1); }
  }

  lemma EarlierAreFar<P>(points: seq<P>, near: (P, P) -> bool, n: nat, i: nat, g: nat, h: nat)
    requires i < n <= |points| && h < g < |Reps(points, near, n)| && Reps(points, near, n)[g] == RepOf(points, near, i)
    requires Reps(points, near, n)[h] <= i
    ensures !near(points[i], points[Reps(points, near, n)[h]])
  {
    EarlierReps(points, near, i, n);
    RepsDistinct(points, near, n);
    var reps := Reps(points, near, i);
    assert Reps(points, near, n)[h] < Reps(points, near, n)[g] <= i;
    assert reps[h] == Reps(points, near, n)[h];
    var f := FirstNear(points, near, reps, i);
    if f < |reps| { assert Reps(points, near, n)[f] == reps[f]; }
  }

  ghost predicate Equivalence<P>(points: seq<P>, near: (P, P) -> bool) {
    && (forall i :: 0 <= i < |points| ==> near(points[i], points[i]))
    && (forall i, j :: 0 <= i < |points| && 0 <= j < |points| && near(points[i], points[j]) ==>
         near(points[j], points[i]))
    && (forall i, j, k :: 0 <= i < |points| && 0 <= j < |points| && 0 <= k < |points| ==>
         (near(points[i], points[j]) && near(points[j], points[k]) ==> near(points[i], points[k])))
  }

  lemma Through<P>(points: seq<P>, near: (P, P) -> bool, i: nat, j: nat, k: nat)
    requires Equivalence(points, near) && i < |points| && j < |points| && k < |points| && near(points[i], points[j])
    requires near(points[j], points[k])
    ensures near(points[i], points[k]) && near(points[k], points[i])
  {
    assert near(points[i], points[k]);
  }

  lemma RepsFar<P>(points: seq<P>, near: (P, P) -> bool, i: nat, j: nat)
    requires i < |points| && j < |points| && RepOf(points, near, i) != RepOf(points, near, j)
    ensures var a, b := RepOf(points, near, i), RepOf(points, near, j);
            !near(points[a], points[b]) || !near(points[b], points[a])
  {
    hide Reps, FirstNear, RepOf;
    var n, a, b := |points|, RepOf(points, near, i), RepOf(points, near, j);
    RepIsKept(points, near, n, i);
    RepIsKept(points, near, n, j);
    var g :| 0 <= g < |Reps(points, near, n)| && Reps(points, near, n)[g] == a;
    var h :| 0 <= h < |Reps(points, near, n)| && Reps(points, near, n)[h] == b;
    if g < h { RepsApart(points, near, n, g, h); } else { RepsApart(points, near, n, h, g); }
  }

  /** Where nearness is an equivalence on the images, the groups are its classes. */
  lemma GroupsAreClasses<P>(points: seq<P>, near: (P, P) -> bool, i: nat, j: nat)
    requires Equivalence(points, near) && i < |points| && j < |points|
    ensures RepOf(points, near, i) == RepOf(points, near, j) <==> near(points[i], points[j])
  {
    hide Equivalence, Reps, FirstNear, RepOf;
    var a, b := RepOf(points, near, i), RepOf(points, near, j);
    NearRep(points, near, i);
    NearRep(points, near, j);
    if a == b {
      Through(points, near, i, a, j);
    } else if near(points[i], points[j]) {
      Through(points, near, a, i, j);
      Through(points, near, a, j, b);
      RepsFar(points, near, i, j);
    }
  }

  lemma NearRep<P>(points: seq<P>, near: (P, P) -> bool, i: nat)
    requires i < |points| && Equivalence(points, near)
    ensures near(points[i], points[RepOf(points, near, i)]) && near(points[RepOf(points, near, i)], points[i])
  {
  }

  /** With the exact image search as nearness, no integer shift brings two kept images closer than the tolerance, and
      some shift brings every image that close to the one kept for it. */
  lemma KeptImagesApart(cell: Matrix, frac: Matrix, radii: Vec, tolerance: real, points: seq<Vec>, g: nat, h: nat)
    requires Inverts(frac, cell) && Radii(frac, tolerance, radii)
    ensures var near := (p: Vec, q: Vec) => SamePeriodicPoint(cell, radii, tolerance, p, q);
      var reps := Reps(points, near, |points|);
      && (g < |reps| && h < |reps| && g != h ==> !SomeImageNear(cell, tolerance, points[reps[g]], points[reps[h]]))
      && (forall i :: 0 <= i < |points| && RepOf(points, near, i) != i ==>
           SomeImageNear(cell, tolerance, points[i], points[RepOf(points, near, i)]))
  {
    hide Inverts, Radii, SamePeriodicPoint, SomeImageNear, Reps, RepOf;
    var near := (p: Vec, q: Vec) => SamePeriodicPoint(cell, radii, tolerance, p, q);
    var reps := Reps(points, near, |points|);
    if g < |reps| && h < |reps| && g != h {
      RepsApart(points, near, |points|, if g < h then g else h, if g < h then h else g);
      SearchIsSymmetric(cell, frac, radii, tolerance, points[reps[g]], points[reps[h]]);
      SearchIsExact(cell, frac, radii, tolerance, points[reps[g]], points[reps[h]]);
    }
    forall i | 0 <= i < |points| && RepOf(points, near, i) != i
      ensures SomeImageNear(cell, tolerance, points[i], points[RepOf(points, near, i)])
    {
      NearOwnRep(points, near, i);
      SearchIsExact(cell, frac, radii, tolerance, points[i], points[RepOf(points, near, i)]);
    }
  }
}
