/** Lexicographic order on integer sequences: Python's order on strings (by code point)
    and the byte order of a "C" collation are both instances of it. */
module Order {

  predicate LexLess(a: seq<int>, b: seq<int>) {
    b != [] && (a == [] || a[0] < b[0] || (a[0] == b[0] && LexLess(a[1..], b[1..])))
  }

  /** The first place where two sequences differ decides, and a proper beginning comes first. */
  lemma {:induction false} FirstDifference(a: seq<int>, b: seq<int>)
    ensures LexLess(a, b) <==> a < b || exists i :: DiffersUpward(a, b, i)
  {
    if a != [] && b != [] && a[0] == b[0] {
      FirstDifference(a[1..], b[1..]);
      assert a < b <==> a[1..] < b[1..];
      if LexLess(a, b) && !(a < b) {
        var i :| DiffersUpward(a[1..], b[1..], i);
        assert a[..i + 1] == [a[0]] + a[1..][..i] && b[..i + 1] == [b[0]] + b[1..][..i];
        assert DiffersUpward(a, b, i + 1);
      }
      if i :| DiffersUpward(a, b, i) {
        assert a[1..][..i - 1] == a[..i][1..] && b[1..][..i - 1] == b[..i][1..];
        assert DiffersUpward(a[1..], b[1..], i - 1);
      }
    } else if a != [] && b != [] && a[0] < b[0] {
      assert DiffersUpward(a, b, 0);
    }
  }

  ghost predicate DiffersUpward(a: seq<int>, b: seq<int>, i: int) {
    0 <= i < |a| && i < |b| && a[..i] == b[..i] && a[i] < b[i]
  }

  lemma {:induction false} LexTrichotomy(a: seq<int>, b: seq<int>)
    ensures a == b ==> !LexLess(a, b)
    ensures LexLess(a, b) ==> !LexLess(b, a)
    ensures LexLess(a, b) || a == b || LexLess(b, a)
  {
    if a != [] && b != [] && a[0] == b[0] {
      LexTrichotomy(a[1..], b[1..]);
      assert a == [a[0]] + a[1..] && b == [b[0]] + b[1..];
    }
  }

  lemma {:induction false} LexTransitive(a: seq<int>, b: seq<int>, c: seq<int>)
    requires LexLess(a, b) && LexLess(b, c)
    ensures LexLess(a, c)
  {
    if a != [] && a[0] == b[0] == c[0] { LexTransitive(a[1..], b[1..], c[1..]); }
  }

  function Codes(s: string): (codes: seq<int>)
    ensures |codes| == |s|
  {
    seq(|s|, i requires 0 <= i < |s| => s[i] as int)
  }

  lemma CodesInjective(a: string, b: string)
    requires Codes(a) == Codes(b)
    ensures a == b
  {
    forall i | 0 <= i < |a| ensures a[i] == b[i] { assert Codes(a)[i] == Codes(b)[i]; }
  }

  /** Python's `<` on strings. */
  predicate TextLess(a: string, b: string) {
    LexLess(Codes(a), Codes(b))
  }

  predicate TextAtMost(a: string, b: string) {
    !TextLess(b, a)
  }

  lemma TextOrder(a: string, b: string)
    ensures TextLess(a, b) ==> !TextLess(b, a) && a != b
    ensures TextLess(a, b) || a == b || TextLess(b, a)
  {
    LexTrichotomy(Codes(a), Codes(b));
    if !TextLess(a, b) && !TextLess(b, a) { CodesInjective(a, b); }
  }

  /** Text comes before text by its first character that differs, or as a proper beginning. */
  lemma TextFirstDifference(a: string, b: string)
    ensures TextLess(a, b) <==> a < b || exists i :: 0 <= i < |a| && i < |b| && a[..i] == b[..i] && a[i] < b[i]
  {
    FirstDifference(Codes(a), Codes(b));
    forall i | 0 <= i <= |a| && i <= |b| ensures Codes(a)[..i] == Codes(b)[..i] <==> a[..i] == b[..i] {
      assert Codes(a)[..i] == Codes(a[..i]) && Codes(b)[..i] == Codes(b[..i]);
      if Codes(a)[..i] == Codes(b)[..i] { CodesInjective(a[..i], b[..i]); }
    }
    if |a| < |b| { assert Codes(a) < Codes(b) <==> Codes(a)[..|a|] == Codes(b)[..|a|]; assert a == a[..|a|]; }
    forall i | DiffersUpward(Codes(a), Codes(b), i) ensures a[..i] == b[..i] && a[i] < b[i] {}
    forall i | 0 <= i < |a| && i < |b| && a[..i] == b[..i] && a[i] < b[i]
      ensures DiffersUpward(Codes(a), Codes(b), i)
    {
    }
  }

  lemma TextTransitive(a: string, b: string, c: string)
    requires TextAtMost(a, b) && TextAtMost(b, c)
    ensures TextAtMost(a, c)
    ensures TextLess(a, b) || TextLess(b, c) ==> TextLess(a, c)
  {
    TextOrder(a, b);
    TextOrder(b, c);
    TextOrder(a, c);
    if TextLess(a, b) && TextLess(b, c) { LexTransitive(Codes(a), Codes(b), Codes(c)); }
    if TextLess(c, a) && TextLess(a, b) { LexTransitive(Codes(c), Codes(a), Codes(b)); }
  }
}
