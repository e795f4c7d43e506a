/** Pyomo's ordered sets as duplicate-free sequences, and their union `A | B`: the members
    of A in their order, then the members of B that are not in A, in B's order. */
module OrderedSets {

  predicate Distinct<T(==,!new)>(xs: seq<T>)
  {
    forall i, j :: 0 <= i < j < |xs| ==> xs[i] != xs[j]
  }

  /** The members of b that are not members of a, in b's order. */
  function Without<T(==,!new)>(b: seq<T>, a: seq<T>): (r: seq<T>)
    ensures forall x :: x in r <==> x in b && x !in a
    ensures Distinct(b) ==> Distinct(r)
    decreases |b|
  {
    if b == [] then []
    else
      var rest := Without(b[1..], a);
      assert Distinct(b) ==> b[0] !in b[1..];
      assert Distinct(b) ==> Distinct(b[1..]) by {
        if Distinct(b) {
          forall i, j | 0 <= i < j < |b[1..]| ensures b[1..][i] != b[1..][j] {
            assert b[1..][i] == b[i + 1] && b[1..][j] == b[j + 1];
          }
        }
      }
      if b[0] in a then rest else [b[0]] + rest
  }

  /** Removing members of a that b does not have leaves b unchanged. */
  lemma {:induction false} WithoutDisjoint<T(!new)>(b: seq<T>, a: seq<T>)
    requires forall x :: x in b ==> x !in a
    ensures Without(b, a) == b
    decreases |b|
  {
    if b != [] {
      assert b[0] in b;
      forall x | x in b[1..] ensures x !in a {
        assert x in b;
      }
      WithoutDisjoint(b[1..], a);
      assert Without(b, a) == [b[0]] + Without(b[1..], a);
      assert b == [b[0]] + b[1..];
    }
  }

  /** Pyomo's `a | b` on ordered sets. */
  function Union<T(==,!new)>(a: seq<T>, b: seq<T>): (r: seq<T>)
    ensures forall x :: x in r <==> x in a || x in b
    ensures |r| >= |a| && r[..|a|] == a
    ensures Distinct(a) && Distinct(b) ==> Distinct(r)
  {
    var w := Without(b, a);
    assert Distinct(a) && Distinct(w) ==> Distinct(a + w) by {
      if Distinct(a) && Distinct(w) {
        forall i, j | 0 <= i < j < |a + w| ensures (a + w)[i] != (a + w)[j] {
          if j >= |a| && i < |a| {
            assert (a + w)[j] in w;
          }
        }
      }
    }
    a + w
  }

  /** ss[0] | ss[1] | ... | ss[|ss|-1], folded from the left. */
  function UnionAll<T(==,!new)>(ss: seq<seq<T>>): (r: seq<T>)
    ensures forall x :: x in r <==> exists k :: 0 <= k < |ss| && x in ss[k]
    decreases |ss|
  {
    if ss == [] then []
    else
      var front := ss[..|ss| - 1];
      var r := Union(UnionAll(front), ss[|ss| - 1]);
      assert forall x :: x in r <==> exists k :: 0 <= k < |ss| && x in ss[k] by {
        forall x ensures x in r <==> exists k :: 0 <= k < |ss| && x in ss[k] {
          if x in r && x !in ss[|ss| - 1] {
            var k :| 0 <= k < |front| && x in front[k];
            assert x in ss[k];
          }
          if exists k :: 0 <= k < |ss| && x in ss[k] {
            var k :| 0 <= k < |ss| && x in ss[k];
            if k < |ss| - 1 {
              assert x in front[k];
            }
          }
        }
      }
      r
  }

  /** The union of duplicate-free lists is duplicate-free. */
  lemma {:induction false} UnionAllDistinct<T(!new)>(ss: seq<seq<T>>)
    requires forall k :: 0 <= k < |ss| ==> Distinct(ss[k])
    ensures Distinct(UnionAll(ss))
    decreases |ss|
  {
    if ss != [] {
      var front := ss[..|ss| - 1];
      assert forall k :: 0 <= k < |front| ==> front[k] == ss[k];
      UnionAllDistinct(front);
    }
  }
}
