/** Least elements of finite sets of integers, and their elements in order. */
module Sorting {
  import opened Basics

  ghost predicate IsLeast(n: int, s: set<int>) { n in s && forall m | m in s :: n <= m }

  ghost function Pick<T>(s: set<T>): (k: T)
    requires s != {}
    ensures k in s
  {
    var k :| k in s;
    k
  }

  lemma {:induction false} LeastExists(s: set<int>)
    requires s != {}
    ensures exists n :: IsLeast(n, s)
  {
    var k := Pick(s);
    if s - {k} == {} {
      assert s == {k};
      assert IsLeast(k, s);
    } else {
      LeastExists(s - {k});
      var n :| IsLeast(n, s - {k});
      assert forall m | m in s :: m == k || m in s - {k};
      assert IsLeast(Min(k, n), s);
    }
  }

  ghost function Least(s: set<int>): (n: int)
    requires s != {}
    ensures IsLeast(n, s)
  {
    LeastExists(s);
    var n :| IsLeast(n, s);
    n
  }

  method MinElement(s: set<int>) returns (n: int)
    requires s != {}
    ensures IsLeast(n, s)
  {
    ghost var p := Pick(s);
    assert p in s;
    n :| n in s;
    var rest := s - {n};
    while rest != {}
      invariant rest <= s && n in s && forall m | m in s && m !in rest :: n <= m
      decreases rest
    {
      ghost var q := Pick(rest);
      assert q in rest;
      var k :| k in rest;
      n := Min(n, k);
      rest := rest - {k};
    }
  }

  // The elements of a set in increasing order.
  method Ordered(s: set<int>) returns (ordered: seq<int>)
    ensures forall i, j | 0 <= i < j < |ordered| :: ordered[i] < ordered[j]
    ensures forall c :: c in ordered <==> c in s
  {
    var rest := s;
    ordered := [];
    while rest != {}
      invariant forall i, j | 0 <= i < j < |ordered| :: ordered[i] < ordered[j]
      invariant forall c :: c in s <==> c in ordered || c in rest
      invariant forall c, d | c in ordered && d in rest :: c < d
      decreases rest
    {
      var n := MinElement(rest);
      assert forall c | c in ordered :: c < n;
      assert forall i | 0 <= i < |ordered| :: ordered[i] in ordered;
      ordered := ordered + [n];
      rest := rest - {n};
    }
  }
}
