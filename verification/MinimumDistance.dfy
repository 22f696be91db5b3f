/**
 How many errors the check codewords can correct: two codewords of one length differ in more
 positions than there are check bytes.

 The argument is elimination. If a block vanishes at 2^0 .. 2^(d-1) and is non-zero at position w,
 weighting its other positions by their distance from w gives a block that vanishes at one point
 fewer and has one non-zero position fewer.
 */
module MinimumDistance {
  import opened GaloisField
  import opened ReedSolomon

  // The power of x that position j of a block of n coefficients multiplies, at x = 2.
  function Locator(n: nat, j: nat): bv8
    requires j < n
  {
    Power(n - 1 - j)
  }

  function Twist(c: seq<bv8>): (t: seq<bv8>)
    ensures |t| == |c|
  {
    seq(|c|, j requires 0 <= j < |c| => Mul(c[j], Locator(|c|, j)))
  }

  ghost function Support(c: seq<bv8>): set<nat> {
    set j: nat | j < |c| && c[j] != 0
  }

  // The positions at which two equally long blocks differ.
  ghost function Differences(a: seq<bv8>, b: seq<bv8>): set<nat>
    requires |a| == |b|
  {
    set j: nat | j < |a| && a[j] != b[j]
  }

  ghost predicate Vanishes(c: seq<bv8>, d: nat) {
    forall m: nat :: m < d ==> Eval(c, Power(m)) == 0
  }

  lemma TwistPrefix(c: seq<bv8>)
    requires c != []
    ensures Twist(c)[..|c| - 1] == Scale(Twist(c[..|c| - 1]), 2)
    ensures Twist(c)[|c| - 1] == c[|c| - 1]
  {
    hide Mul, Power, Double;
    var n := |c| - 1;
    PowerZero();
    MulOne(c[n]);
    forall j | 0 <= j < n
      ensures Twist(c)[j] == Mul(Twist(c[..n])[j], 2)
    {
      PowerNext(n - 1 - j);
      MulAssoc(c[j], Power(n - 1 - j), 2);
    }
  }

  // Twisting a polynomial evaluates it at double the point.
  lemma {:induction false} EvalTwist(c: seq<bv8>, x: bv8)
    ensures Eval(Twist(c), x) == Eval(c, Mul(x, 2))
  {
    hide Add, Mul, Twist;
    if c == [] {
      assert Twist(c) == [];
    } else {
      var n := |c| - 1;
      TwistPrefix(c);
      EvalScale(Twist(c[..n]), 2, x);
      EvalTwist(c[..n], x);
      var e := Eval(c[..n], Mul(x, 2));
      MulAssoc(e, 2, x);
      MulComm(2, x);
    }
  }

  // Weight each position by the difference between its locator and that of position w.
  function Eliminate(c: seq<bv8>, w: nat): (e: seq<bv8>)
    requires w < |c|
    ensures |e| == |c|
  {
    PolyAdd(Twist(c), Scale(c, Locator(|c|, w)))
  }

  lemma EliminateVanishes(c: seq<bv8>, w: nat, d: nat)
    requires w < |c| && d >= 1 && Vanishes(c, d)
    ensures Vanishes(Eliminate(c, w), d - 1)
  {
    hide Add, Mul, Eval, Power, Locator, Twist;
    var l := Locator(|c|, w);
    forall m: nat | m < d - 1
      ensures Eval(Eliminate(c, w), Power(m)) == 0
    {
      EvalAdd(Twist(c), Scale(c, l), Power(m));
      EvalTwist(c, Power(m));
      PowerNext(m);
      EvalScale(c, l, Power(m));
      MulZero(l);
      AddZero(0);
    }
  }

  lemma EliminateSupport(c: seq<bv8>, w: nat)
    requires w < |c| <= 255
    ensures Support(Eliminate(c, w)) == Support(c) - {w}
  {
    hide Add, Mul, Power;
    var n := |c|;
    var l := Locator(n, w);
    forall j: nat | j < n
      ensures Eliminate(c, w)[j] == 0 <==> c[j] == 0 || j == w
    {
      MulAddRight(c[j], Locator(n, j), l);
      NoZeroDivisors(c[j], Add(Locator(n, j), l));
      AddIsZero(Locator(n, j), l);
      if j < w {
        PowerInjective(n - 1 - w, n - 1 - j);
      } else if j > w {
        PowerInjective(n - 1 - j, n - 1 - w);
      }
    }
  }

  lemma {:induction false} EvalSingle(c: seq<bv8>, w: nat)
    requires w < |c| && forall j: nat :: j < |c| && j != w ==> c[j] == 0
    ensures Eval(c, 1) == c[w]
  {
    hide Add, Mul;
    var n := |c| - 1;
    MulOne(Eval(c[..n], 1));
    if w == n {
      EvalAllZero(c[..n], 1);
      AddZero(c[w]);
    } else {
      EvalSingle(c[..n], w);
      AddZero(c[w]);
    }
  }

  lemma {:induction false} EvalAllZero(c: seq<bv8>, x: bv8)
    requires forall j: nat :: j < |c| ==> c[j] == 0
    ensures Eval(c, x) == 0
  {
    hide Add, Mul;
    if c != [] {
      EvalAllZero(c[..|c| - 1], x);
      MulZero(x);
      AddZero(0);
    }
  }

  // A non-zero block that vanishes at d consecutive powers has more than d non-zero positions.
  lemma {:induction false} SparseVanishingIsZero(c: seq<bv8>, d: nat)
    requires |c| <= 255 && Vanishes(c, d) && |Support(c)| <= d
    ensures Support(c) == {}
    decreases d
  {
    hide Add, Mul, Eval, Power, Eliminate;
    if w: nat :| w in Support(c) {
      assert |Support(c)| >= 1 by { assert Support(c) - {w} < Support(c); }
      EliminateVanishes(c, w, d);
      EliminateSupport(c, w);
      SparseVanishingIsZero(Eliminate(c, w), d - 1);
      assert Support(c) == {w};
      forall j: nat | j < |c| && j != w
        ensures c[j] == 0
      {
        assert j !in Support(c);
      }
      assert Eval(c, Power(0)) == 0;
      PowerZero();
      EvalSingle(c, w);
    }
  }

  // ---------- Codewords ----------

  lemma CodewordVanishesAtRoots(data: seq<bv8>, divisor: seq<bv8>, d: nat)
    requires d >= 1 && [1] + divisor == Generator(d)
    ensures |divisor| == d && Vanishes(Codeword(data, divisor), d)
  {
    hide Add, Mul, Eval, Power, Codeword, Generator;
    assert |[1] + divisor| == d + 1;
    forall m: nat | m < d
      ensures Eval(Codeword(data, divisor), Power(m)) == 0
    {
      GeneratorRoots(d, Power(m));
      assert PowerBelow(Power(m), d);
      CodewordVanishes(data, divisor, Power(m));
    }
  }

  lemma DifferencesAreSupport(a: seq<bv8>, b: seq<bv8>)
    requires |a| == |b|
    ensures Support(PolyAdd(a, b)) == Differences(a, b)
  {
    hide Add;
    forall j: nat | j < |a|
      ensures PolyAdd(a, b)[j] == 0 <==> a[j] == b[j]
    {
      AddIsZero(a[j], b[j]);
    }
  }

  lemma VanishingDistance(a: seq<bv8>, b: seq<bv8>, d: nat)
    requires |a| == |b| <= 255 && a != b && Vanishes(a, d) && Vanishes(b, d)
    ensures |Differences(a, b)| >= d + 1
  {
    hide Add, Mul, Eval, Power, PolyAdd;
    DifferencesAreSupport(a, b);
    if |Differences(a, b)| <= d {
      forall m: nat | m < d
        ensures Eval(PolyAdd(a, b), Power(m)) == 0
      {
        EvalAdd(a, b, Power(m));
        AddZero(0);
      }
      SparseVanishingIsZero(PolyAdd(a, b), d);
      forall j: nat | j < |a|
        ensures a[j] == b[j]
      {
        assert j !in Differences(a, b);
      }
    }
  }

  // Two data blocks of one length, with the same number d of check bytes, give codewords that
  // differ in at least d + 1 positions.
  lemma CodewordDistance(a: seq<bv8>, b: seq<bv8>, divisor: seq<bv8>, d: nat)
    requires d >= 1 && [1] + divisor == Generator(d)
    requires |a| == |b| && |a| + d <= 255 && a != b
    ensures |Codeword(a, divisor)| == |Codeword(b, divisor)| == |a| + d
    ensures |Differences(Codeword(a, divisor), Codeword(b, divisor))| >= d + 1
  {
    hide Add, Mul, Eval, Power, Remainder, Generator;
    CodewordVanishesAtRoots(a, divisor, d);
    CodewordVanishesAtRoots(b, divisor, d);
    var i :| 0 <= i < |a| && a[i] != b[i];
    assert Codeword(a, divisor)[i] != Codeword(b, divisor)[i];
    VanishingDistance(Codeword(a, divisor), Codeword(b, divisor), d);
  }

  // A received block within d / 2 errors of a codeword is that close to no other one.
  lemma CorrectionIsUnique(a: seq<bv8>, b: seq<bv8>, divisor: seq<bv8>, d: nat, received: seq<bv8>)
    requires d >= 1 && [1] + divisor == Generator(d)
    requires |a| == |b| && |received| == |a| + d <= 255
    requires |divisor| == d
    requires 2 * |Differences(received, Codeword(a, divisor))| <= d
    requires 2 * |Differences(received, Codeword(b, divisor))| <= d
    ensures a == b
  {
    hide Add, Mul, Eval, Power, Codeword, Generator;
    var x, y := Codeword(a, divisor), Codeword(b, divisor);
    if a != b {
      CodewordDistance(a, b, divisor, d);
      var da, db := Differences(received, x), Differences(received, y);
      assert Differences(x, y) <= da + db;
      CardinalityOfUnion(Differences(x, y), da, db);
    }
  }

  lemma CardinalityOfUnion<T>(s: set<T>, a: set<T>, b: set<T>)
    requires s <= a + b
    ensures |s| <= |a| + |b|
  {
    CardinalityOfSubset(s, a + b);
    assert a + b == a + (b - a);
    assert |a + (b - a)| == |a| + |b - a|;
    CardinalityOfSubset(b - a, b);
  }

  lemma CardinalityOfSubset<T>(a: set<T>, b: set<T>)
    requires a <= b
    ensures |a| <= |b|
  {
    assert b == a + (b - a);
  }

  // The check bytes are the only ones that make the block vanish at every root of the generator.
  lemma CheckBytesAreUnique(data: seq<bv8>, check: seq<bv8>, divisor: seq<bv8>, d: nat)
    requires d >= 1 && [1] + divisor == Generator(d) && |check| == |divisor| == d && |data| + d <= 255
    ensures Vanishes(data + check, d) <==> check == Remainder(data, divisor)
  {
    hide Add, Mul, Eval, Power, Remainder, Generator;
    CodewordVanishesAtRoots(data, divisor, d);
    var x, y := data + check, Codeword(data, divisor);
    if Vanishes(x, d) && x != y {
      VanishingDistance(x, y, d);
      assert Differences(x, y) <= Range(|data|, d);
      CardinalityOfSubset(Differences(x, y), Range(|data|, d));
    }
    assert x == y ==> x[|data|..] == y[|data|..];
  }

  ghost function Range(lo: nat, n: nat): (s: set<nat>)
    ensures |s| == n
    ensures forall j: nat :: j in s <==> lo <= j < lo + n
  {
    if n == 0 then {} else Range(lo, n - 1) + {lo + n - 1}
  }
}
