/**
 Reed-Solomon check codewords (ISO/IEC 18004:2015, section 7.5).

 A polynomial is the sequence of its coefficients, highest power first.
 */
module ReedSolomon {
  import opened GaloisField

  // ---------- Polynomials ----------

  function Zeros(n: nat): (z: seq<bv8>)
    ensures |z| == n
  {
    seq(n, _ => 0)
  }

  function PolyAdd(p: seq<bv8>, q: seq<bv8>): (s: seq<bv8>)
    requires |p| == |q|
    ensures |s| == |p|
  {
    seq(|p|, j requires 0 <= j < |p| => Add(p[j], q[j]))
  }

  function Scale(p: seq<bv8>, k: bv8): (s: seq<bv8>)
    ensures |s| == |p|
  {
    seq(|p|, j requires 0 <= j < |p| => Mul(p[j], k))
  }

  function Eval(p: seq<bv8>, x: bv8): bv8 {
    if p == [] then 0 else Add(Mul(Eval(p[..|p| - 1], x), x), p[|p| - 1])
  }

  // (X + r) * p
  function TimesRoot(p: seq<bv8>, r: bv8): (s: seq<bv8>)
    ensures |s| == |p| + 1
  {
    PolyAdd(p + [0], [0] + Scale(p, r))
  }

  // The product of (X + 2^m) for m below d.
  function Generator(d: nat): (g: seq<bv8>)
    ensures |g| == d + 1
  {
    if d == 0 then [1] else TimesRoot(Generator(d - 1), Power(d - 1))
  }

  lemma {:induction false} EvalAdd(p: seq<bv8>, q: seq<bv8>, x: bv8)
    requires |p| == |q|
    ensures Eval(PolyAdd(p, q), x) == Add(Eval(p, x), Eval(q, x))
  {
    hide Add, Mul;
    if p == [] {
      AddZero(0);
    } else {
      var n := |p| - 1;
      EvalAdd(p[..n], q[..n], x);
      assert PolyAdd(p, q)[..n] == PolyAdd(p[..n], q[..n]);
      MulAddLeft(Eval(p[..n], x), Eval(q[..n], x), x);
      AddSwap(Mul(Eval(p[..n], x), x), Mul(Eval(q[..n], x), x), p[n], q[n]);
    }
  }

  lemma {:induction false} EvalScale(p: seq<bv8>, k: bv8, x: bv8)
    ensures Eval(Scale(p, k), x) == Mul(Eval(p, x), k)
  {
    hide Add, Mul;
    MulZero(k);
    if p != [] {
      var n := |p| - 1;
      EvalScale(p[..n], k, x);
      assert Scale(p, k)[..n] == Scale(p[..n], k);
      MulExchange(Eval(p[..n], x), k, x);
      MulAddLeft(Mul(Eval(p[..n], x), x), p[n], k);
    }
  }

  lemma {:induction false} EvalPrefixZeros(p: seq<bv8>, n: nat, x: bv8)
    ensures Eval(Zeros(n) + p, x) == Eval(p, x)
    decreases |p|, n
  {
    hide Add, Mul;
    MulZero(x);
    AddZero(0);
    if p != [] {
      EvalPrefixZeros(p[..|p| - 1], n, x);
      assert (Zeros(n) + p)[..n + |p| - 1] == Zeros(n) + p[..|p| - 1];
    } else if n > 0 {
      EvalPrefixZeros([], n - 1, x);
      assert Zeros(n) + p == Zeros(n);
      assert Zeros(n)[..n - 1] == Zeros(n - 1) + [];
    }
  }

  lemma EvalShift(p: seq<bv8>, x: bv8)
    ensures Eval(p + [0], x) == Mul(Eval(p, x), x)
  {
    hide Add, Mul;
    assert (p + [0])[..|p|] == p;
    AddZero(Mul(Eval(p, x), x));
  }

  lemma EvalTimesRoot(p: seq<bv8>, r: bv8, x: bv8)
    ensures Eval(TimesRoot(p, r), x) == Mul(Eval(p, x), Add(x, r))
  {
    hide Add, Mul, Eval;
    EvalAdd(p + [0], [0] + Scale(p, r), x);
    EvalShift(p, x);
    assert [0] == Zeros(1);
    EvalPrefixZeros(Scale(p, r), 1, x);
    EvalScale(p, r, x);
    MulAddRight(Eval(p, x), x, r);
  }

  // The generator vanishes at 2^0 .. 2^(d-1) and nowhere else.
  lemma {:induction false} GeneratorRoots(d: nat, x: bv8)
    ensures Eval(Generator(d), x) == 0 <==> PowerBelow(x, d)
  {
    hide Add, Mul, Eval, Power;
    if d == 0 {
      EvalOne(x);
    } else {
      GeneratorRoots(d - 1, x);
      EvalTimesRoot(Generator(d - 1), Power(d - 1), x);
      NoZeroDivisors(Eval(Generator(d - 1), x), Add(x, Power(d - 1)));
      AddIsZero(x, Power(d - 1));
      assert PowerBelow(x, d) <==> PowerBelow(x, d - 1) || x == Power(d - 1) by {
        PowerBelowStep(x, d);
      }
    }
  }

  ghost predicate PowerBelow(x: bv8, d: nat) { exists m: nat :: m < d && x == Power(m) }

  lemma PowerBelowStep(x: bv8, d: nat)
    requires d > 0
    ensures PowerBelow(x, d) <==> PowerBelow(x, d - 1) || x == Power(d - 1)
  {
    hide Power;
    var m: nat := d - 1;
    assert x == Power(d - 1) ==> m < d && x == Power(m);
  }

  lemma EvalOne(x: bv8)
    ensures Eval([1], x) == 1
  {
    hide Add, Mul;
    MulZero(x);
    AddZero(1);
    assert [1][..0] == [];
  }

  // ---------- The divisor ----------

  // The generator of degree d, padded on the left to the width the loop works in.
  function Padded(d: nat, degree: nat): (p: seq<bv8>)
    requires d <= degree
    ensures |p| == degree + 1
  {
    Zeros(degree - d) + Generator(d)
  }

  lemma TimesRootAt(p: seq<bv8>, r: bv8, i: nat)
    requires i <= |p|
    ensures TimesRoot(p, r)[i] == Add(if i < |p| then p[i] else 0, if i > 0 then Mul(p[i - 1], r) else 0)
  {
    hide Add, Mul;
  }

  lemma PaddedStep(d: nat, degree: nat, k: nat)
    requires d < degree && k < degree
    ensures Padded(d + 1, degree)[k + 1]
            == Add(Mul(Padded(d, degree)[k + 1], Power(d)), if k + 1 < degree then Padded(d, degree)[k + 2] else 0)
  {
    hide Add, Mul, Power, TimesRoot;
    var z := degree - d;
    MulZero(Power(d));
    AddZero(0);
    if k + 1 >= z {
      var j := k + 1 - z;
      TimesRootAt(Generator(d), Power(d), j + 1);
      AddComm(if j + 1 <= d then Generator(d)[j + 1] else 0, Mul(Generator(d)[j], Power(d)));
    } else if k + 2 == z {
      TimesRootAt(Generator(d), Power(d), 0);
      AddComm(Generator(d)[0], 0);
    }
  }

  // The high coefficients of the divisor, its leading 1 dropped. For degree 0 the loop body never
  // runs and the seed [1] comes back.
  method ComputeDivisor(degree: nat) returns (result: array<bv8>)
    ensures fresh(result)
    ensures degree >= 1 ==> [1] + result[..] == Generator(degree)
    ensures degree == 0 ==> result[..] == [1]
  {
    hide Add, Mul, Power, Double, Padded, Generator;
    result := new bv8[if degree == 0 then 1 else degree](_ => 0);
    result[result.Length - 1] := 1;
    if degree == 0 {
      return;
    }
    var root: bv8 := 1;
    PowerZero();
    PaddedStart(degree, result[..]);
    for i := 0 to degree
      invariant root == Power(i)
      invariant IsDrop(result[..], Padded(i, degree))
    {
      ghost var before, after := Padded(i, degree), Padded(i + 1, degree);
      for j := 0 to degree
        invariant forall k :: 0 <= k < j ==> result[k] == after[k + 1]
        invariant forall k :: j <= k < degree ==> result[k] == before[k + 1]
      {
        PaddedStep(i, degree, j);
        AddZero(Mul(before[j + 1], root));
        var product := Multiply(result[j], root);
        result[j] := product;
        if j + 1 < degree {
          result[j] := Add(result[j], result[j + 1]);
        }
      }
      PowerNext(i);
      root := Multiply(root, 0x02);
    }
    PaddedFull(degree, result[..]);
  }

  lemma PaddedStart(degree: nat, result: seq<bv8>)
    requires |result| == degree >= 1
    requires forall k :: 0 <= k < degree ==> result[k] == if k == degree - 1 then 1 else 0
    ensures IsDrop(result, Padded(0, degree))
  {}

  ghost predicate IsDrop(result: seq<bv8>, p: seq<bv8>) {
    |p| == |result| + 1 && forall k :: 0 <= k < |result| ==> result[k] == p[k + 1]
  }

  lemma PaddedFull(degree: nat, result: seq<bv8>)
    requires IsDrop(result, Padded(degree, degree))
    ensures [1] + result == Generator(degree)
  {
    hide Add, Mul, Power;
    GeneratorLeads(degree);
    assert Padded(degree, degree) == Generator(degree);
    assert [1] + result == Generator(degree);
  }

  lemma PowerZero()
    ensures Power(0) == 1
  {}

  lemma PowerNext(k: nat)
    ensures Power(k + 1) == Mul(Power(k), 0x02)
  {
    hide Mul, Double;
    MulTwo(Power(k));
  }

  lemma {:induction false} GeneratorLeads(d: nat)
    ensures Generator(d)[0] == 1
  {
    hide Add, Mul, Power;
    if d > 0 {
      GeneratorLeads(d - 1);
      AddZero(1);
    }
  }

  // ---------- The remainder ----------

  // One byte shifted through the division register.
  function Divide(rem: seq<bv8>, byte: bv8, divisor: seq<bv8>): (r: seq<bv8>)
    requires |rem| == |divisor| >= 1
    ensures |r| == |divisor|
  {
    PolyAdd(rem[1..] + [0], Scale(divisor, Add(byte, rem[0])))
  }

  function Remainder(data: seq<bv8>, divisor: seq<bv8>): (r: seq<bv8>)
    requires |divisor| >= 1
    ensures |r| == |divisor|
  {
    if data == [] then Zeros(|divisor|)
    else Divide(Remainder(data[..|data| - 1], divisor), data[|data| - 1], divisor)
  }

  // An empty divisor leaves the register empty, and each byte then pushes and pops a lone zero.
  method ComputeRemainder(data: seq<bv8>, divisor: seq<bv8>) returns (result: seq<bv8>)
    ensures |divisor| >= 1 ==> result == Remainder(data, divisor)
    ensures divisor == [] ==> result == if data == [] then [] else [0]
  {
    hide Add, Mul;
    result := seq(|divisor|, _ => 0);
    for k := 0 to |data|
      invariant |divisor| >= 1 ==> result == Remainder(data[..k], divisor)
      invariant divisor == [] ==> result == if k == 0 then [] else [0]
    {
      ghost var before := result;
      AddZero(data[k]);
      var factor := Add(data[k], if result == [] then 0 else result[0]);
      result := (if result == [] then [] else result[1..]) + [0];
      ghost var shifted := result;
      for i := 0 to |divisor|
        invariant |result| == |shifted| == if divisor == [] then 1 else |divisor|
        invariant forall j :: 0 <= j < i ==> result[j] == Add(shifted[j], Mul(divisor[j], factor))
        invariant forall j :: i <= j < |result| ==> result[j] == shifted[j]
      {
        var product := Multiply(divisor[i], factor);
        result := result[i := Add(result[i], product)];
      }
      if divisor != [] {
        assert data[..k + 1][..k] == data[..k];
        assert result == Divide(before, data[k], divisor);
      } else {
        assert result == shifted == [0];
      }
    }
    assert data[..|data|] == data;
  }

  // A block of data followed by its check bytes.
  function Codeword(data: seq<bv8>, divisor: seq<bv8>): (c: seq<bv8>)
    requires |divisor| >= 1
    ensures |c| == |data| + |divisor|
  {
    data + Remainder(data, divisor)
  }

  // The codeword is a multiple of the divisor: it vanishes wherever the divisor does.
  lemma {:induction false} CodewordVanishes(data: seq<bv8>, divisor: seq<bv8>, x: bv8)
    requires |divisor| >= 1 && Eval([1] + divisor, x) == 0
    ensures Eval(Codeword(data, divisor), x) == 0
  {
    hide Add, Mul, Eval;
    if data == [] {
      EvalPrefixZeros([], |divisor|, x);
      EvalEmpty(x);
      assert Codeword(data, divisor) == Zeros(|divisor|) + [];
    } else {
      var n, b := |data| - 1, data[|data| - 1];
      var rem := Remainder(data[..n], divisor);
      var factor := Add(b, rem[0]);
      CodewordVanishes(data[..n], divisor, x);
      EvalShift(Codeword(data[..n], divisor), x);
      MulZero(x);
      EvalScale([1] + divisor, factor, x);
      MulZero(factor);
      var multiple := Zeros(n) + Scale([1] + divisor, factor);
      EvalPrefixZeros(Scale([1] + divisor, factor), n, x);
      var shifted := Codeword(data[..n], divisor) + [0];
      EvalAdd(shifted, multiple, x);
      AddZero(0);
      CodewordStep(data, divisor);
    }
  }

  lemma EvalEmpty(x: bv8)
    ensures Eval([], x) == 0
  {}

  lemma CodewordStep(data: seq<bv8>, divisor: seq<bv8>)
    requires |divisor| >= 1 && data != []
    ensures
      var n := |data| - 1;
      var factor := Add(data[n], Remainder(data[..n], divisor)[0]);
      Codeword(data, divisor)
      == PolyAdd(Codeword(data[..n], divisor) + [0], Zeros(n) + Scale([1] + divisor, factor))
  {
    hide Add, Mul, Remainder, Codeword, Scale, PolyAdd;
    var n := |data| - 1;
    var rem := Remainder(data[..n], divisor);
    var factor := Add(data[n], rem[0]);
    CodewordUnfolds(data, divisor, rem, factor);
    MultipleUnfolds(n, divisor, factor);
    var register := rem[1..] + [0];
    var product := Scale(divisor, factor);
    PolyAddConcat(data[..n], [rem[0]] + register, Zeros(n), [factor] + product);
    PolyAddConcat([rem[0]], register, [factor], product);
    PolyAddZeros(data[..n]);
    Restore(rem[0], data[n]);
  }

  lemma CodewordUnfolds(data: seq<bv8>, divisor: seq<bv8>, rem: seq<bv8>, factor: bv8)
    requires |divisor| >= 1 && data != [] && rem == Remainder(data[..|data| - 1], divisor)
    requires factor == Add(data[|data| - 1], rem[0])
    ensures
      var n := |data| - 1;
      && Codeword(data[..n], divisor) + [0] == data[..n] + ([rem[0]] + (rem[1..] + [0]))
      && Codeword(data, divisor)
         == data[..n] + ([data[n]] + PolyAdd(rem[1..] + [0], Scale(divisor, factor)))
  {
    hide *;
    var n := |data| - 1;
    var next := PolyAdd(rem[1..] + [0], Scale(divisor, factor));
    RemainderUnfolds(data, divisor, rem, factor);
    CodewordIs(data, divisor);
    CodewordIs(data[..n], divisor);
    Regroup(data, rem, next, 0);
  }

  lemma RemainderUnfolds(data: seq<bv8>, divisor: seq<bv8>, rem: seq<bv8>, factor: bv8)
    requires |divisor| >= 1 && data != [] && rem == Remainder(data[..|data| - 1], divisor)
    requires factor == Add(data[|data| - 1], rem[0])
    ensures Remainder(data, divisor) == PolyAdd(rem[1..] + [0], Scale(divisor, factor))
  {
    hide Add, Mul, Scale, PolyAdd;
  }

  lemma CodewordIs(data: seq<bv8>, divisor: seq<bv8>)
    requires |divisor| >= 1
    ensures Codeword(data, divisor) == data + Remainder(data, divisor)
  {
    hide Remainder;
  }

  lemma Regroup<T>(data: seq<T>, rem: seq<T>, next: seq<T>, z: T)
    requires data != [] && rem != []
    ensures
      var n := |data| - 1;
      && (data[..n] + rem) + [z] == data[..n] + ([rem[0]] + (rem[1..] + [z]))
      && data + next == data[..n] + ([data[n]] + next)
  {}

  lemma MultipleUnfolds(n: nat, divisor: seq<bv8>, factor: bv8)
    ensures Zeros(n) + Scale([1] + divisor, factor) == Zeros(n) + ([factor] + Scale(divisor, factor))
  {
    hide Mul;
    MulOne(factor);
    assert Scale([1] + divisor, factor) == [factor] + Scale(divisor, factor);
  }

  lemma Restore(a: bv8, b: bv8)
    ensures PolyAdd([a], [Add(b, a)]) == [b]
  {
    hide Add;
    AddComm(b, a);
    AddAssoc(a, a, b);
    AddSelf(a);
    AddZero(b);
  }

  lemma PolyAddConcat(a: seq<bv8>, b: seq<bv8>, c: seq<bv8>, d: seq<bv8>)
    requires |a| == |c| && |b| == |d|
    ensures PolyAdd(a + b, c + d) == PolyAdd(a, c) + PolyAdd(b, d)
  {
    hide Add;
  }

  lemma PolyAddZeros(a: seq<bv8>)
    ensures PolyAdd(a, Zeros(|a|)) == a
  {
    hide Add;
    forall j | 0 <= j < |a|
      ensures Add(a[j], 0) == a[j]
    {
      AddZero(a[j]);
    }
  }
}
