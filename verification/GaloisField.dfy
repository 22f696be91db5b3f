/**
 The field GF(2^8) modulo x^8 + x^4 + x^3 + x^2 + 1 (0x11D), over which the QR code standard
 (ISO/IEC 18004:2015, section 7.5.2) computes its Reed-Solomon codewords.

 The operations are hidden in most proofs: the solver bit-blasts whatever it can unfold.
 */
module GaloisField {

  // ---------- The operations ----------

  function Add(a: bv8, b: bv8): bv8 { a ^ b }

  // Multiplication by the field element 2, reduced modulo 0x11D.
  function Double(z: bv8): bv8 {
    (z << 1) ^ ((z >> 7) * 0x1D)
  }

  // Bit i of y, counted from the least significant one.
  predicate Bit(y: bv8, i: nat) {
    match i
    case 0 => y & 0x01 != 0
    case 1 => y & 0x02 != 0
    case 2 => y & 0x04 != 0
    case 3 => y & 0x08 != 0
    case 4 => y & 0x10 != 0
    case 5 => y & 0x20 != 0
    case 6 => y & 0x40 != 0
    case 7 => y & 0x80 != 0
    case _ => false
  }

  function Gate(on: bool, x: bv8): bv8 { if on then x else 0 }

  // The sum of x * 2^(j - i) over the set bits j >= i of y.
  function SumFrom(x: bv8, y: bv8, i: nat): bv8
    requires i <= 8
    decreases 8 - i
  {
    if i == 8 then 0 else Add(Gate(Bit(y, i), x), SumFrom(Double(x), y, i + 1))
  }

  // The product: the sum of x * 2^j over the set bits j of y.
  function Mul(x: bv8, y: bv8): bv8 { SumFrom(x, y, 0) }

  // ---------- The additive group ----------

  lemma AddComm(a: bv8, b: bv8)
    ensures Add(a, b) == Add(b, a)
  {}

  lemma AddAssoc(a: bv8, b: bv8, c: bv8)
    ensures Add(Add(a, b), c) == Add(a, Add(b, c))
  {}

  lemma AddZero(a: bv8)
    ensures Add(a, 0) == a && Add(0, a) == a
  {}

  lemma AddSelf(a: bv8)
    ensures Add(a, a) == 0
  {}

  lemma AddSwap(a: bv8, b: bv8, c: bv8, d: bv8)
    ensures Add(Add(a, b), Add(c, d)) == Add(Add(a, c), Add(b, d))
  {
    hide *;
    AddAssoc(a, b, Add(c, d));
    AddAssoc(b, c, d);
    AddComm(b, c);
    AddAssoc(c, b, d);
    AddAssoc(a, c, Add(b, d));
  }

  // In characteristic 2 a sum is zero exactly when its summands agree.
  lemma AddIsZero(a: bv8, b: bv8)
    ensures Add(a, b) == 0 <==> a == b
  {
    hide *;
    AddSelf(a);
    if Add(a, b) == 0 {
      AddZero(a);
      AddZero(b);
      AddSelf(b);
      AddAssoc(a, b, b);
    }
  }

  // ---------- Linearity in the first factor ----------

  lemma DoubleAdd(a: bv8, b: bv8)
    ensures Double(Add(a, b)) == Add(Double(a), Double(b))
  {}

  lemma DoubleZero()
    ensures Double(0) == 0
  {}

  lemma {:induction false} SumAddLeft(x: bv8, x': bv8, y: bv8, i: nat)
    requires i <= 8
    ensures SumFrom(Add(x, x'), y, i) == Add(SumFrom(x, y, i), SumFrom(x', y, i))
    decreases 8 - i
  {
    hide Add, Double, Bit;
    AddZero(0);
    if i < 8 {
      SumAddLeft(Double(x), Double(x'), y, i + 1);
      DoubleAdd(x, x');
      var b := Bit(y, i);
      AddSwap(Gate(b, x), Gate(b, x'), SumFrom(Double(x), y, i + 1), SumFrom(Double(x'), y, i + 1));
    }
  }

  lemma {:induction false} SumDoubleLeft(x: bv8, y: bv8, i: nat)
    requires i <= 8
    ensures SumFrom(Double(x), y, i) == Double(SumFrom(x, y, i))
    decreases 8 - i
  {
    hide Add, Double, Bit;
    DoubleZero();
    if i < 8 {
      SumDoubleLeft(Double(x), y, i + 1);
      DoubleAdd(Gate(Bit(y, i), x), SumFrom(Double(x), y, i + 1));
    }
  }

  lemma {:induction false} SumZeroLeft(y: bv8, i: nat)
    requires i <= 8
    ensures SumFrom(0, y, i) == 0
    decreases 8 - i
  {
    hide Add, Double, Bit;
    AddZero(0);
    DoubleZero();
    if i < 8 {
      SumZeroLeft(y, i + 1);
    }
  }

  lemma MulAddLeft(x: bv8, x': bv8, y: bv8)
    ensures Mul(Add(x, x'), y) == Add(Mul(x, y), Mul(x', y))
  {
    hide Add, SumFrom;
    SumAddLeft(x, x', y, 0);
  }

  lemma MulDoubleLeft(x: bv8, y: bv8)
    ensures Mul(Double(x), y) == Double(Mul(x, y))
  {
    hide Double, SumFrom;
    SumDoubleLeft(x, y, 0);
  }

  lemma MulZeroLeft(y: bv8)
    ensures Mul(0, y) == 0
  {
    hide SumFrom;
    SumZeroLeft(y, 0);
  }

  // ---------- A product on bit-vectors ----------

  // x and p1 .. p7 are x * 2^0 .. x * 2^7, and z is the sum of those y selects.
  ghost predicate IsProduct(x: bv8, y: bv8, z: bv8,
                            p1: bv8, p2: bv8, p3: bv8, p4: bv8, p5: bv8, p6: bv8, p7: bv8)
  {
    && p1 == Double(x) && p2 == Double(p1) && p3 == Double(p2) && p4 == Double(p3)
    && p5 == Double(p4) && p6 == Double(p5) && p7 == Double(p6)
    && z == Add(Gate(Bit(y, 0), x), Add(Gate(Bit(y, 1), p1), Add(Gate(Bit(y, 2), p2), Add(Gate(Bit(y, 3), p3),
            Add(Gate(Bit(y, 4), p4), Add(Gate(Bit(y, 5), p5), Add(Gate(Bit(y, 6), p6), Gate(Bit(y, 7), p7))))))))
  }

  lemma SumStep(x: bv8, y: bv8, i: nat)
    requires i < 8
    ensures SumFrom(x, y, i) == Add(Gate(Bit(y, i), x), SumFrom(Double(x), y, i + 1))
  {
    hide Add, Double, Bit, Gate;
  }

  lemma SumEnd(x: bv8, y: bv8)
    ensures SumFrom(x, y, 8) == 0
  {}

  lemma MulIsProduct(x: bv8, y: bv8)
    returns (p1: bv8, p2: bv8, p3: bv8, p4: bv8, p5: bv8, p6: bv8, p7: bv8)
    ensures IsProduct(x, y, Mul(x, y), p1, p2, p3, p4, p5, p6, p7)
  {
    hide Add, Double, Bit, Gate, SumFrom;
    p1 := Double(x);
    p2 := Double(p1);
    p3 := Double(p2);
    p4 := Double(p3);
    p5 := Double(p4);
    p6 := Double(p5);
    p7 := Double(p6);
    SumStep(x, y, 0);
    SumStep(p1, y, 1);
    SumStep(p2, y, 2);
    SumStep(p3, y, 3);
    SumStep(p4, y, 4);
    SumStep(p5, y, 5);
    SumStep(p6, y, 6);
    SumStep(p7, y, 7);
    SumEnd(Double(p7), y);
    AddZero(Gate(Bit(y, 7), p7));
  }

  lemma NoZeroProduct11(x: bv8, y: bv8, p1: bv8, p2: bv8, p3: bv8, p4: bv8, p5: bv8, p6: bv8, p7: bv8)
    requires IsProduct(x, y, 0, p1, p2, p3, p4, p5, p6, p7) && Bit(y, 7) && Bit(y, 6)
    ensures x == 0
  {}

  lemma NoZeroProduct10(x: bv8, y: bv8, p1: bv8, p2: bv8, p3: bv8, p4: bv8, p5: bv8, p6: bv8, p7: bv8)
    requires IsProduct(x, y, 0, p1, p2, p3, p4, p5, p6, p7) && Bit(y, 7) && !Bit(y, 6)
    ensures x == 0
  {}

  lemma NoZeroProduct01(x: bv8, y: bv8, p1: bv8, p2: bv8, p3: bv8, p4: bv8, p5: bv8, p6: bv8, p7: bv8)
    requires IsProduct(x, y, 0, p1, p2, p3, p4, p5, p6, p7) && !Bit(y, 7) && Bit(y, 6)
    ensures x == 0
  {}

  lemma NoZeroProduct00(x: bv8, y: bv8, p1: bv8, p2: bv8, p3: bv8, p4: bv8, p5: bv8, p6: bv8, p7: bv8)
    requires IsProduct(x, y, 0, p1, p2, p3, p4, p5, p6, p7) && !Bit(y, 7) && !Bit(y, 6)
    ensures x == 0 || y == 0
  {}

  lemma DoubleLiterals()
    ensures Double(0x01) == 0x02 && Double(0x02) == 0x04 && Double(0x04) == 0x08 && Double(0x08) == 0x10
    ensures Double(0x10) == 0x20 && Double(0x20) == 0x40 && Double(0x40) == 0x80
  {}

  lemma OneProduct(y: bv8, z: bv8)
    requires IsProduct(1, y, z, 0x02, 0x04, 0x08, 0x10, 0x20, 0x40, 0x80)
    ensures z == y
  {}

  // ---------- The field laws ----------

  lemma NoZeroDivisors(x: bv8, y: bv8)
    ensures Mul(x, y) == 0 <==> x == 0 || y == 0
  {
    hide *;
    MulZero(y);
    MulZero(x);
    if Mul(x, y) == 0 {
      var p1, p2, p3, p4, p5, p6, p7 := MulIsProduct(x, y);
      if Bit(y, 7) {
        if Bit(y, 6) {
          NoZeroProduct11(x, y, p1, p2, p3, p4, p5, p6, p7);
        } else {
          NoZeroProduct10(x, y, p1, p2, p3, p4, p5, p6, p7);
        }
      } else if Bit(y, 6) {
        NoZeroProduct01(x, y, p1, p2, p3, p4, p5, p6, p7);
      } else {
        NoZeroProduct00(x, y, p1, p2, p3, p4, p5, p6, p7);
      }
    }
  }

  lemma MulOneLeft(y: bv8)
    ensures Mul(1, y) == y
  {
    hide Add, Double, Bit, Gate, Mul;
    var p1, p2, p3, p4, p5, p6, p7 := MulIsProduct(1, y);
    DoubleLiterals();
    assert IsProduct(1, y, Mul(1, y), 0x02, 0x04, 0x08, 0x10, 0x20, 0x40, 0x80);
    OneProduct(y, Mul(1, y));
  }

  lemma {:induction false} MulSum(x: bv8, y: bv8, z: bv8, i: nat)
    requires i <= 8
    ensures Mul(SumFrom(x, y, i), z) == SumFrom(Mul(x, z), y, i)
    decreases 8 - i
  {
    hide Add, Double, Bit, Mul;
    MulZeroLeft(z);
    if i < 8 {
      MulSum(Double(x), y, z, i + 1);
      MulDoubleLeft(x, z);
      MulAddLeft(Gate(Bit(y, i), x), SumFrom(Double(x), y, i + 1), z);
    }
  }

  lemma MulExchange(x: bv8, y: bv8, z: bv8)
    ensures Mul(Mul(x, y), z) == Mul(Mul(x, z), y)
  {
    hide SumFrom;
    MulSum(x, y, z, 0);
  }

  lemma MulComm(x: bv8, y: bv8)
    ensures Mul(x, y) == Mul(y, x)
  {
    hide *;
    MulExchange(1, x, y);
    MulOneLeft(x);
    MulOneLeft(y);
  }

  lemma MulAssoc(x: bv8, y: bv8, z: bv8)
    ensures Mul(Mul(x, y), z) == Mul(x, Mul(y, z))
  {
    hide *;
    MulComm(x, y);
    MulExchange(y, x, z);
    MulComm(Mul(y, z), x);
  }

  lemma MulOne(x: bv8)
    ensures Mul(1, x) == x && Mul(x, 1) == x
  {
    hide *;
    MulOneLeft(x);
    MulComm(1, x);
  }

  lemma MulZero(x: bv8)
    ensures Mul(0, x) == 0 && Mul(x, 0) == 0
  {
    hide *;
    MulZeroLeft(x);
    MulComm(0, x);
  }

  lemma MulAddRight(x: bv8, y: bv8, y': bv8)
    ensures Mul(x, Add(y, y')) == Add(Mul(x, y), Mul(x, y'))
  {
    hide *;
    MulComm(x, Add(y, y'));
    MulComm(x, y);
    MulComm(x, y');
    MulAddLeft(y, y', x);
  }

  lemma MulTwo(x: bv8)
    ensures Mul(x, 2) == Double(x)
  {
    hide *;
    DoubleLiterals();
    MulComm(x, 2);
    MulDoubleLeft(1, x);
    MulOneLeft(x);
  }

  // ---------- Powers of two ----------

  function Power(k: nat): bv8 { if k == 0 then 1 else Double(Power(k - 1)) }

  lemma {:induction false} PowerAdd(i: nat, j: nat)
    ensures Power(i + j) == Mul(Power(i), Power(j))
  {
    hide Mul, Double;
    MulOneLeft(Power(j));
    if i > 0 {
      PowerAdd(i - 1, j);
      MulDoubleLeft(Power(i - 1), Power(j));
    }
  }

  lemma PowerNonZero(k: nat)
    ensures Power(k) != 0
  {
    hide Mul, Double;
    if k > 0 {
      PowerNonZero(k - 1);
      MulTwo(Power(k - 1));
      NoZeroDivisors(Power(k - 1), 2);
    }
  }

  lemma MulCancel(x: bv8, y: bv8, y': bv8)
    requires x != 0 && Mul(x, y) == Mul(x, y')
    ensures y == y'
  {
    hide *;
    MulAddRight(x, y, y');
    AddIsZero(Mul(x, y), Mul(x, y'));
    NoZeroDivisors(x, Add(y, y'));
    AddIsZero(y, y');
  }

  lemma {:induction false} PowerMultiple(k: nat, m: nat)
    requires Power(k) == 1
    ensures Power(m * k) == 1
  {
    hide Mul, Double;
    if m > 0 {
      PowerMultiple(k, m - 1);
      assert m * k == (m - 1) * k + k;
      PowerAdd((m - 1) * k, k);
      MulOneLeft(1);
    }
  }

  function Eight(z: bv8): bv8 {
    Double(Double(Double(Double(Double(Double(Double(Double(z))))))))
  }

  lemma PowerEight(k: nat)
    ensures Power(k + 8) == Eight(Power(k))
  {
    hide Double;
    assert Power(k + 2) == Double(Power(k + 1));
    assert Power(k + 4) == Double(Power(k + 3));
    assert Power(k + 6) == Double(Power(k + 5));
    assert Power(k + 8) == Double(Power(k + 7));
  }

  lemma PowerValues()
    ensures Power(15) == 0x26 && Power(51) == 0x0A && Power(85) == 0xD6 && Power(255) == 1
  {
    hide Power;
    PowerSmall();
    EightValues();
    PowerEight(8);
    PowerEight(16);
    PowerEight(24);
    PowerEight(32);
    PowerEight(40);
    PowerEight(48);
    PowerEight(56);
    PowerEight(64);
    PowerEight(72);
    PowerAdd(8, 7);
    PowerAdd(48, 3);
    PowerAdd(80, 5);
    PowerAdd(85, 85);
    PowerAdd(170, 85);
  }

  lemma PowerSmall()
    ensures Power(3) == 0x08 && Power(5) == 0x20 && Power(7) == 0x80 && Power(8) == 0x1D
  {
    DoubleLiterals();
  }

  lemma EightValues()
    ensures Eight(0x1D) == 0x4C && Eight(0x4C) == 0x8F && Eight(0x8F) == 0x9D && Eight(0x9D) == 0x6A
    ensures Eight(0x6A) == 0x46 && Eight(0x46) == 0x5D && Eight(0x5D) == 0x5F && Eight(0x5F) == 0x65
    ensures Eight(0x65) == 0xFD
    ensures Mul(0x1D, 0x80) == 0x26 && Mul(0x46, 0x08) == 0x0A && Mul(0xFD, 0x20) == 0xD6
    ensures Mul(0xD6, 0xD6) == 0xD7 && Mul(0xD7, 0xD6) == 0x01
  {}

  // A proper divisor of 255 divides 85, 51 or 15.
  lemma DivisorOf255(q: nat, k: nat) returns (m: nat)
    requires q * k == 255 && k < 255
    ensures m * k == 85 || m * k == 51 || m * k == 15
  {
    if q <= 15 {
      assert q == 1 || q == 2 || q == 3 || q == 4 || q == 5 || q == 6 || q == 7 || q == 8
             || q == 9 || q == 10 || q == 11 || q == 12 || q == 13 || q == 14 || q == 15;
      m := if q == 15 then 3 else 1;
    } else {
      assert k <= 15;
      assert k == 1 || k == 2 || k == 3 || k == 4 || k == 5 || k == 6 || k == 7 || k == 8
             || k == 9 || k == 10 || k == 11 || k == 12 || k == 13 || k == 14 || k == 15;
      m := 15 / k;
    }
  }

  // 2 generates the multiplicative group: its powers below the 255th differ from 1.
  lemma {:induction false} PowerNotOne(k: nat)
    requires 0 < k < 255
    ensures Power(k) != 1
  {
    hide Mul, Double, Power;
    if Power(k) == 1 {
      PowerValues();
      var q, r := 255 / k, 255 % k;
      PowerMultiple(k, q);
      PowerAdd(q * k, r);
      MulOneLeft(Power(r));
      if r > 0 {
        PowerNotOne(r);
      } else {
        var m := DivisorOf255(q, k);
        PowerMultiple(k, m);
      }
    }
  }

  lemma PowerInjective(i: nat, j: nat)
    requires i < j < i + 255
    ensures Power(i) != Power(j)
  {
    hide *;
    if Power(i) == Power(j) {
      PowerAdd(i, j - i);
      MulOne(Power(i));
      PowerNonZero(i);
      MulCancel(Power(i), Power(j - i), 1);
      PowerNotOne(j - i);
    }
  }

  // The powers of 2 repeat with period 255, and only then.
  lemma {:induction false} PowersRepeat(i: nat, j: nat)
    ensures Power(i) == Power(j) <==> i % 255 == j % 255
  {
    hide Power, Mul;
    PowerReduces(i);
    PowerReduces(j);
    var a, b := i % 255, j % 255;
    if a < b {
      PowerInjective(a, b);
    } else if b < a {
      PowerInjective(b, a);
    }
  }

  lemma {:induction false} PowerReduces(i: nat)
    ensures Power(i) == Power(i % 255)
  {
    hide Power, Mul;
    if i >= 255 {
      PowerReduces(i - 255);
      PowerAdd(i - 255, 255);
      PowerValues();
      MulOne(Power(i - 255));
    }
  }

  // ---------- The multiplication loop ----------

  // The loop body's two expressions, on the 32-bit integers the bitwise operators work on.
  function Wide(w: bv8): bv32 { w as bv32 }

  function Shifted(z: bv32): bv32 { (z << 1) ^ ((z >> 7) * 0x11D) }

  function Selected(x: bv8, y: bv8, i: nat): bv32
    requires i < 8
  {
    ((y as bv32 >> i) & 1) * x as bv32
  }

  function Xor(a: bv32, b: bv32): bv32 { a ^ b }

  // The accumulator stays within a byte: bit 8 is cancelled by the modulus as soon as it appears.
  lemma ShiftedIsDouble(w: bv8)
    ensures Shifted(Wide(w)) == Wide(Double(w))
  {}

  lemma ShiftedBit(y: bv8, i: nat)
    requires i < 8
    ensures (y as bv32 >> i) & 1 == if Bit(y, i) then 1 else 0
  {
    if i == 0 {
    } else if i == 1 {
    } else if i == 2 {
    } else if i == 3 {
    } else if i == 4 {
    } else if i == 5 {
    } else if i == 6 {
    } else {
    }
  }

  lemma Times(b: bv32, on: bool, x: bv8)
    requires b == if on then 1 else 0
    ensures b * x as bv32 == Wide(Gate(on, x))
  {}

  lemma SelectedIsGate(x: bv8, y: bv8, i: nat)
    requires i < 8
    ensures Selected(x, y, i) == Wide(Gate(Bit(y, i), x))
  {
    hide Bit, Gate, Wide;
    ShiftedBit(y, i);
    Times((y as bv32 >> i) & 1, Bit(y, i), x);
  }

  lemma XorIsAdd(a: bv8, b: bv8)
    ensures Xor(Wide(a), Wide(b)) == Wide(Add(a, b))
  {}

  lemma MaskByte(w: bv8)
    ensures Wide(w) & 0xFF <= 0xFF && (Wide(w) & 0xFF) as bv8 == w
  {}

  lemma WideZero()
    ensures Wide(0) == 0
  {}

  lemma MultiplyStep(x: bv8, y: bv8, i: nat)
    requires i < 8
    ensures Xor(Shifted(Wide(SumFrom(x, y, i + 1))), Selected(x, y, i)) == Wide(SumFrom(x, y, i))
  {
    hide *;
    var w := SumFrom(x, y, i + 1);
    ShiftedIsDouble(w);
    SelectedIsGate(x, y, i);
    XorIsAdd(Double(w), Gate(Bit(y, i), x));
    AddComm(Double(w), Gate(Bit(y, i), x));
    SumDoubleLeft(x, y, i + 1);
    SumStep(x, y, i);
  }

  method Multiply(x: bv8, y: bv8) returns (r: bv8)
    ensures r == Mul(x, y)
  {
    hide Double, Bit, Add, Gate, Shifted, Selected, Xor, SumFrom, Wide;
    var z: bv32 := 0;
    WideZero();
    SumEnd(x, y);
    for i := 8 downto 0
      invariant z == Wide(SumFrom(x, y, i))
    {
      MultiplyStep(x, y, i);
      z := Xor(Shifted(z), Selected(x, y, i));
    }
    MaskByte(SumFrom(x, y, 0));
    r := (z & 0xFF) as bv8;
  }
}
