/**
 Bitwise disjunction and shifts on unbounded words, and what the source's bit tricks compute.
 */
module Bits {

  import opened ModularCounters

  /** x | y */
  function Or(x: nat, y: nat): nat
  {
    if x == 0 then y else if y == 0 then x else 2 * Or(x / 2, y / 2) + (if x % 2 + y % 2 > 0 then 1 else 0)
  }

  /** x >> d */
  function Shr(x: nat, d: nat): nat
  {
    if d == 0 then x else Shr(x / 2, d - 1)
  }

  /** x << d */
  function Shl(x: nat, d: nat): nat
  {
    if d == 0 then x else 2 * Shl(x, d - 1)
  }

  lemma OrBits(a: nat, p: nat, b: nat, q: nat)
    requires p < 2 && q < 2
    ensures Or(2 * a + p, 2 * b + q) == 2 * Or(a, b) + if p + q > 0 then 1 else 0
  {
  }

  lemma OrHalves(x: nat, w: nat)
    ensures Or(x, w) == 2 * Or(x / 2, w / 2) + if x % 2 + w % 2 > 0 then 1 else 0
  {
    BitsSplit(x);
    BitsSplit(w);
    OrBits(x / 2, x % 2, w / 2, w % 2);
  }

  lemma {:induction false} OrAtLeast(x: nat, y: nat)
    ensures Or(x, y) >= x
  {
    if x > 0 && y > 0 {
      OrAtLeast(x / 2, y / 2);
    }
  }

  lemma {:induction false} ShrZero(d: nat)
    ensures Shr(0, d) == 0
  {
    if d > 0 {
      ShrZero(d - 1);
    }
  }

  lemma {:induction false} ShrHalf(x: nat, d: nat)
    ensures Shr(x / 2, d) == Shr(x, d) / 2
  {
    if d > 0 {
      ShrHalf(x / 2, d - 1);
    }
  }

  // ---------------------------------------------------------------------
  // pow2gt
  // ---------------------------------------------------------------------

  function Smear(x: nat, shift: nat): nat
  {
    Or(x, Shr(x, shift))
  }

  /** pow2gt: fill all bits below the highest one of x - 1, and add one. */
  function Pow2Gt(x: nat): nat
    requires x > 0
  {
    Smear(Smear(Smear(Smear(Smear(x - 1, 1), 2), 4), 8), 16) + 1
  }

  /** One of the k lowest bits of x is set. */
  predicate AnyBit(x: nat, k: nat)
  {
    k > 0 && (x % 2 == 1 || AnyBit(x / 2, k - 1))
  }

  lemma {:induction false} AnyBitAdd(x: nat, a: nat, b: nat)
    ensures AnyBit(x, a + b) <==> AnyBit(x, a) || AnyBit(Shr(x, a), b)
  {
    if a > 0 {
      AnyBitAdd(x / 2, a - 1, b);
    }
  }

  lemma {:induction false} NoBit(k: nat)
    ensures !AnyBit(0, k)
  {
    if k > 0 {
      NoBit(k - 1);
    }
  }

  lemma {:induction false} SomeBit(x: nat, k: nat)
    requires 0 < x < Pow2(k)
    ensures AnyBit(x, k)
  {
    if x % 2 == 0 {
      SomeBit(x / 2, k - 1);
    }
  }

  /** x with every bit set that has a set bit among the k bits from its place up. */
  function Spread(x: nat, k: nat): nat
  {
    if x == 0 then 0 else 2 * Spread(x / 2, k) + (if AnyBit(x, k) then 1 else 0)
  }

  lemma SpreadUnfold(x: nat, k: nat)
    ensures Spread(x, k) == 2 * Spread(x / 2, k) + (if AnyBit(x, k) then 1 else 0)
  {
    NoBit(k);
  }

  lemma {:induction false} SpreadOne(x: nat)
    ensures Spread(x, 1) == x
  {
    if x > 0 {
      assert !AnyBit(x / 2, 0);
      SpreadOne(x / 2);
    }
  }

  /** Spreading commutes with shifting. */
  lemma {:induction false} SpreadShift(x: nat, k: nat, d: nat)
    ensures Shr(Spread(x, k), d) == Spread(Shr(x, d), k)
    decreases d
  {
    hide Spread;
    if d > 0 {
      SpreadUnfold(x, k);
      SpreadShift(x / 2, k, d - 1);
      assert Spread(x, k) / 2 == Spread(x / 2, k);
    }
  }

  /** One step of the cascade doubles the reach. */
  lemma {:induction false} SmearDoubles(x: nat, k: nat)
    ensures Smear(Spread(x, k), k) == Spread(x, 2 * k)
    decreases x
  {
    SpreadShift(x, k, k);
    if x == 0 {
      ShrZero(k);
    } else {
      SmearDoubles(x / 2, k);
      SpreadShift(x / 2, k, k);
      ShrHalf(x, k);
      SpreadUnfold(x, k);
      SpreadUnfold(Shr(x, k), k);
      SpreadUnfold(x, 2 * k);
      AnyBitAdd(x, k, k);
      var p, q := if AnyBit(x, k) then 1 else 0, if AnyBit(Shr(x, k), k) then 1 else 0;
      OrBits(Spread(x / 2, k), p, Spread(Shr(x, k) / 2, k), q);
      hide Spread, Or, Shr, AnyBit;
    }
  }

  /** The number with as many bits as x, all set. */
  function Ones(x: nat): (r: nat)
  {
    if x == 0 then 0 else 2 * Ones(x / 2) + 1
  }

  function BitCount(x: nat): nat
  {
    if x == 0 then 0 else BitCount(x / 2) + 1
  }

  lemma {:induction false} OnesPower(x: nat)
    ensures Ones(x) + 1 == Pow2(BitCount(x)) > x
    ensures x > 0 ==> BitCount(x) > 0 && Pow2(BitCount(x) - 1) <= x
  {
    if x > 0 {
      OnesPower(x / 2);
    }
  }

  lemma {:induction false} SpreadFull(x: nat, k: nat)
    requires x < Pow2(k)
    ensures Spread(x, k) == Ones(x)
  {
    hide Pow2;
    if x > 0 {
      SomeBit(x, k);
      SpreadFull(x / 2, k);
    }
  }

  /** The cascade sets all bits below the highest one. */
  lemma Cascade(x: nat)
    requires x < Pow2(32)
    ensures Smear(Smear(Smear(Smear(Smear(x, 1), 2), 4), 8), 16) == Ones(x)
  {
    hide Smear, Spread, Ones, Pow2;
    SpreadOne(x);
    SmearDoubles(x, 1);
    SmearDoubles(x, 2);
    SmearDoubles(x, 4);
    SmearDoubles(x, 8);
    SmearDoubles(x, 16);
    SpreadFull(x, 32);
  }

  /** The cascade computes the least power of two that is not below a 32-bit number. */
  lemma Pow2GtLeast(x: nat)
    requires 0 < x <= Pow2(32)
    ensures var k := BitCount(x - 1);
            Pow2Gt(x) == Pow2(k) >= x && (k > 0 ==> Pow2(k - 1) < x)
  {
    hide Smear, Ones, Pow2;
    Cascade(x - 1);
    OnesPower(x - 1);
  }

  lemma Pow2GtAtLeast(x: nat)
    requires x > 0
    ensures Pow2Gt(x) >= x
  {
    hide Or, Shr;
    var a := Smear(x - 1, 1);
    var b := Smear(a, 2);
    var c := Smear(b, 4);
    var d := Smear(c, 8);
    OrAtLeast(x - 1, Shr(x - 1, 1));
    OrAtLeast(a, Shr(a, 2));
    OrAtLeast(b, Shr(b, 4));
    OrAtLeast(c, Shr(c, 8));
    OrAtLeast(d, Shr(d, 16));
  }

  // ---------------------------------------------------------------------
  // Masks
  // ---------------------------------------------------------------------

  /** Bits that do not overlap add up. */
  lemma {:induction false} OrDisjoint(x: nat, z: nat, k: nat)
    requires x < Pow2(k)
    ensures Or(x, Shl(z, k)) == x + Shl(z, k)
  {
    if k > 0 {
      OrDisjoint(x / 2, z, k - 1);
      BitsSplit(x);
      OrBits(x / 2, x % 2, Shl(z, k - 1), 0);
      hide Or;
    }
  }

  /** The k lowest bits of x. */
  function Low(x: nat, k: nat): nat
  {
    if k == 0 then 0 else 2 * Low(x / 2, k - 1) + x % 2
  }

  lemma {:induction false} LowRest(x: nat, k: nat)
    ensures x == Shl(Shr(x, k), k) + Low(x, k) && Low(x, k) < Pow2(k)
  {
    if k > 0 {
      LowRest(x / 2, k - 1);
      BitsSplit(x);
    }
  }

  lemma ShlLowStep(x: nat, y: nat, k: nat)
    requires k > 0
    ensures Shr(x, k) == Shr(x / 2, k - 1) && Shl(y, k) == 2 * Shl(y, k - 1)
    ensures Low(x, k) == 2 * Low(x / 2, k - 1) + x % 2
  {
  }

  /** A mask without low bits leaves them as they are. */
  lemma {:induction false} OrHighMask(x: nat, z: nat, k: nat)
    ensures Or(x, Shl(z, k)) == Shl(Or(Shr(x, k), z), k) + Low(x, k)
  {
    if k > 0 {
      hide Or, Shl, Shr, Low;
      OrHighMask(x / 2, z, k - 1);
      OrDouble(x, Shl(z, k - 1));
      ShlLowStep(x, z, k);
      ShlLowStep(x, Or(Shr(x, k), z), k);
    }
  }

  lemma OrDouble(x: nat, m: nat)
    ensures Or(x, 2 * m) == 2 * Or(x / 2, m) + x % 2
  {
    BitsSplit(x);
    OrBits(x / 2, x % 2, m, 0);
    hide Or;
  }

  /** z above k ones. */
  function Mask(z: nat, k: nat): nat
  {
    Shl(z, k) + Low(Pow2(k) - 1, k)
  }

  lemma MaskStep(z: nat, k: nat)
    requires k > 0
    ensures Mask(z, k) == 2 * Mask(z, k - 1) + 1
  {
    assert (Pow2(k) - 1) / 2 == Pow2(k - 1) - 1 && (Pow2(k) - 1) % 2 == 1;
  }

  /** A mask whose low bits are all set keeps them. */
  lemma {:induction false} AndMask(x: nat, z: nat, k: nat)
    ensures And(x, Mask(z, k)) == Shl(And(Shr(x, k), z), k) + Low(x, k)
  {
    if k > 0 {
      AndMask(x / 2, z, k - 1);
      MaskStep(z, k);
      AndByBits(x, Mask(z, k - 1));
      ShlLowStep(x, And(Shr(x, k), z), k);
      hide And, Mask, Shl, Shr, Low;
    }
  }

  lemma AndLowMask(x: nat, z: nat, k: nat)
    ensures And(x, Shl(z, k) + Low(Pow2(k) - 1, k)) == Shl(And(Shr(x, k), z), k) + Low(x, k)
  {
    hide And, Shl, Shr, Low;
    AndMask(x, z, k);
  }

  lemma ShlSix(x: nat)
    ensures Shl(x, 6) == 0x40 * x
  {
    assert Shl(x, 1) == 2 * x;
    assert Shl(x, 3) == 8 * x;
    assert Shl(x, 5) == 32 * x;
  }

  /** Shifting by six and the six low bits are quotient and remainder. */
  lemma SixBits(x: nat)
    ensures Shr(x, 6) == x / 0x40 && Low(x, 6) == x % 0x40
  {
    LowRest(x, 6);
    ShlSix(Shr(x, 6));
    assert Pow2(6) == 0x40;
    hide Shr, Low, Shl;
  }

  lemma OrSix(x: nat)
    ensures Or(x, 0x80) == 0x40 * Or(x / 0x40, 2) + x % 0x40
  {
    ShlSix(2);
    OrHighMask(x, 2, 6);
    SixBits(x);
    ShlSix(Or(x / 0x40, 2));
    hide Or, Shl, Shr, Low;
  }

  lemma AndSix(x: nat)
    ensures And(x, 0xBF) == 0x40 * And(x / 0x40, 2) + x % 0x40
  {
    assert Pow2(6) == 0x40;
    ShlSix(2);
    SixBits(0x3F);
    AndLowMask(x, 2, 6);
    SixBits(x);
    ShlSix(And(x / 0x40, 2));
    hide And, Shl, Shr, Low;
  }

  /** ((u | 0x80) & 0xBF) is a continuation byte that carries the low six bits. */
  lemma LowSixBits(u: nat)
    ensures And(Or(u, 0x80), 0xBF) == 0x80 + u % 0x40
  {
    hide And, Or;
    OrSix(u);
    var v := Or(u, 0x80);
    AndSix(v);
    SixtyFours(v, Or(u / 0x40, 2), u % 0x40);
    SecondBit(u / 0x40);
  }

  lemma SixtyFours(v: nat, q: nat, r: nat)
    requires v == 0x40 * q + r && r < 0x40
    ensures v / 0x40 == q && v % 0x40 == r
  {
  }

  lemma SecondBit(y: nat)
    ensures And(Or(y, 2), 2) == 2
  {
    OrHalves(y, 2);
    OrHalves(y / 2, 1);
    AndByBits(Or(y, 2), 1);
    AndByBits(Or(y / 2, 1), 0);
    AndZero(Or(y / 2, 1) / 2);
  }
}
