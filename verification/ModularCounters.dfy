/**
 Unsigned machine words standing in for unbounded counters: the wrap-around
 comparison of the queue, its power-of-two masks, and the masked slot
 computation that finds the block of an element in the circular block index.
 */
module ModularCounters {

  function Pow2(n: nat): (r: nat)
    ensures r >= 1
  {
    if n == 0 then 1 else 2 * Pow2(n - 1)
  }

  /** The word of width w that stands for the unbounded counter x. */
  function Word(w: nat, x: int): (r: nat)
    ensures r < Pow2(w)
  {
    x % Pow2(w)
  }

  /** Bitwise conjunction of two words. */
  function And(x: nat, y: nat): nat
  {
    if x == 0 || y == 0 then 0 else 2 * And(x / 2, y / 2) + (x % 2) * (y % 2)
  }

  // ---------------------------------------------------------------------
  // Arithmetic
  // ---------------------------------------------------------------------

  lemma {:induction false} Pow2Add(a: nat, b: nat)
    ensures Pow2(a + b) == Pow2(a) * Pow2(b)
  {
    if a > 0 {
      Pow2Add(a - 1, b);
      MulAssoc(2, Pow2(a - 1), Pow2(b));
    }
  }

  lemma {:induction false} Pow2Monotone(k: nat, w: nat)
    requires k <= w
    ensures Pow2(k) <= Pow2(w)
  {
    if k < w {
      Pow2Monotone(k, w - 1);
    }
  }

  lemma MulAssoc(a: int, b: int, c: int)
    ensures (a * b) * c == a * (b * c)
  {
  }

  lemma MulSub(a: int, b: int, m: int)
    ensures (a - b) * m == a * m - b * m
  {
  }

  lemma MulAtLeast(a: int, m: int)
    requires a >= 1 && m > 0
    ensures a * m >= m
  {
  }

  /** A remainder is determined by any decomposition with a part in range. */
  lemma ModUnique(x: int, m: int, q: int, r: int)
    requires m > 0 && x == q * m + r && 0 <= r < m
    ensures x % m == r && x / m == q
  {
    Decompose(x, m);
    var q', r' := x / m, x % m;
    if q' > q {
      MulSub(q', q, m);
      MulAtLeast(q' - q, m);
    } else if q' < q {
      MulSub(q, q', m);
      MulAtLeast(q - q', m);
    }
  }

  lemma Decompose(x: int, m: int)
    requires m > 0
    ensures x == (x / m) * m + x % m && 0 <= x % m < m
  {
  }

  /** Adding multiples of the modulus does not change the remainder. */
  lemma ModShift(x: int, k: int, m: int)
    requires m > 0
    ensures (x + k * m) % m == x % m && (x + k * m) / m == x / m + k
  {
    Decompose(x, m);
    MulSub(x / m, -k, m);
    ModUnique(x + k * m, m, x / m + k, x % m);
  }

  lemma ModOfMod(x: int, m: int, n: int)
    requires m > 0 && n > 0 && m * n > 0
    ensures (x % (m * n)) % n == x % n
  {
    var q := x / (m * n);
    Decompose(x, m * n);
    MulAssoc(q, m, n);
    ModShift(x % (m * n), q * m, n);
  }

  /** Wrapping twice is wrapping once: word subtraction stands for counter subtraction. */
  lemma WordSub(w: nat, a: int, b: int)
    ensures (Word(w, a) - Word(w, b)) % Pow2(w) == Word(w, a - b)
  {
    var m := Pow2(w);
    Decompose(a, m);
    Decompose(b, m);
    MulSub(a / m, b / m, m);
    ModShift(Word(w, a) - Word(w, b), a / m - b / m, m);
  }

  lemma WordAdd(w: nat, a: int, b: int)
    ensures (Word(w, a) + b) % Pow2(w) == Word(w, a + b)
  {
    var m := Pow2(w);
    Decompose(a, m);
    ModShift(Word(w, a) + b, a / m, m);
  }

  // ---------------------------------------------------------------------
  // Masks
  // ---------------------------------------------------------------------

  /** Halving commutes with remainders: the low bit of x joins the remainder of the rest. */
  lemma RemainderByBits(x: nat, h: nat)
    requires h > 0
    ensures x % (2 * h) == 2 * ((x / 2) % h) + x % 2
  {
    var q, r := (x / 2) / h, (x / 2) % h;
    Decompose(x / 2, h);
    assert q * (2 * h) == 2 * (q * h);
    ModUnique(x, 2 * h, q, 2 * r + x % 2);
  }

  lemma {:induction false} AndZero(x: nat)
    ensures And(x, 0) == 0 && And(0, x) == 0
  {
  }

  lemma {:induction false} Halves(z: nat)
    ensures (2 * z + 1) / 2 == z && (2 * z + 1) % 2 == 1 && (2 * z) / 2 == z && (2 * z) % 2 == 0
  {
  }

  /** The low bits of a mask that ends in 1, and of one that ends in 0. */
  lemma {:induction false} AndByBits(x: nat, z: nat)
    ensures And(x, 2 * z + 1) == 2 * And(x / 2, z) + x % 2
    ensures And(x, 2 * z) == 2 * And(x / 2, z)
  {
    Halves(z);
    AndZero(x / 2);
    AndZero(z);
    AndUnfolds(x, 2 * z + 1, x / 2, z, x % 2, 1);
    AndUnfolds(x, 2 * z, x / 2, z, x % 2, 0);
  }

  lemma {:induction false} AndUnfolds(x: nat, y: nat, p: nat, q: nat, a: nat, b: nat)
    requires x / 2 == p && x % 2 == a && y / 2 == q && y % 2 == b && (b == 0 || b == 1)
    ensures And(x, y) == if x == 0 || y == 0 then 0 else 2 * And(p, q) + a * b
    ensures x == 0 || y == 0 ==> And(p, q) == 0 && (x == 0 ==> a == 0) && (y == 0 ==> b == 0)
  {
    AndZero(p);
    AndZero(q);
  }

  /** x & (2^k - 1) is the remainder modulo 2^k. */
  lemma {:induction false} LowMaskIsRemainder(x: nat, k: nat)
    ensures And(x, Pow2(k) - 1) == x % Pow2(k)
  {
    hide And;
    if k == 0 {
      AndZero(x);
    } else {
      var h := Pow2(k - 1);
      LowMaskIsRemainder(x / 2, k - 1);
      RemainderByBits(x, h);
      AndByBits(x, h - 1);
    }
  }

  /** ~(2^k - 1) on words of width w. */
  function HighMask(k: nat, w: nat): nat
    requires k <= w
  {
    Pow2Monotone(k, w);
    Pow2(w) - Pow2(k)
  }

  /** x & ~(2^k - 1) clears the remainder modulo 2^k. */
  lemma {:induction false} HighMaskClearsRemainder(x: nat, k: nat, w: nat)
    requires k <= w && x < Pow2(w)
    ensures And(x, HighMask(k, w)) == x - x % Pow2(k)
  {
    hide And;
    if k == 0 {
      LowMaskIsRemainder(x, w);
      ModUnique(x, Pow2(w), 0, x);
      ModUnique(x, 1, x, 0);
    } else {
      HighMaskClearsRemainder(x / 2, k - 1, w - 1);
      RemainderByBits(x, Pow2(k - 1));
      AndByBits(x, HighMask(k - 1, w - 1));
      BitsSplit(x);
    }
  }

  lemma BitsSplit(x: nat)
    ensures x == 2 * (x / 2) + x % 2
  {
  }

  // ---------------------------------------------------------------------
  // circular_less_than
  // ---------------------------------------------------------------------

  /** The comparison of the source: the wrapped difference is larger than half the range. */
  predicate CircularLessThan(w: nat, a: nat, b: nat)
    requires w >= 1
  {
    (a - b) % Pow2(w) > Pow2(w - 1)
  }

  /**
   On counters at most half the range apart, comparing the words decides the order of
   the counters, except exactly when the first is half the range behind the second.
   */
  lemma CircularLessThanDecides(w: nat, a: int, b: int)
    requires w >= 1 && -(Pow2(w - 1) as int) <= a - b <= Pow2(w - 1)
    ensures (CircularLessThan(w, Word(w, a), Word(w, b)) <==> a < b) <==> a - b != -(Pow2(w - 1) as int)
  {
    var h := Pow2(w - 1);
    assert Pow2(w) == 2 * h;
    WordSub(w, a, b);
    if a < b {
      ModUnique(a - b, 2 * h, -1, a - b + 2 * h);
    } else {
      ModUnique(a - b, 2 * h, 0, a - b);
    }
  }

  /** Whatever the counters, the words compare as less exactly when the wrapped difference is below half the range. */
  lemma CircularLessThanExactly(w: nat, a: int, b: int)
    requires w >= 1
    ensures CircularLessThan(w, Word(w, a), Word(w, b)) <==> 0 < Word(w, b - a) < Pow2(w - 1)
  {
    hide Word;
    WordSub(w, a, b);
    HalfBehind(w, b - a);
    assert a - b == -(b - a);
  }

  lemma HalfBehind(w: nat, x: int)
    requires w >= 1
    ensures Word(w, -x) > Pow2(w - 1) <==> 0 < Word(w, x) < Pow2(w - 1)
  {
    Negated(x, Pow2(w));
    assert Pow2(w) == 2 * Pow2(w - 1);
  }

  lemma Negated(x: int, m: int)
    requires m > 0
    ensures (-x) % m == if x % m == 0 then 0 else m - x % m
  {
    Decompose(x, m);
    if x % m == 0 {
      ModUnique(-x, m, -(x / m), 0);
    } else {
      ModUnique(-x, m, -(x / m) - 1, m - x % m);
    }
  }

  /** The window in which comparisons of words are right. */
  predicate InWindow(w: nat, a: int, b: int)
    requires w >= 1
  {
    -(Pow2(w - 1) as int) < a - b <= Pow2(w - 1)
  }

  /** size_approx on words returns the number of elements between head and tail. */
  function SizeApprox(w: nat, head: nat, tail: nat): nat
    requires w >= 1
  {
    if CircularLessThan(w, head, tail) then (tail - head) % Pow2(w) else 0
  }

  /**
   Whatever the two counters read, the answer is their wrapped difference, or 0 when that is in the upper half of
   the range. Less than half the range apart, that is the number of elements between them, or 0 if there are none.
   */
  lemma SizeApproxCounts(w: nat, head: int, tail: int)
    requires w >= 1
    ensures var seen := Word(w, tail - head);
      SizeApprox(w, Word(w, head), Word(w, tail)) == if seen < Pow2(w - 1) then seen else 0
    ensures InWindow(w, head, tail) ==>
              SizeApprox(w, Word(w, head), Word(w, tail)) == if head < tail then tail - head else 0
  {
    CircularLessThanExactly(w, head, tail);
    WordSub(w, tail, head);
    if InWindow(w, head, tail) {
      DifferenceSeen(w, tail - head);
    }
    hide Pow2, Word, CircularLessThan;
  }

  /** A difference in the lower half of the range shows as it is, a negative one in the upper half. */
  lemma DifferenceSeen(w: nat, d: int)
    requires w >= 1 && -(Pow2(w - 1) as int) <= d < Pow2(w - 1)
    ensures Word(w, d) == if d >= 0 then d else d + Pow2(w)
  {
    assert Pow2(w) == 2 * Pow2(w - 1);
    if d >= 0 {
      ModUnique(d, Pow2(w), 0, d);
    } else {
      ModUnique(d, Pow2(w), -1, d + Pow2(w));
    }
  }

  // ---------------------------------------------------------------------
  // The masked slot computation
  // ---------------------------------------------------------------------

  /** The base index of the block an element index falls in. */
  function BlockBase(bs: nat, i: int): int
    requires bs > 0
  {
    i - i % bs
  }

  /** The number of blocks from the front entry to the element's block, computed on words. */
  function WordOffset(w: nat, kb: nat, frontBase: nat, index: nat): nat
    requires kb <= w
  {
    var blockBase := And(index, HighMask(kb, w));
    ((blockBase - frontBase) % Pow2(w)) / Pow2(kb)
  }

  /**
   The slot computed by `dequeue` from words only. The division is unsigned: the
   divisor is an unsigned size, so the signed operand is converted back.
   */
  function MaskedSlot(w: nat, kb: nat, ks: nat, front: nat, frontBase: nat, index: nat): nat
    requires kb <= w
  {
    And((front + WordOffset(w, kb, frontBase, index)) % Pow2(w), Pow2(ks) - 1)
  }

  /**
   The masked slot is the front slot moved by the signed number of blocks between the
   front block and the element's block, modulo the index size. This holds for every
   offset, negative or wrapped, because index size times block size divides 2^w.
   */
  lemma MaskedSlotFindsBlock(w: nat, kb: nat, ks: nat, front: nat, frontBase: int, index: int)
    requires kb + ks <= w && frontBase % Pow2(kb) == 0
    ensures MaskedSlot(w, kb, ks, front, Word(w, frontBase), Word(w, index))
            == (front + (BlockBase(Pow2(kb), index) - frontBase) / Pow2(kb)) % Pow2(ks)
  {
    var bs, c := Pow2(kb), Pow2(w - kb - ks);
    var d := BlockBase(bs, index) - frontBase;
    MaskedSlotUnfolds(w, kb, ks, front, Word(w, frontBase), Word(w, index));
    OffsetUnfolds(w, kb, frontBase, index);
    DistanceIsMultiple(bs, index, frontBase);
    WidthFactors(w, kb, ks);
    OffsetWraps(d, bs, c * Pow2(ks));
    WrappedSlot(front, d / bs, d / Pow2(w), c, Pow2(ks), c * bs);
  }

  lemma MaskedSlotUnfolds(w: nat, kb: nat, ks: nat, front: nat, frontBase: nat, index: nat)
    requires kb <= w
    ensures MaskedSlot(w, kb, ks, front, frontBase, index)
            == ((front + WordOffset(w, kb, frontBase, index)) % Pow2(w)) % Pow2(ks)
  {
    LowMaskIsRemainder((front + WordOffset(w, kb, frontBase, index)) % Pow2(w), ks);
  }

  lemma OffsetUnfolds(w: nat, kb: nat, frontBase: int, index: int)
    requires kb <= w
    ensures WordOffset(w, kb, Word(w, frontBase), Word(w, index))
        == Word(w, BlockBase(Pow2(kb), index) - frontBase) / Pow2(kb)
  {
    MaskedBase(w, kb, index);
    WordSub(w, BlockBase(Pow2(kb), index), frontBase);
  }

  lemma DistanceIsMultiple(bs: int, index: int, frontBase: int)
    requires bs > 0 && frontBase % bs == 0
    ensures (BlockBase(bs, index) - frontBase) % bs == 0
  {
    BaseMultiple(bs, index);
    Decompose(frontBase, bs);
    MulSub(index / bs, frontBase / bs, bs);
    ModUnique(BlockBase(bs, index) - frontBase, bs, index / bs - frontBase / bs, 0);
  }

  lemma WidthFactors(w: nat, kb: nat, ks: nat)
    requires kb + ks <= w
    ensures var c := Pow2(w - kb - ks);
            Pow2(w) == (c * Pow2(ks)) * Pow2(kb) && Pow2(w) == (c * Pow2(kb)) * Pow2(ks)
            && c * Pow2(kb) > 0 && c * Pow2(ks) > 0
  {
    var c := Pow2(w - kb - ks);
    Pow2Add(w - kb - ks, kb + ks);
    Pow2Add(ks, kb);
    MulAssoc(c, Pow2(ks), Pow2(kb));
    MulAssoc(c, Pow2(kb), Pow2(ks));
    MulAtLeast(c, Pow2(kb));
    MulAtLeast(c, Pow2(ks));
  }

  /** Whole multiples of the index size vanish in the final mask. */
  lemma WrappedSlot(front: int, n: int, p: int, c: int, size: int, k: int)
    requires size > 0 && k > 0 && k * size > 0
    ensures ((front + (n - p * (c * size))) % (k * size)) % size == (front + n) % size
  {
    ModOfMod(front + (n - p * (c * size)), k, size);
    MulAssoc(p, c, size);
    MulSub(0, p * c, size);
    ModShift(front + n, -(p * c), size);
  }

  /** Clearing the low bits of a word gives the word of the block base. */
  lemma MaskedBase(w: nat, kb: nat, index: int)
    requires kb <= w
    ensures And(Word(w, index), HighMask(kb, w)) == Word(w, BlockBase(Pow2(kb), index))
  {
    var bs, m, x := Pow2(kb), Pow2(w), Word(w, index);
    HighMaskClearsRemainder(x, kb, w);
    Pow2Add(w - kb, kb);
    ModOfMod(index, Pow2(w - kb), bs);
    RemainderBelow(x, bs);
    Decompose(index, m);
    ModUnique(BlockBase(bs, index), m, index / m, x - x % bs);
  }

  /** Wrapping a multiple of bs modulo k * bs shifts its quotient by a multiple of k. */
  lemma OffsetWraps(d: int, bs: int, k: int)
    requires bs > 0 && k * bs > 0 && d % bs == 0
    ensures (d % (k * bs)) / bs == d / bs - (d / (k * bs)) * k
  {
    var p := d / (k * bs);
    Decompose(d, k * bs);
    Decompose(d, bs);
    MulAssoc(p, k, bs);
    MulSub(d / bs, p * k, bs);
    ModUnique(d % (k * bs), bs, d / bs - p * k, 0);
  }

  lemma RemainderBelow(x: nat, m: nat)
    requires m > 0
    ensures x % m <= x
  {
    if x < m {
      ModUnique(x, m, 0, x);
    }
  }

  lemma BaseMultiple(bs: nat, i: int)
    requires bs > 0
    ensures BlockBase(bs, i) % bs == 0 && BlockBase(bs, i) == (i / bs) * bs
    ensures BlockBase(bs, i) / bs == i / bs
    ensures BlockBase(bs, i) <= i < BlockBase(bs, i) + bs
  {
    Decompose(i, bs);
    ModUnique(BlockBase(bs, i), bs, i / bs, 0);
  }
}
