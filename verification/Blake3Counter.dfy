/**
 The 64-bit chunk counter and the mask of the merge rule, in numbers: the n low
 bits of the counter are zero exactly when 2^n divides the number of chunks.
 */
module Blake3Counter {
  import opened Arithmetic
  import opened Wire
  import opened Blake3Tree
  import opened Blake3Merge

  // The mask is the one the source computes by a shift.
  lemma {:induction false} MaskIsShift(n: nat)
    requires n < 64
    ensures ByteAfter(n) < 64 && Mask(n) == ((1 as bv64) << ByteAfter(n)) - 1
  {
    if n > 0 {
      MaskIsShift(n - 1);
      SmallByte(n - 1);
      ShiftedMask(ByteAfter(n - 1));
    }
  }

  lemma {:induction false} SmallByte(n: nat)
    requires n < 63
    ensures ByteAfter(n) < 63
  {
    ByteAfterValue(n);
  }

  lemma ShiftedMask(a: byte)
    requires a < 63
    ensures (((((1 as bv64) << a) - 1) << 1) | 1) == ((1 as bv64) << (a + 1)) - 1
  {
  }

  lemma NoTopBit(n: nat)
    requires n < 64
    ensures Mask(n) & 0x8000_0000_0000_0000 == 0
  {
    MaskIsShift(n);
    ShiftHasNoTop(ByteAfter(n));
    hide Mask, ByteAfter;
  }

  lemma ShiftHasNoTop(a: byte)
    requires a < 64
    ensures (((1 as bv64) << a) - 1) & 0x8000_0000_0000_0000 == 0
  {
  }

  function Double(c: bv64): bv64 {
    c << 1
  }

  function DoubleAndOne(c: bv64): bv64 {
    (c << 1) | 1
  }

  lemma DoubleStep(c: bv64)
    ensures Next(Double(c)) == DoubleAndOne(c) && Next(DoubleAndOne(c)) == Double(Next(c))
  {
  }

  lemma DoubleOfNothing()
    ensures Double(0) == 0
  {
  }

  lemma {:induction false} CounterDouble(j: nat)
    ensures Counter(2 * j) == Double(Counter(j)) && Counter(2 * j + 1) == DoubleAndOne(Counter(j))
  {
    hide Next, Double, DoubleAndOne;
    if j == 0 {
      DoubleOfNothing();
    } else {
      CounterDouble(j - 1);
      DoubleStep(Counter(j - 1));
    }
    DoubleStep(Counter(j));
  }

  predicate Meet(c: bv64, m: bv64) {
    c & m != 0
  }

  predicate TopIsFree(m: bv64) {
    m & 0x8000_0000_0000_0000 == 0
  }

  lemma DoublesMeet(c: bv64, m: bv64)
    requires TopIsFree(m)
    ensures Meet(Double(c), DoubleAndOne(m)) <==> Meet(c, m)
    ensures Meet(DoubleAndOne(c), DoubleAndOne(m))
  {
  }

  lemma LowBitsAreMasked(c: bv64, n: nat)
    ensures LowBits(c, n) <==> Meet(c, Mask(n))
  {
    hide Mask;
  }

  lemma MaskGrows(n: nat)
    ensures Mask(n + 1) == DoubleAndOne(Mask(n))
  {
  }

  lemma MaskLeavesTop(n: nat)
    requires n < 64
    ensures TopIsFree(Mask(n))
  {
    NoTopBit(n);
    hide Mask;
  }

  lemma LowBitsDouble(c: bv64, n: nat)
    requires n < 64
    ensures LowBits(Double(c), n + 1) <==> LowBits(c, n)
    ensures LowBits(DoubleAndOne(c), n + 1)
  {
    hide Mask, Meet, TopIsFree, LowBits, Double, DoubleAndOne;
    LowBitsAreMasked(c, n);
    LowBitsAreMasked(Double(c), n + 1);
    LowBitsAreMasked(DoubleAndOne(c), n + 1);
    MaskGrows(n);
    MaskLeavesTop(n);
    DoublesMeet(c, Mask(n));
  }

  lemma DoubleRemainder(j: nat, p: nat)
    requires p > 0
    ensures (2 * j) % (2 * p) == 0 <==> j % p == 0
    ensures (2 * j + 1) % (2 * p) != 0
  {
    DivMod(j, p);
    var q, r := j / p, j % p;
    assert 2 * j == q * (2 * p) + 2 * r;
    DivModUnique(2 * j, 2 * p, q, 2 * r);
    DivModUnique(2 * j + 1, 2 * p, q, 2 * r + 1);
  }

  // The bits the merge rule looks at.
  lemma {:induction false} LowBitsMeaning(i: nat, n: nat)
    requires n <= 64
    ensures LowBits(Counter(i), n) <==> i % Pow2(n) != 0
  {
    if n > 0 {
      hide LowBits, Counter, Double, DoubleAndOne;
      var j := i / 2;
      LowBitsMeaning(j, n - 1);
      CounterDouble(j);
      LowBitsDouble(Counter(j), n - 1);
      DoubleRemainder(j, Pow2(n - 1));
    }
  }
}
