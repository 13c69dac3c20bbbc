/**
 The in-flight bitmap of lib/icmp/icmp.c: a machine word read as a set of message ids.
 Single-bit facts are stated over `Half` (a right shift by one), the only shift the
 source's loops use, so that they follow the shifting copy of the word.
 */
module Bitmap {
  import opened Common

  predicate Odd(b: bv32) { b & 1 == 1 }

  function Half(b: bv32): bv32 { b >> 1 }

  function Or(b: bv32, k: bv32): bv32 { b | k }

  function AndNot(b: bv32, k: bv32): bv32 { b & !k }

  predicate Meets(b: bv32, k: bv32) { b & k != 0 }

  function Mask(i: nat): bv32
    requires i < 32
  {
    (1 as bv32) << i
  }

  /** Bit `i` of the word `b`. */
  predicate Bit(b: bv32, i: nat) { if i == 0 then Odd(b) else Bit(Half(b), i - 1) }

  /** `k` has bit `i` set and no other. */
  predicate OneBit(k: bv32, i: nat) { if i == 0 then k == 1 else !Odd(k) && OneBit(Half(k), i - 1) }

  /** The ids below `n` whose bit is set. */
  function Bits(b: bv32, n: nat): set<nat> { set i: nat | i < n && Bit(b, i) }

  // ---- word-level facts, one shift at a time ------------------------------------------

  // The solver evaluates a shift only by a literal amount, hence the enumerations.

  lemma MaskShiftLow(i: nat)
    requires 0 < i < 16
    ensures Half(Mask(i)) == Mask(i - 1) && !Odd(Mask(i))
  {
    if i == 1 {} else if i == 2 {} else if i == 3 {} else if i == 4 {} else if i == 5 {}
    else if i == 6 {} else if i == 7 {} else if i == 8 {} else if i == 9 {} else if i == 10 {}
    else if i == 11 {} else if i == 12 {} else if i == 13 {} else if i == 14 {} else {}
  }

  lemma MaskShiftHigh(i: nat)
    requires 16 <= i < 24
    ensures Half(Mask(i)) == Mask(i - 1) && !Odd(Mask(i))
  {
    if i == 16 {} else if i == 17 {} else if i == 18 {} else if i == 19 {} else if i == 20 {}
    else if i == 21 {} else if i == 22 {} else {}
  }

  lemma MaskShiftTop(i: nat)
    requires 24 <= i < 32
    ensures Half(Mask(i)) == Mask(i - 1) && !Odd(Mask(i))
  {
    if i == 24 {} else if i == 25 {} else if i == 26 {} else if i == 27 {} else if i == 28 {}
    else if i == 29 {} else if i == 30 {} else {}
  }

  lemma {:induction false} MaskIsOneBit(i: nat)
    requires i < 32
    ensures OneBit(Mask(i), i)
  {
    if i == 0 {
      assert Mask(0) == 1;
    } else {
      if i < 16 { MaskShiftLow(i); } else if i < 24 { MaskShiftHigh(i); } else { MaskShiftTop(i); }
      MaskIsOneBit(i - 1);
    }
  }

  lemma OrHalf(b: bv32, k: bv32)
    ensures Half(Or(b, k)) == Or(Half(b), Half(k))
    ensures Odd(Or(b, k)) <==> Odd(b) || Odd(k)
  {
  }

  lemma OrOne(b: bv32)
    ensures Half(Or(b, 1)) == Half(b) && Odd(Or(b, 1))
  {
  }

  lemma AndNotHalf(b: bv32, k: bv32)
    ensures Half(AndNot(b, k)) == AndNot(Half(b), Half(k))
    ensures Odd(AndNot(b, k)) <==> Odd(b) && !Odd(k)
  {
  }

  lemma AndNotOne(b: bv32)
    ensures Half(AndNot(b, 1)) == Half(b) && !Odd(AndNot(b, 1))
  {
  }

  lemma AndHalf(b: bv32, k: bv32)
    requires !Odd(k)
    ensures Meets(b, k) <==> Meets(Half(b), Half(k))
  {
  }

  // ---- what |=, &= ~ and & with a mask do to one bit --------------------------------------

  lemma BitStep(b: bv32, j: nat)
    requires j > 0
    ensures Bit(b, j) == Bit(Half(b), j - 1)
  {
  }

  lemma OrBitBase(b: bv32, k: bv32, m: nat, j: nat)
    requires OneBit(k, m) && (m == 0 || j == 0)
    ensures Bit(Or(b, k), j) <==> j == m || Bit(b, j)
  {
    if m == 0 { OrOne(b); } else { OrHalf(b, k); }
  }

  lemma {:induction false} OrBit(b: bv32, k: bv32, m: nat, j: nat)
    requires OneBit(k, m)
    ensures Bit(Or(b, k), j) <==> j == m || Bit(b, j)
    decreases j
  {
    if m == 0 || j == 0 {
      OrBitBase(b, k, m, j);
    } else {
      OrBit(Half(b), Half(k), m - 1, j - 1);
      OrHalf(b, k);
      BitStep(Or(b, k), j);
    }
  }

  lemma AndNotBitBase(b: bv32, k: bv32, m: nat, j: nat)
    requires OneBit(k, m) && (m == 0 || j == 0)
    ensures Bit(AndNot(b, k), j) <==> j != m && Bit(b, j)
  {
    if m == 0 { AndNotOne(b); } else { AndNotHalf(b, k); }
  }

  lemma {:induction false} AndNotBit(b: bv32, k: bv32, m: nat, j: nat)
    requires OneBit(k, m)
    ensures Bit(AndNot(b, k), j) <==> j != m && Bit(b, j)
    decreases j
  {
    if m == 0 || j == 0 {
      AndNotBitBase(b, k, m, j);
    } else {
      AndNotBit(Half(b), Half(k), m - 1, j - 1);
      AndNotHalf(b, k);
      BitStep(AndNot(b, k), j);
    }
  }

  lemma {:induction false} TestBit(b: bv32, k: bv32, m: nat)
    requires OneBit(k, m)
    ensures Meets(b, k) <==> Bit(b, m)
  {
    if m > 0 {
      TestBit(Half(b), Half(k), m - 1);
      AndHalf(b, k);
    } else {
      TestLowBit(b);
    }
  }

  lemma TestLowBit(b: bv32)
    ensures Meets(b, 1) <==> Odd(b)
    ensures b & 1 == 0 <==> !Odd(b)
  {
  }

  lemma {:induction false} ZeroHasNoBits(j: nat)
    ensures !Bit(0, j)
  {
    if j > 0 { ZeroHasNoBits(j - 1); }
  }

  // ---- the updates and scans of the source, as set operations ------------------------------

  /** No bit of the word lies at `n` or above. */
  predicate Fits(b: bv32, n: nat) { Bits(b, n) == Bits(b, 32) }

  lemma ZeroIsEmpty(n: nat)
    ensures Bits(0, n) == {}
  {
    forall j: nat ensures !Bit(0, j) { ZeroHasNoBits(j); }
  }

  lemma OrBits(b: bv32, m: nat, n: nat)
    requires m < n && m < 32
    ensures Bits(Or(b, Mask(m)), n) == Bits(b, n) + {m}
  {
    MaskIsOneBit(m);
    forall j: nat ensures Bit(Or(b, Mask(m)), j) <==> j == m || Bit(b, j) {
      OrBit(b, Mask(m), m, j);
    }
  }

  lemma AndNotBits(b: bv32, m: nat, n: nat)
    requires m < 32
    ensures Bits(AndNot(b, Mask(m)), n) == Bits(b, n) - {m}
  {
    MaskIsOneBit(m);
    forall j: nat ensures Bit(AndNot(b, Mask(m)), j) <==> j != m && Bit(b, j) {
      AndNotBit(b, Mask(m), m, j);
    }
  }

  /** `bitmap |= (1 << m)` adds `m`. */
  lemma SetRefines(b: bv32, m: nat, n: nat)
    requires m < n <= 32 && Fits(b, n)
    ensures Bits(Or(b, Mask(m)), n) == Bits(b, n) + {m} && Fits(Or(b, Mask(m)), n)
  {
    OrBits(b, m, n);
    OrBits(b, m, 32);
  }

  /** `bitmap &= ~(1 << m)` removes `m`. */
  lemma ClearRefines(b: bv32, m: nat, n: nat)
    requires m < 32 && Fits(b, n)
    ensures Bits(AndNot(b, Mask(m)), n) == Bits(b, n) - {m} && Fits(AndNot(b, Mask(m)), n)
  {
    AndNotBits(b, m, n);
    AndNotBits(b, m, 32);
  }

  /** `IS_BIT_SET(bitmap, m)` is membership. */
  lemma IsBitSetRefines(b: bv32, m: nat, n: nat)
    requires m < 32 && Fits(b, n)
    ensures Meets(b, Mask(m)) <==> m in Bits(b, n)
  {
    MaskIsOneBit(m);
    TestBit(b, Mask(m), m);
    assert m in Bits(b, 32) <==> Bit(b, m);
  }

  /** The word shifted right `k` times. */
  function Shifted(b: bv32, k: nat): bv32 { if k == 0 then b else Half(Shifted(b, k - 1)) }

  lemma {:induction false} ShiftedBit(b: bv32, k: nat, j: nat)
    ensures Bit(Shifted(b, k), j) == Bit(b, k + j)
  {
    if k > 0 {
      ShiftedBit(b, k - 1, j + 1);
    }
  }

  /** The low bit of the shifting copy tells whether the id that the scan has reached is in the set. */
  lemma LowBitOfCopy(b: bv32, k: nat, n: nat)
    requires k < n
    ensures Shifted(b, k) & 1 == 0 <==> k !in Bits(b, n)
  {
    ShiftedBit(b, k, 0);
    TestLowBit(Shifted(b, k));
  }

  /** The scan of a shifting copy: the least clear bit below `len`, or -EAGAIN when there is none. */
  method AllocateMsgId(bitmap: bv32, len: nat) returns (r: int)
    ensures r == -EAGAIN || 0 <= r < len
    ensures r == -EAGAIN <==> forall j: nat :: j < len ==> j in Bits(bitmap, len)
    ensures r >= 0 ==> r !in Bits(bitmap, len) && forall j: nat :: j < r ==> j in Bits(bitmap, len)
  {
    var copy := bitmap;
    var bit: nat := 0;
    while bit < len
      invariant bit <= len
      invariant copy == Shifted(bitmap, bit)
      invariant forall j: nat :: j < bit ==> j in Bits(bitmap, len)
    {
      LowBitOfCopy(bitmap, bit, len);
      if copy & 1 == 0 {
        return bit;
      }
      copy := Half(copy);
      bit := bit + 1;
    }
    return -EAGAIN;
  }
}
