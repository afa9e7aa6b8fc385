/** 64-bit machine words as integers. Shifts and masks are division and remainder by powers of two;
    the bitwise or of two words is computed bit by bit. */
module Words {
  const WORD_SPAN: int := 0x1_0000_0000_0000_0000

  type Word = x: int | 0 <= x < WORD_SPAN

  function Pow2(k: nat): nat {
    if k == 0 then 1 else 2 * Pow2(k - 1)
  }

  function OrBits(a: nat, b: nat): nat
    decreases a + b
  {
    if a == 0 then b else if b == 0 then a
    else 2 * OrBits(a / 2, b / 2) + (if a % 2 == 1 || b % 2 == 1 then 1 else 0)
  }

  lemma {:induction false} OrBitsFits(a: nat, b: nat, k: nat)
    requires a < Pow2(k) && b < Pow2(k)
    ensures OrBits(a, b) < Pow2(k)
  {
    if a != 0 && b != 0 {
      OrBitsFits(a / 2, b / 2, k - 1);
    }
  }

  lemma Regroup(a: nat, b: nat)
    ensures 2 * (a * b) == (2 * a) * b
  {
  }

  lemma {:induction false} Pow2Sum(j: nat, k: nat)
    ensures Pow2(j + k) == Pow2(j) * Pow2(k)
  {
    if j > 0 {
      Pow2Sum(j - 1, k);
      Regroup(Pow2(j - 1), Pow2(k));
    }
  }

  lemma WordBits()
    ensures Pow2(64) == WORD_SPAN
  {
    assert Pow2(2) == 4;
    Pow2Sum(2, 2);
    Pow2Sum(4, 4);
    Pow2Sum(8, 8);
    Pow2Sum(16, 16);
    Pow2Sum(32, 32);
  }

  /** `a | b` */
  function Or(a: Word, b: Word): Word {
    WordBits();
    OrBitsFits(a, b, 64);
    OrBits(a, b)
  }

  function Bit(x: nat, k: nat): nat {
    if k == 0 then x % 2 else Bit(x / 2, k - 1)
  }

  lemma {:induction false} BitsOfOr(a: nat, b: nat, k: nat)
    ensures Bit(OrBits(a, b), k) == 1 <==> Bit(a, k) == 1 || Bit(b, k) == 1
    decreases k
  {
    if a == 0 {
      NoBitInZero(k);
    } else if b == 0 {
      NoBitInZero(k);
    } else if k > 0 {
      BitsOfOr(a / 2, b / 2, k - 1);
    }
  }

  lemma {:induction false} NoBitInZero(k: nat)
    ensures Bit(0, k) == 0
  {
    if k > 0 { NoBitInZero(k - 1); }
  }

  /** Each bit of `a | b` is set exactly if it is set in `a` or in `b`. */
  lemma OrIsBitwise(a: Word, b: Word, k: nat)
    ensures Bit(Or(a, b), k) == 1 <==> Bit(a, k) == 1 || Bit(b, k) == 1
  {
    BitsOfOr(a, b, k);
  }

  lemma {:induction false} OrIntoZero(x: Word)
    ensures Or(0, x) == x
  {
  }

  /** Setting the lowest bit of an even word adds one, from either side. */
  lemma {:induction false} OrLowBit(x: Word)
    requires x % 2 == 0
    ensures Or(x, 1) == x + 1 && Or(1, x) == x + 1
  {
    assert OrBits(x / 2, 0) == x / 2 && OrBits(0, x / 2) == x / 2;
  }

  /** `x << 12`, losing the top twelve bits. */
  function ShiftLeft12(x: Word): (r: Word)
    ensures r == (x % 0x10_0000_0000_0000) * 4096
  {
    ShiftKeepsLowBits(x, x / 0x10_0000_0000_0000, x % 0x10_0000_0000_0000);
    (x * 4096) % WORD_SPAN
  }

  lemma ShiftKeepsLowBits(x: Word, q: nat, r: nat)
    requires x == q * 0x10_0000_0000_0000 + r && r < 0x10_0000_0000_0000
    ensures (x * 4096) % WORD_SPAN == r * 4096
  {
    assert x * 4096 == q * WORD_SPAN + r * 4096;
  }
}
