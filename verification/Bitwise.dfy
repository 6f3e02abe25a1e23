/** Exclusive or, and, and shifts on 32-bit words, written out bit by bit. */
module Bitwise {
  import opened Common
  import opened Numerals

  function BitXor(a: nat, b: nat): nat
    decreases a, b
  {
    if a == 0 then b else if b == 0 then a else (if a % 2 == b % 2 then 0 else 1) + 2 * BitXor(a / 2, b / 2)
  }

  function BitAnd(a: nat, b: nat): nat
    decreases a, b
  {
    if a == 0 || b == 0 then 0 else (if a % 2 == 1 && b % 2 == 1 then 1 else 0) + 2 * BitAnd(a / 2, b / 2)
  }

  /** Bit `i`, counted from the least significant. */
  function BitAt(a: nat, i: nat): nat
    decreases i
  {
    if i == 0 then a % 2 else BitAt(a / 2, i - 1)
  }

  lemma LowBit(low: nat, rest: nat)
    requires low < 2
    ensures (low + 2 * rest) % 2 == low && (low + 2 * rest) / 2 == rest
  {
  }

  lemma XorLowest(a: nat, b: nat)
    requires a != 0 && b != 0
    ensures BitXor(a, b) % 2 == (if a % 2 == b % 2 then 0 else 1) && BitXor(a, b) / 2 == BitXor(a / 2, b / 2)
  {
    var rest := BitXor(a / 2, b / 2);
    assert BitXor(a, b) == (if a % 2 == b % 2 then 0 else 1) + 2 * rest;
    hide BitXor;
    LowBit(if a % 2 == b % 2 then 0 else 1, rest);
  }

  /** Exclusive or adds each pair of bits and keeps no carry. */
  lemma {:induction false} XorBits(a: nat, b: nat, i: nat)
    ensures BitAt(BitXor(a, b), i) == (BitAt(a, i) + BitAt(b, i)) % 2
    decreases i
  {
    NoBits(i);
    BitsAreBits(a, i);
    BitsAreBits(b, i);
    if a != 0 && b != 0 {
      XorLowest(a, b);
      hide BitXor;
      if i > 0 {
        XorBits(a / 2, b / 2, i - 1);
      }
    }
  }

  lemma AndLowest(a: nat, b: nat)
    requires a != 0 && b != 0
    ensures BitAnd(a, b) % 2 == (if a % 2 == 1 && b % 2 == 1 then 1 else 0) && BitAnd(a, b) / 2 == BitAnd(a / 2, b / 2)
  {
    var rest := BitAnd(a / 2, b / 2);
    assert BitAnd(a, b) == (if a % 2 == 1 && b % 2 == 1 then 1 else 0) + 2 * rest;
    hide BitAnd;
    LowBit(if a % 2 == 1 && b % 2 == 1 then 1 else 0, rest);
  }

  /** And multiplies each pair of bits. */
  lemma {:induction false} AndBits(a: nat, b: nat, i: nat)
    ensures BitAt(BitAnd(a, b), i) == if BitAt(a, i) == 1 && BitAt(b, i) == 1 then 1 else 0
    decreases i
  {
    NoBits(i);
    if a != 0 && b != 0 {
      AndLowest(a, b);
      hide BitAnd;
      if i > 0 {
        AndBits(a / 2, b / 2, i - 1);
      }
    }
  }

  lemma {:induction false} NoBits(i: nat)
    ensures BitAt(0, i) == 0
    decreases i
  {
    if i > 0 {
      NoBits(i - 1);
    }
  }

  lemma {:induction false} BitsAreBits(a: nat, i: nat)
    ensures BitAt(a, i) == 0 || BitAt(a, i) == 1
    decreases i
  {
    if i > 0 {
      BitsAreBits(a / 2, i - 1);
    }
  }

  lemma {:induction false} XorBelow(a: nat, b: nat, k: nat)
    requires a < Pow2(k) && b < Pow2(k)
    ensures BitXor(a, b) < Pow2(k)
    decreases k
  {
    if a != 0 && b != 0 {
      XorBelow(a / 2, b / 2, k - 1);
    }
  }

  lemma {:induction false} AndBelow(a: nat, b: nat)
    ensures BitAnd(a, b) <= a
    decreases a, b
  {
    if a != 0 && b != 0 {
      AndBelow(a / 2, b / 2);
    }
  }

  lemma ThirtyTwo()
    ensures Pow2(32) == WORD_BASE
  {
    assert Pow2(4) == 16;
    Pow2Add(4, 4);
    Pow2Add(8, 8);
    Pow2Add(16, 16);
  }

  function Xor(a: Word, b: Word): Word {
    ThirtyTwo();
    XorBelow(a, b, 32);
    BitXor(a, b)
  }

  function And(a: Word, b: Word): Word {
    AndBelow(a, b);
    BitAnd(a, b)
  }

  function ShiftRight(w: Word, bits: nat): (r: Word)
    ensures r == w / Pow2(bits)
  {
    QuotientBelow(w, Pow2(bits));
    w / Pow2(bits)
  }

  /** Bits shifted past the top are lost. */
  function ShiftLeft(w: Word, bits: nat): Word {
    (w * Pow2(bits)) % WORD_BASE
  }

  lemma QuotientBelow(w: nat, divisor: nat)
    requires divisor > 0
    ensures 0 <= w / divisor <= w
  {
    DivMod(w, divisor);
    if w / divisor > w {
      MulMonotone(divisor, w + 1, w / divisor);
      MulMonotone(w + 1, 1, divisor);
    }
  }
}
