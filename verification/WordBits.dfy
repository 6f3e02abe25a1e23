/** Shifts and masks bit by bit, and a word as its 32 bits. */
module WordBits {
  import opened Common
  import opened Numerals
  import opened Bitwise

  lemma HalfBelow(w: nat, k: nat)
    requires w < Pow2(k) && k > 0
    ensures w / 2 < Pow2(k - 1)
  {
  }

  lemma {:induction false} NoBitsAbove(w: nat, k: nat, i: nat)
    requires w < Pow2(k) && i >= k
    ensures BitAt(w, i) == 0
    decreases i
  {
    if k == 0 {
      NoBits(i);
    } else {
      HalfBelow(w, k);
      NoBitsAbove(w / 2, k - 1, i - 1);
    }
  }

  lemma HalfOfQuotient(w: nat, k: nat)
    requires k > 0
    ensures 0 <= w / Pow2(k) && w / Pow2(k) == (w / 2) / Pow2(k - 1)
  {
    var p, q := Pow2(k - 1), (w / 2) / Pow2(k - 1);
    DivMod(w / 2, p);
    MulAssoc(2, p, q);
    DivModUnique(w, 2 * p, q, 2 * ((w / 2) % p) + w % 2);
    DivMod(w, Pow2(k));
  }

  lemma {:induction false} QuotientBits(w: nat, k: nat, i: nat)
    ensures w / Pow2(k) >= 0 && BitAt(w / Pow2(k), i) == BitAt(w, i + k)
    decreases k
  {
    if k > 0 {
      HalfOfQuotient(w, k);
      QuotientBits(w / 2, k - 1, i);
    }
  }

  lemma {:induction false} ProductBits(w: nat, k: nat, i: nat)
    ensures BitAt(w * Pow2(k), i) == if i < k then 0 else BitAt(w, i - k)
    decreases i
  {
    if k > 0 {
      var half := w * Pow2(k - 1);
      assert w * Pow2(k) == 2 * half by {
        MulAssoc(2, w, Pow2(k - 1));
        MulAssoc(w, 2, Pow2(k - 1));
      }
      LowBit(0, half);
      if i > 0 {
        ProductBits(w, k - 1, i - 1);
      }
    }
  }

  lemma HalfOfRemainder(w: nat, k: nat)
    requires k > 0
    ensures w % Pow2(k) >= 0 && (w % Pow2(k)) % 2 == w % 2 && (w % Pow2(k)) / 2 == (w / 2) % Pow2(k - 1)
  {
    var p, h := Pow2(k - 1), w / 2;
    DivMod(h, p);
    MulAssoc(2, p, h / p);
    DivModUnique(w, 2 * p, h / p, 2 * (h % p) + w % 2);
  }

  lemma {:induction false} RemainderBits(w: nat, k: nat, i: nat)
    requires i < k
    ensures w % Pow2(k) >= 0 && BitAt(w % Pow2(k), i) == BitAt(w, i)
    decreases i
  {
    HalfOfRemainder(w, k);
    if i > 0 {
      RemainderBits(w / 2, k - 1, i - 1);
    }
  }

  /** A right shift moves every bit down, with zeros from above. */
  lemma ShiftRightBits(w: Word, k: nat, i: nat)
    ensures BitAt(ShiftRight(w, k), i) == if i + k < 32 then BitAt(w, i + k) else 0
  {
    QuotientBits(w, k, i);
    ThirtyTwo();
    if i + k >= 32 {
      NoBitsAbove(w, 32, i + k);
    }
  }

  /** A left shift moves every bit up, with zeros from below; bits past the top are lost. */
  lemma ShiftLeftBits(w: Word, k: nat, i: nat)
    requires i < 32
    ensures BitAt(ShiftLeft(w, k), i) == if i < k then 0 else BitAt(w, i - k)
  {
    ThirtyTwo();
    RemainderBits(w * Pow2(k), 32, i);
    ProductBits(w, k, i);
  }

  lemma {:induction false} BitsDecideBelow(v: nat, w: nat, k: nat)
    requires v < Pow2(k) && w < Pow2(k) && forall i: nat | i < k :: BitAt(v, i) == BitAt(w, i)
    ensures v == w
    decreases k
  {
    if k > 0 {
      HalfBelow(v, k);
      HalfBelow(w, k);
      assert BitAt(v, 0) == BitAt(w, 0);
      forall i: nat | i < k - 1 ensures BitAt(v / 2, i) == BitAt(w / 2, i) {
        assert BitAt(v, i + 1) == BitAt(w, i + 1);
      }
      BitsDecideBelow(v / 2, w / 2, k - 1);
    }
  }

  /** Words with the same 32 bits are equal. */
  lemma BitsDecide(v: Word, w: Word)
    requires forall i: nat | i < 32 :: BitAt(v, i) == BitAt(w, i)
    ensures v == w
  {
    ThirtyTwo();
    BitsDecideBelow(v, w, 32);
  }

  lemma {:induction false} PowerBits(k: nat, i: nat)
    ensures BitAt(Pow2(k), i) == if i == k then 1 else 0
    decreases i
  {
    if k == 0 {
      if i > 0 {
        NoBits(i - 1);
      }
    } else {
      LowBit(0, Pow2(k - 1));
      if i > 0 {
        PowerBits(k - 1, i - 1);
      }
    }
  }

  lemma {:induction false} OnesBits(k: nat, i: nat)
    ensures BitAt(Pow2(k) - 1, i) == if i < k then 1 else 0
    decreases i
  {
    if k == 0 {
      NoBits(i);
    } else {
      LowBit(1, Pow2(k - 1) - 1);
      if i > 0 {
        OnesBits(k - 1, i - 1);
      }
    }
  }
}
