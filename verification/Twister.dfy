/** What the twister's word functions do, bit by bit, and the tempering undone. */
module Twister {
  import opened Common
  import opened Numerals
  import opened Bitwise
  import opened WordBits
  import opened Mersenne

  // Tempering.

  /** Solves `y == x ^ (x >> k)` for `x`, `k` bits at a time from the top. */
  function UndoRight(y: Word, k: nat, rounds: nat): Word {
    if rounds == 0 then y else Xor(y, ShiftRight(UndoRight(y, k, rounds - 1), k))
  }

  /** Solves `y == x ^ ((x << k) & mask)` for `x`, `k` bits at a time from the bottom. */
  function UndoLeft(y: Word, k: nat, mask: Word, rounds: nat): Word {
    if rounds == 0 then y else Xor(y, And(ShiftLeft(UndoLeft(y, k, mask, rounds - 1), k), mask))
  }

  lemma RoundRight(y: Word, u: Word, k: nat, i: nat)
    requires i < 32
    ensures BitAt(Xor(y, ShiftRight(u, k)), i) == (BitAt(y, i) + if i + k < 32 then BitAt(u, i + k) else 0) % 2
    ensures BitAt(y, i) == BitAt(y, i) % 2
  {
    XorBits(y, ShiftRight(u, k), i);
    ShiftRightBits(u, k, i);
    BitsAreBits(y, i);
  }

  lemma RoundLeft(y: Word, u: Word, k: nat, mask: Word, i: nat)
    requires i < 32
    ensures BitAt(Xor(y, And(ShiftLeft(u, k), mask)), i)
         == (BitAt(y, i) + if i >= k && BitAt(mask, i) == 1 then BitAt(u, i - k) else 0) % 2
    ensures BitAt(y, i) == BitAt(y, i) % 2
  {
    XorBits(y, And(ShiftLeft(u, k), mask), i);
    AndBits(ShiftLeft(u, k), mask, i);
    ShiftLeftBits(u, k, i);
    BitsAreBits(y, i);
    if i >= k {
      BitsAreBits(u, i - k);
    }
  }

  lemma {:induction false} UndoneFromTop(x: Word, k: nat, rounds: nat, i: nat)
    requires i < 32 && i + (rounds + 1) * k >= 32
    ensures BitAt(UndoRight(Xor(x, ShiftRight(x, k)), k, rounds), i) == BitAt(x, i)
    decreases rounds
  {
    hide BitAt, Xor, ShiftRight;
    var y := Xor(x, ShiftRight(x, k));
    RoundRight(x, x, k, i);
    if rounds > 0 {
      var u := UndoRight(y, k, rounds - 1);
      RoundRight(y, u, k, i);
      if i + k < 32 {
        assert (rounds + 1) * k == rounds * k + k;
        UndoneFromTop(x, k, rounds - 1, i + k);
      }
    }
  }

  lemma {:induction false} UndoneFromBottom(x: Word, k: nat, mask: Word, rounds: nat, i: nat)
    requires i < 32 && i < (rounds + 1) * k
    ensures BitAt(UndoLeft(Xor(x, And(ShiftLeft(x, k), mask)), k, mask, rounds), i) == BitAt(x, i)
    decreases rounds
  {
    hide BitAt, Xor, And, ShiftLeft;
    var y := Xor(x, And(ShiftLeft(x, k), mask));
    RoundLeft(x, x, k, mask, i);
    if rounds > 0 {
      var u := UndoLeft(y, k, mask, rounds - 1);
      RoundLeft(y, u, k, mask, i);
      if i >= k {
        assert (rounds + 1) * k == rounds * k + k;
        UndoneFromBottom(x, k, mask, rounds - 1, i - k);
      }
    }
  }

  lemma RightUndone(x: Word, k: nat, rounds: nat)
    requires (rounds + 1) * k >= 32
    ensures UndoRight(Xor(x, ShiftRight(x, k)), k, rounds) == x
  {
    forall i: nat | i < 32 ensures BitAt(UndoRight(Xor(x, ShiftRight(x, k)), k, rounds), i) == BitAt(x, i) {
      UndoneFromTop(x, k, rounds, i);
    }
    BitsDecide(UndoRight(Xor(x, ShiftRight(x, k)), k, rounds), x);
  }

  lemma LeftUndone(x: Word, k: nat, mask: Word, rounds: nat)
    requires (rounds + 1) * k >= 32
    ensures UndoLeft(Xor(x, And(ShiftLeft(x, k), mask)), k, mask, rounds) == x
  {
    var y := Xor(x, And(ShiftLeft(x, k), mask));
    forall i: nat | i < 32 ensures BitAt(UndoLeft(y, k, mask, rounds), i) == BitAt(x, i) {
      UndoneFromBottom(x, k, mask, rounds, i);
    }
    BitsDecide(UndoLeft(y, k, mask, rounds), x);
  }

  /** The state word behind an output: the four steps of tempering undone, the last one first. */
  function Untemper(output: Word): Word {
    var y3 := UndoRight(output, 18, 1);
    var y2 := UndoLeft(y3, 15, 0xefc6_0000, 2);
    var y1 := UndoLeft(y2, 7, 0x9d2c_5680, 4);
    UndoRight(y1, 11, 2)
  }

  /** No two words are tempered alike, and which word it was can be worked out. */
  lemma TemperUndone(w: Word)
    ensures Untemper(Temper(w)) == w
  {
    hide UndoRight, UndoLeft, Xor, And, ShiftLeft, ShiftRight;
    var y1 := Xor(w, ShiftRight(w, 11));
    var y2 := Xor(y1, And(ShiftLeft(y1, 7), 0x9d2c_5680));
    var y3 := Xor(y2, And(ShiftLeft(y2, 15), 0xefc6_0000));
    RightUndone(y3, 18, 1);
    LeftUndone(y2, 15, 0xefc6_0000, 2);
    LeftUndone(y1, 7, 0x9d2c_5680, 4);
    RightUndone(w, 11, 2);
  }

  // The twist.

  lemma Masks(i: nat)
    requires i < 32
    ensures BitAt(UPPER_MASK, i) == if i == 31 then 1 else 0
    ensures BitAt(LOWER_MASK, i) == if i < 31 then 1 else 0
  {
    ThirtyTwo();
    assert Pow2(32) == 2 * Pow2(31);
    PowerBits(31, i);
    OnesBits(31, i);
  }

  /** The top bit of one word before the other 31 of the next. */
  lemma JoinedBits(a: Word, b: Word, i: nat)
    requires i < 32
    ensures BitAt(Xor(And(a, UPPER_MASK), And(b, LOWER_MASK)), i) == if i == 31 then BitAt(a, i) else BitAt(b, i)
  {
    hide BitAt, BitXor, BitAnd;
    Masks(i);
    XorBits(And(a, UPPER_MASK), And(b, LOWER_MASK), i);
    AndBits(a, UPPER_MASK, i);
    AndBits(b, LOWER_MASK, i);
    BitsAreBits(a, i);
    BitsAreBits(b, i);
  }

  /**
   * Bit `i` of the new word: that bit of the word 397 places on, plus the next higher bit of the joined word, plus
   * that bit of the matrix row when the low bit of the second word is set, without carry.
   */
  lemma TwistBits(a: Word, b: Word, c: Word, i: nat)
    requires i < 32
    ensures BitAt(Twist(a, b, c), i)
         == (BitAt(c, i)
             + (if i == 31 then 0 else if i == 30 then BitAt(a, 31) else BitAt(b, i + 1))
             + BitAt(b, 0) * BitAt(0x9908_b0df, i)) % 2
  {
    hide BitAt, Xor, And, ShiftRight, Twist;
    var y := Xor(And(a, UPPER_MASK), And(b, LOWER_MASK));
    var next := Xor(c, ShiftRight(y, 1));
    TwistIs(a, b, c);
    JoinedBits(a, b, 0);
    RoundRight(c, y, 1, i);
    if i < 31 {
      JoinedBits(a, b, i + 1);
    }
    MatrixRound(next, b, i);
  }

  lemma MatrixRound(next: Word, b: Word, i: nat)
    requires i < 32
    ensures BitAt(if BitAt(b, 0) != 0 then Xor(next, MATRIX_A) else next, i)
         == (BitAt(next, i) + BitAt(b, 0) * BitAt(0x9908_b0df, i)) % 2
  {
    hide Xor;
    XorIsBitXor(next, MATRIX_A);
    XorBits(next, MATRIX_A, i);
    BitsAreBits(next, i);
    BitsAreBits(b, 0);
    BitsAreBits(0x9908_b0df, i);
    hide BitAt;
  }

  lemma XorIsBitXor(v: Word, w: Word)
    ensures Xor(v, w) == BitXor(v, w)
  {
  }

  lemma TwistIs(a: Word, b: Word, c: Word)
    ensures var y := Xor(And(a, UPPER_MASK), And(b, LOWER_MASK));
            var next := Xor(c, ShiftRight(y, 1));
            Twist(a, b, c) == if BitAt(y, 0) != 0 then Xor(next, 0x9908_b0df) else next
  {
  }

  // The two seeding mixers.

  /** `x` is `p` with its two top bits added, without carry, to its two lowest. */
  ghost predicate Folded(x: Word, p: Word) {
    forall i: nat {:trigger BitAt(x, i)} | i < 32 ::
      BitAt(x, i) == (BitAt(p, i) + if i < 2 then BitAt(p, i + 30) else 0) % 2
  }

  lemma FoldBit(p: Word, i: nat)
    requires i < 32
    ensures BitAt(Xor(p, ShiftRight(p, 30)), i) == (BitAt(p, i) + if i < 2 then BitAt(p, i + 30) else 0) % 2
  {
    hide Xor, ShiftRight, BitAt;
    RoundRight(p, p, 30, i);
  }

  lemma FoldedBit(x: Word, p: Word, i: nat)
    requires Folded(x, p) && i < 32
    ensures BitAt(x, i) == (BitAt(p, i) + if i < 2 then BitAt(p, i + 30) else 0) % 2
  {
    hide BitAt;
  }

  lemma FoldIs(x: Word, p: Word)
    requires Folded(x, p)
    ensures x == Xor(p, ShiftRight(p, 30))
  {
    hide Xor, ShiftRight, BitAt, Folded;
    forall i: nat | i < 32 ensures BitAt(x, i) == BitAt(Xor(p, ShiftRight(p, 30)), i) {
      FoldedBit(x, p, i);
      FoldBit(p, i);
    }
    BitsDecide(x, Xor(p, ShiftRight(p, 30)));
  }

  lemma FoldExists(p: Word) returns (x: Word)
    ensures Folded(x, p)
  {
    hide Xor, ShiftRight, BitAt;
    x := Xor(p, ShiftRight(p, 30));
    forall i: nat | i < 32 ensures BitAt(x, i) == (BitAt(p, i) + if i < 2 then BitAt(p, i + 30) else 0) % 2 {
      FoldBit(p, i);
    }
  }

  /** Word by word seeding: the seed, then each word from the one before. */
  lemma InitRecurrence(seed: Word, i: nat, x: Word)
    requires i > 0 && Folded(x, InitWord(seed, i - 1))
    ensures InitWord(seed, 0) == seed
    ensures InitWord(seed, i) == (1812433253 * x + i) % 0x1_0000_0000
  {
    hide Folded;
    FoldIs(x, InitWord(seed, i - 1));
  }

  /** `z` is `v` and `w` added bit by bit without carry. */
  ghost predicate Added(z: Word, v: Word, w: Word) {
    forall i: nat | i < 32 :: BitAt(z, i) == (BitAt(v, i) + BitAt(w, i)) % 2
  }

  lemma AddedIs(z: Word, v: Word, w: Word)
    requires Added(z, v, w)
    ensures z == Xor(v, w)
  {
    forall i: nat | i < 32 ensures BitAt(z, i) == BitAt(Xor(v, w), i) {
      XorBits(v, w, i);
    }
    BitsDecide(z, Xor(v, w));
  }

  /** The word that stands where write `t` of array seeding goes. */
  function Standing(key: seq<Word>, t: nat): Word
    requires key != [] && t > 0
  {
    if t < 624 then InitWord(19650218, t) else Written(key, t - 623)
  }

  /** How many writes the first pass makes, and so how many there are before the places are taken away. */
  function FirstWrites(key: seq<Word>): nat {
    if |key| <= 624 then 624 else |key|
  }

  /**
   * Array seeding: each write takes the word written before it, folds and multiplies it, adds the product without carry
   * to the word standing there, and then adds a key word and its place, or in the last 623 writes takes the place away.
   */
  lemma KeyRecurrence(key: seq<Word>, t: nat, x: Word, z: Word)
    requires key != [] && t > 0 && Folded(x, Written(key, t - 1))
    requires Added(z, Standing(key, t), x * (if t <= FirstWrites(key) then 1664525 else 1566083941) % 0x1_0000_0000)
    ensures Written(key, 0) == 19650218
    ensures Written(key, t)
         == if t <= FirstWrites(key) then (z + key[(t - 1) % |key|] + (t - 1) % |key|) % 0x1_0000_0000
            else (z - ((t - 1) % 623 + 1)) % 0x1_0000_0000
  {
    hide Folded, Added, Written, Standing, InitWord;
    FoldIs(x, Written(key, t - 1));
    AddedIs(z, Standing(key, t), x * (if t <= FirstWrites(key) then 1664525 else 1566083941) % 0x1_0000_0000);
    hide Xor, ShiftRight;
    WrittenIs(key, t);
  }

  lemma WrittenIs(key: seq<Word>, t: nat)
    requires key != [] && t > 0
    ensures Written(key, 0) == 19650218
    ensures var j, last := (t - 1) % |key|, Written(key, t - 1);
            && (t <= FirstWrites(key) ==>
                  Written(key, t) == (Mixed(Standing(key, t), last, 1664525) + key[j] + j) % WORD_BASE)
            && (t > FirstWrites(key) ==>
                  Written(key, t) == (Mixed(Standing(key, t), last, 1566083941) - Place(t)) % WORD_BASE)
  {
    hide Mixed;
  }

  /** Write `t` goes to place `p`, round and round 1 to 623, and is the last that does; it writes `w`. */
  ghost predicate LastAt(key: seq<Word>, p: nat, t: nat, w: Word)
    requires key != []
  {
    t > 0 && (t - 1) % 623 + 1 == p && t <= FirstWrites(key) + 623 < t + 623 && Written(key, t) == w
  }

  /** An empty key counts as the single word 0. */
  function KeyWords(key: seq<Word>): (k: seq<Word>)
    ensures k != []
  {
    if key == [] then [0] else key
  }

  /** The generator seeded from a key: the last write to each place, and a first word that is never zero. */
  lemma SeededState(key: seq<Word>, p: nat)
    requires 0 < p < 624
    ensures FromKey(key).index == 624 && |FromKey(key).state| == 624 && FromKey(key).state[0] == 0x8000_0000
    ensures exists t: nat :: LastAt(KeyWords(key), p, t, FromKey(key).state[p])
  {
    hide Written;
    var k := KeyWords(key);
    assert LastAt(k, p, LastWrite(Longer(N, |k|) + (N - 1), p), FromKey(key).state[p]);
  }
}
