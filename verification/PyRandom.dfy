/** CPython's `random.Random` on top of the twister (`crates/pahoa-pyrandom/src/lib.rs`). */
module PyRandom {
  import opened Common
  import opened Numerals
  import opened Bitwise
  import opened BigInts
  import opened Mersenne

  // Seeding from bytes.

  function Reversed<T>(s: seq<T>): (r: seq<T>)
    ensures |r| == |s| && forall i | 0 <= i < |s| :: r[i] == s[|s| - 1 - i]
  {
    seq(|s|, i requires 0 <= i < |s| => s[|s| - 1 - i])
  }

  /** The integer whose big-endian bytes are given. */
  function BigEndianValue(be: seq<Byte>): (n: nat) {
    assert InRange(256, Reversed(be));
    ValueBound(256, Reversed(be));
    ValueIn(256, Reversed(be))
  }

  /** The little-endian key words of an integer; zero has the single word zero. */
  function KeyOf(n: nat): (key: seq<Word>)
    ensures key != []
  {
    DigitsRoundTrip(WORD_BASE, n);
    if n == 0 then [0] else DigitsOf(WORD_BASE, n)
  }

  /** Reverses the bytes, drops the high-order zeros and chunks: exactly the words of the integer they denote. */
  method KeyFromBytes(be: seq<Byte>) returns (key: seq<Word>)
    ensures key == KeyOf(BigEndianValue(be))
  {
    var le: seq<Byte> := [];
    for i := 0 to |be|
      invariant le == Reversed(be)[..i]
    {
      le := le + [be[|be| - 1 - i]];
    }
    assert le == Reversed(be);
    assert InRange(256, le);
    var trimmed := TrimZeros(le, 256);
    DigitsRoundTrip(256, ValueIn(256, le));
    var words := Limbs(trimmed);
    assert InRange(WORD_BASE, words);
    DigitsUnique(WORD_BASE, words);
    key := if words == [] then [0] else words;
    if words != [] {
      NormalizedPositive(WORD_BASE, words);
    }
  }

  method SeedBeBytes(be: seq<Byte>) returns (mt: Mt19937)
    ensures mt.Valid() && mt.Value() == FromKey(KeyOf(BigEndianValue(be)))
  {
    var key := KeyFromBytes(be);
    mt := SeedFromKey(key);
  }

  /** The key words, least significant first, spell the integer, with no high-order zero word but for zero itself. */
  lemma KeySpells(n: nat)
    ensures ValueIn(0x1_0000_0000, KeyOf(n)) == n
    ensures |KeyOf(n)| > 1 ==> Last(KeyOf(n)) != 0
  {
    DigitsRoundTrip(WORD_BASE, n);
    if n == 0 {
      assert [0][1..] == [];
    }
  }

  /** Bytes are read most significant first. */
  lemma BytesSpell(be: seq<Byte>, b: Byte)
    ensures BigEndianValue([]) == 0
    ensures BigEndianValue(be + [b]) == 256 * BigEndianValue(be) + b
  {
    assert Reversed(be + [b]) == [b] + Reversed(be);
    assert ([b] + Reversed(be))[1..] == Reversed(be);
  }

  /** Two byte strings give the same key exactly when they denote the same integer. */
  lemma KeyDecides(a: seq<Byte>, b: seq<Byte>)
    ensures KeyOf(BigEndianValue(a)) == KeyOf(BigEndianValue(b)) <==> BigEndianValue(a) == BigEndianValue(b)
  {
    DigitsRoundTrip(WORD_BASE, BigEndianValue(a));
    DigitsRoundTrip(WORD_BASE, BigEndianValue(b));
  }

  lemma {:induction false} LeadingZerosIgnored(zeros: nat, be: seq<Byte>)
    ensures BigEndianValue(seq(zeros, _ => 0) + be) == BigEndianValue(be)
  {
    if zeros == 0 {
      assert seq(zeros, _ => 0) + be == be;
    } else {
      LeadingZerosIgnored(zeros - 1, be);
      var longer, shorter := Reversed(seq(zeros, _ => 0) + be), Reversed(seq(zeros - 1, _ => 0) + be);
      assert longer[..|longer| - 1] == shorter;
      DropLastZero(256, longer);
    }
  }

  // Drawing bits.

  function WordCount(k: nat): nat {
    (k + 31) / 32
  }

  /** The words of a draw of `k` bits: whole outputs, the most significant one shifted down. */
  function BitWords(g: Gen, k: nat): (ws: seq<Word>)
    requires ValidGen(g)
    ensures |ws| == if k == 0 then 1 else WordCount(k)
    ensures forall i | 0 <= i < |ws| - 1 :: ws[i] == Output(g, i)
    ensures k > 0 ==> Last(ws) == Output(g, WordCount(k) - 1) / Pow2(32 * WordCount(k) - k)
  {
    if k == 0 then [0] else TopShifted(WholeOutputs(g, WordCount(k)), 32 * WordCount(k) - k)
  }

  /** The last, most significant word shifted down by `bits`. */
  function TopShifted(ws: seq<Word>, bits: nat): (r: seq<Word>)
    requires ws != []
    ensures |r| == |ws| && (forall i | 0 <= i < |ws| - 1 :: r[i] == ws[i]) && Last(r) == Last(ws) / Pow2(bits)
  {
    ws[..|ws| - 1] + [ShiftRight(Last(ws), bits)]
  }

  function WholeOutputs(g: Gen, n: nat): (ws: seq<Word>)
    requires ValidGen(g)
    ensures |ws| == n && forall i | 0 <= i < n :: ws[i] == Output(g, i)
  {
    if n == 0 then [] else WholeOutputs(g, n - 1) + [Output(g, n - 1)]
  }

  /** The integer drawn. */
  function Bits(g: Gen, k: nat): int
    requires ValidGen(g)
  {
    ValueIn(WORD_BASE, BitWords(g, k))
  }

  lemma WordsPow2(n: nat)
    ensures Power(WORD_BASE, n) == Pow2(32 * n)
  {
    if n > 0 {
      WordsPow2(n - 1);
      Pow2Add(32, 32 * n - 32);
      ThirtyTwo();
    }
  }

  lemma ShiftBound(w: Word, bits: nat)
    requires bits <= 32
    ensures w / Pow2(32 - bits) < Pow2(bits)
  {
    ThirtyTwo();
    Pow2Add(32 - bits, bits);
    hide Pow2;
    DivBelow(w, Pow2(32 - bits), Pow2(bits));
  }

  lemma DigitOnTop(p: nat, low: int, top: int, q: nat)
    requires 0 <= low < p && 0 <= top < q
    ensures 0 <= low + p * top < p * q
  {
    MulMonotone(p, top + 1, q);
    MulDistributes(p, top, 1);
    MulMonotone(p, 0, top);
  }

  /** A draw of `k` bits is a number below 2^k. */
  lemma BitsBound(g: Gen, k: nat)
    requires ValidGen(g)
    ensures 0 <= Bits(g, k) < Pow2(k)
  {
    hide Pow2, Draws, Draw;
    if k == 0 {
      NoBits(g);
    } else {
      TopWordBound(g, k);
      hide BitWords, Output;
      var ws := BitWords(g, k);
      assert ws == ws[..|ws| - 1] + [Last(ws)];
      WordsBound(ws[..|ws| - 1], Last(ws), k);
    }
  }

  lemma TopWordBound(g: Gen, k: nat)
    requires ValidGen(g) && k > 0
    ensures 32 * (|BitWords(g, k)| - 1) < k
    ensures Last(BitWords(g, k)) < Pow2(k - 32 * (|BitWords(g, k)| - 1))
  {
    hide Pow2, Output, BitWords;
    var n := WordCount(k);
    assert 32 * (n - 1) < k <= 32 * n;
    ShiftBound(Output(g, n - 1), k - 32 * (n - 1));
    assert 32 * n - k == 32 - (k - 32 * (n - 1));
  }

  lemma WordsBound(front: seq<Word>, top: Word, k: nat)
    requires 32 * |front| <= k && top < Pow2(k - 32 * |front|)
    ensures 0 <= ValueIn(WORD_BASE, front + [top]) < Pow2(k)
  {
    hide Pow2;
    PushValue(WORD_BASE, front, top);
    assert InRange(WORD_BASE, front);
    ValueBound(WORD_BASE, front);
    WordsPow2(|front|);
    Pow2Add(32 * |front|, k - 32 * |front|);
    DigitOnTop(Pow2(32 * |front|), ValueIn(WORD_BASE, front), top, Pow2(k - 32 * |front|));
  }

  lemma NoBits(g: Gen)
    requires ValidGen(g)
    ensures Bits(g, 0) == 0 < Pow2(0)
  {
    assert BitWords(g, 0) == [0];
    assert [0][1..] == [];
  }

  lemma FirstDraws(g: Gen)
    requires ValidGen(g)
    ensures Draws(g, 0) == g && BitWords(g, 0) == [0]
  {
  }

  lemma WordIs(g: Gen, k: nat, i: nat)
    requires ValidGen(g) && k > 0 && i < WordCount(k)
    ensures BitWords(g, k)[i] ==
      if i < WordCount(k) - 1 || k == 32 * WordCount(k) then Output(g, i)
      else Output(g, i) / Pow2(32 * WordCount(k) - k)
  {
    hide BitWords, Output;
    if k == 32 * WordCount(k) {
      assert Pow2(0) == 1;
    }
  }

  method GetRandBitsWords(mt: Mt19937, k: nat) returns (out: seq<Word>)
    requires mt.Valid() && k < WORD_BASE
    modifies mt, mt.state
    ensures mt.Valid() && mt.state == old(mt.state) && ValidGen(old(mt.Value()))
    ensures out == BitWords(old(mt.Value()), k)
    ensures mt.Value() == Draws(old(mt.Value()), WordCount(k))
  {
    hide Draw, Draws, Advance, Output, Element, Temper, BitWords, Pow2;
    ghost var g := mt.Value();
    FirstDraws(g);
    if k == 0 {
      return [0];
    }
    if k <= 32 {
      var r := mt.NextU32();
      DrawIs(g, 0);
      WordIs(g, k, 0);
      out := [ShiftRight(r, 32 - k)];
      assert out == BitWords(g, k);
      return;
    }
    var words := (k - 1) / 32 + 1;
    assert words == WordCount(k);
    out := [];
    var remaining: Word := k;
    for i := 0 to words
      invariant mt.Valid() && mt.state == old(mt.state) && ValidGen(g)
      invariant mt.Value() == Draws(g, i)
      invariant i < words ==> remaining == k - 32 * i
      invariant |out| == i
      invariant forall j | 0 <= j < i :: out[j] == BitWords(g, k)[j]
    {
      DrawIs(g, i);
      WordIs(g, k, i);
      var r := mt.NextU32();
      if remaining < 32 {
        assert i == words - 1;
        r := ShiftRight(r, 32 - remaining);
      }
      out := out + [r];
      remaining := (remaining - 32) % WORD_BASE;
    }
    assert out == BitWords(g, k);
  }

  method GetRandBitsU64(mt: Mt19937, k: nat) returns (r: int)
    requires mt.Valid() && k <= 64
    modifies mt, mt.state
    ensures mt.Valid() && mt.state == old(mt.state) && ValidGen(old(mt.Value()))
    ensures r == Bits(old(mt.Value()), k)
    ensures mt.Value() == Draws(old(mt.Value()), WordCount(k))
  {
    hide Draw, Draws, Element, Temper, WholeOutputs, BitWords;
    var words := GetRandBitsWords(mt, k);
    var hi := if |words| > 1 then words[1] else 0;
    r := hi * WORD_BASE + words[0];
    assert words[1..] == if |words| > 1 then [hi] else [];
    assert ValueIn(WORD_BASE, [hi]) == hi;
  }

  // Rejection sampling.

  /** The number of bits of `n`. */
  function BitLength(n: nat): (k: nat)
    ensures n > 0 ==> k > 0 && Pow2(k - 1) <= n < Pow2(k)
    ensures n == 0 ==> k == 0
  {
    if n == 0 then 0 else BitLength(n / 2) + 1
  }

  /** The first draw of `k` bits that falls below `n`, among the next `attempts`, and the generator after it. */
  function FirstBelow(g: Gen, k: nat, n: nat, attempts: nat): Option<(int, Gen)>
    requires ValidGen(g)
    decreases attempts
  {
    if attempts == 0 then None
    else if Bits(g, k) < n then Some((Bits(g, k), Draws(g, WordCount(k))))
    else FirstBelow(Draws(g, WordCount(k)), k, n, attempts - 1)
  }

  /** The words taken by `i` attempts of `w` words each. */
  ghost function Consumed(i: nat, w: nat): nat {
    if i == 0 then 0 else w + Consumed(i - 1, w)
  }

  /** Attempt number `i` of the sampling loop, when each attempt takes `w` words. */
  ghost function Attempt(g: Gen, k: nat, w: nat, i: nat): int
    requires ValidGen(g)
  {
    Bits(Draws(g, Consumed(i, w)), k)
  }

  lemma NextAttempt(g: Gen, k: nat, w: nat, i: nat)
    requires ValidGen(g)
    ensures Attempt(Draws(g, w), k, w, i) == Attempt(g, k, w, i + 1)
    ensures Draws(Draws(g, w), Consumed(i, w)) == Draws(g, Consumed(i + 1, w))
  {
    hide Draws, Bits;
    DrawsAdd(g, w, Consumed(i, w));
  }

  /** What is returned is the first acceptable attempt, and exactly the words of the attempts up to it are consumed. */
  lemma {:induction false} FirstBelowIsFirst(g: Gen, k: nat, n: nat, attempts: nat) returns (m: nat)
    requires ValidGen(g)
    ensures match FirstBelow(g, k, n, attempts)
            case None => m == attempts && forall i | 0 <= i < attempts :: Attempt(g, k, WordCount(k), i) >= n
            case Some((v, h)) =>
              && m < attempts && v == Attempt(g, k, WordCount(k), m) && 0 <= v < n
              && (forall i | 0 <= i < m :: Attempt(g, k, WordCount(k), i) >= n)
              && h == Draws(g, Consumed(m + 1, WordCount(k)))
    decreases attempts
  {
    hide Draws, Bits, WordCount;
    if attempts == 0 {
      return 0;
    }
    var w := WordCount(k);
    FirstAttempt(g, k, w);
    if Bits(g, k) < n {
      return 0;
    }
    var rest := FirstBelowIsFirst(Draws(g, w), k, n, attempts - 1);
    m := rest + 1;
    NextAttempt(g, k, w, rest);
    NextAttempt(g, k, w, rest + 1);
    forall i | 0 <= i < m ensures Attempt(g, k, w, i) >= n {
      if i > 0 {
        NextAttempt(g, k, w, i - 1);
      }
    }
  }

  lemma FirstAttempt(g: Gen, k: nat, w: nat)
    requires ValidGen(g)
    ensures Attempt(g, k, w, 0) == Bits(g, k) >= 0 && Draws(g, Consumed(1, w)) == Draws(g, w)
  {
    BitsBound(g, k);
    assert Consumed(0, w) == 0 && Consumed(1, w) == w;
    hide Bits;
  }

  /** More attempts never change an answer. */
  lemma {:induction false} MoreAttempts(g: Gen, k: nat, n: nat, few: nat, many: nat)
    requires ValidGen(g) && few <= many && FirstBelow(g, k, n, few).Some?
    ensures FirstBelow(g, k, n, many) == FirstBelow(g, k, n, few)
    decreases few
  {
    hide Draws, Bits;
    if Bits(g, k) >= n {
      MoreAttempts(Draws(g, WordCount(k)), k, n, few - 1, many - 1);
    }
  }

  /** Each attempt has a number of bits just sufficient for `n`, so at least half of all possible draws are accepted. */
  lemma AttemptsSuffice(n: nat)
    requires n > 0
    ensures n < Pow2(BitLength(n)) <= 2 * n
  {
  }

  /** The sampling loop, given up after `attempts` rounds; zero is answered without a draw. */
  method RandBelow(mt: Mt19937, n: nat, attempts: nat) returns (r: Option<int>)
    requires mt.Valid() && n <= 0xffff_ffff_ffff_ffff
    modifies mt, mt.state
    ensures mt.Valid() && mt.state == old(mt.state) && ValidGen(old(mt.Value()))
    ensures n == 0 ==> r == Some(0) && mt.Value() == old(mt.Value())
    ensures n > 0 ==>
      match FirstBelow(old(mt.Value()), BitLength(n), n, attempts)
      case None => r == None
      case Some((v, h)) => r == Some(v) && mt.Value() == h
  {
    hide Draws, Bits;
    if n == 0 {
      return Some(0);
    }
    LengthAtMost64(n);
    var k := BitLength(n);
    var left := attempts;
    while left > 0
      invariant mt.Valid() && mt.state == old(mt.state) && ValidGen(old(mt.Value()))
      invariant FirstBelow(mt.Value(), k, n, left) == FirstBelow(old(mt.Value()), k, n, attempts)
    {
      var v := GetRandBitsU64(mt, k);
      if v < n {
        return Some(v);
      }
      left := left - 1;
    }
    return None;
  }

  lemma LengthAtMost64(n: nat)
    requires n <= 0xffff_ffff_ffff_ffff
    ensures BitLength(n) <= 64
  {
    if BitLength(n) > 64 {
      ThirtyTwo();
      Pow2Add(32, 32);
      Pow2Monotone(64, BitLength(n) - 1);
    }
  }
}
