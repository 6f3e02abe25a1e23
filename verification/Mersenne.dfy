/**
 * The Mersenne Twister (`crates/pahoa-pyrandom/src/mt19937.rs`): 624 words rewritten in place, against the infinite
 * sequence defined by the twist recurrence.
 */
module Mersenne {
  import opened Common
  import opened Numerals
  import opened Bitwise

  const N: nat := 624
  const M: nat := 397
  const UPPER_MASK: Word := 0x8000_0000
  const LOWER_MASK: Word := 0x7fff_ffff
  const MATRIX_A: Word := 0x9908_b0df

  /** The word 624 places after `a`, from `a`, its successor and the word 397 after it. */
  function Twist(a: Word, b: Word, c: Word): Word {
    // The masks share no bit, so exclusive or joins them as or would.
    var y := Xor(And(a, UPPER_MASK), And(b, LOWER_MASK));
    var next := Xor(c, ShiftRight(y, 1));
    if y % 2 != 0 then Xor(next, MATRIX_A) else next
  }

  function Temper(w: Word): Word {
    var y1 := Xor(w, ShiftRight(w, 11));
    var y2 := Xor(y1, And(ShiftLeft(y1, 7), 0x9d2c_5680));
    var y3 := Xor(y2, And(ShiftLeft(y2, 15), 0xefc6_0000));
    Xor(y3, ShiftRight(y3, 18))
  }

  /** The infinite sequence whose first 624 words are `s`. */
  function Element(s: seq<Word>, n: nat): Word
    requires |s| == N
  {
    if n < N then s[n] else Twist(Element(s, n - N), Element(s, n - N + 1), Element(s, n - N + M))
  }

  function Following(s: seq<Word>, n: nat): (r: seq<Word>)
    requires |s| == N
    ensures |r| == n && forall i | 0 <= i < n :: r[i] == Element(s, N + i)
  {
    if n == 0 then [] else Following(s, n - 1) + [Element(s, N + n - 1)]
  }

  /** The next 624 words. */
  function Regenerated(s: seq<Word>): (r: seq<Word>)
    requires |s| == N
    ensures |r| == N && forall i | 0 <= i < N :: r[i] == Element(s, N + i)
  {
    Following(s, N)
  }

  /** Starting over from the next 624 words continues the same sequence. */
  lemma {:induction false} SequenceContinues(s: seq<Word>, n: nat)
    requires |s| == N
    ensures Element(Regenerated(s), n) == Element(s, N + n)
  {
    hide Twist;
    if n >= N {
      SequenceContinues(s, n - N);
      SequenceContinues(s, n - N + 1);
      SequenceContinues(s, n - N + M);
    }
  }

  // A generator as a value: the words and the position of the next one.

  datatype Gen = Gen(state: seq<Word>, index: nat)

  ghost predicate ValidGen(g: Gen) {
    |g.state| == N && g.index <= N
  }

  /** The generator about to give an output: past the last word it first regenerates. */
  function Ready(g: Gen): (r: Gen)
    requires ValidGen(g)
    ensures ValidGen(r) && r.index < N
  {
    if g.index >= N then Gen(Regenerated(g.state), 0) else g
  }

  function Advance(g: Gen): (r: Gen)
    requires ValidGen(g)
    ensures ValidGen(r)
  {
    Gen(Ready(g).state, Ready(g).index + 1)
  }

  /** One output and the generator after it. */
  function Draw(g: Gen): (r: (Gen, Word))
    requires ValidGen(g)
    ensures ValidGen(r.0)
  {
    (Advance(g), Temper(Ready(g).state[Ready(g).index]))
  }

  /** The generator after `k` outputs. */
  function Draws(g: Gen, k: nat): (r: Gen)
    requires ValidGen(g)
    ensures ValidGen(r)
  {
    if k == 0 then g else Advance(Draws(g, k - 1))
  }

  /** Output number `k`. */
  function Output(g: Gen, k: nat): Word
    requires ValidGen(g)
  {
    Draw(Draws(g, k)).1
  }

  lemma DrawIs(g: Gen, k: nat)
    requires ValidGen(g)
    ensures Draw(Draws(g, k)) == (Draws(g, k + 1), Output(g, k))
  {
    hide Advance, Temper;
  }

  lemma {:induction false} DrawsPosition(g: Gen, k: nat, n: nat)
    requires ValidGen(g)
    ensures var h := Draws(g, k);
            Element(h.state, h.index + n) == Element(g.state, g.index + k + n)
  {
    hide Twist, Temper;
    if k > 0 {
      var h := Draws(g, k - 1);
      DrawsPosition(g, k - 1, n + 1);
      if h.index >= N {
        SequenceContinues(h.state, 1 + n);
      }
    }
  }

  /** Whatever rewriting in place happens between, output `k` is the tempering of element `index + k`. */
  lemma OutputIsTempered(g: Gen, k: nat)
    requires ValidGen(g)
    ensures Output(g, k) == Temper(Element(g.state, g.index + k))
  {
    hide Twist, Temper;
    DrawsPosition(g, k, 0);
    var h := Draws(g, k);
    if h.index >= N {
      SequenceContinues(h.state, 0);
    }
  }

  lemma {:induction false} DrawsAdd(g: Gen, j: nat, k: nat)
    requires ValidGen(g)
    ensures Draws(Draws(g, j), k) == Draws(g, j + k)
  {
    hide Advance;
    if k > 0 {
      DrawsAdd(g, j, k - 1);
    }
  }

  // Saving and restoring.

  function ToWords(g: Gen): seq<Word>
    requires ValidGen(g)
  {
    g.state + [g.index]
  }

  function FromWords(words: seq<Word>): Option<Gen> {
    if |words| != N + 1 then None
    else if words[N] > N then None
    else Some(Gen(words[..N], words[N]))
  }

  /** A saved generator comes back as itself, so it goes on with the same outputs for ever; nothing else is accepted. */
  lemma SavedComesBack(g: Gen)
    requires ValidGen(g)
    ensures FromWords(ToWords(g)) == Some(g)
  {
    assert (g.state + [g.index])[..N] == g.state;
  }

  lemma RestoredIsValid(words: seq<Word>)
    ensures FromWords(words).Some? <==> |words| == N + 1 && words[N] <= N
    ensures FromWords(words).Some? ==> ValidGen(FromWords(words).value) && ToWords(FromWords(words).value) == words
  {
    if |words| == N + 1 {
      assert words[..N] + [words[N]] == words;
    }
  }

  // Seeding.

  /** Knuth's multiplicative seeding, word by word. */
  function InitWord(seed: Word, i: nat): Word {
    if i == 0 then seed else InitNext(InitWord(seed, i - 1), i)
  }

  function InitNext(p: Word, i: nat): Word {
    (1812433253 * Xor(p, ShiftRight(p, 30)) + i) % WORD_BASE
  }

  const ARRAY_SEED: Word := 19650218

  function Mixed(old_: Word, prev: Word, factor: Word): Word {
    Xor(old_, Xor(prev, ShiftRight(prev, 30)) * factor % WORD_BASE)
  }

  function Longer(a: nat, b: nat): nat {
    if a < b then b else a
  }

  /** Where the `t`-th write of array seeding goes: round and round 1..623. */
  function Place(t: nat): (p: nat)
    requires t >= 1
    ensures 1 <= p < N
  {
    (t - 1) % (N - 1) + 1
  }

  /**
   * Array seeding as a recurrence with lag 623: each word written mixes the word written just before, the word that
   * stood at the same place, and in the first pass a key word; the second pass subtracts the place instead.
   */
  function Written(key: seq<Word>, t: nat): Word
    requires key != []
  {
    if t == 0 then InitWord(ARRAY_SEED, 0)
    else
      var before := if t < N then InitWord(ARRAY_SEED, t) else Written(key, t - (N - 1));
      if t <= Longer(N, |key|) then
        var j := (t - 1) % |key|;
        (Mixed(before, Written(key, t - 1), 1664525) + key[j] + j) % WORD_BASE
      else
        (Mixed(before, Written(key, t - 1), 1566083941) - Place(t)) % WORD_BASE
  }

  /** The last of the `total` writes that went to place `p`. */
  function LastWrite(total: nat, p: nat): (t: nat)
    requires 1 <= p < N <= total
    ensures total - (N - 1) < t <= total && Place(t) == p
  {
    var first := total - (N - 1);
    first + 1 + (p - 1 - first) % (N - 1)
  }

  function FromKey(key: seq<Word>): (g: Gen)
    ensures ValidGen(g)
  {
    var k := if key == [] then [0] else key;
    var total := Longer(N, |k|) + (N - 1);
    Gen(seq(N, p requires 0 <= p < N => if p == 0 then 0x8000_0000 else Written(k, LastWrite(total, p))), N)
  }

  lemma ModStep(t: nat, n: nat)
    requires n > 0
    ensures (t + 1) % n == if t % n + 1 == n then 0 else t % n + 1
  {
    var q, r := t / n, t % n;
    DivMod(t, n);
    if r + 1 == n {
      MulDistributes(n, q, 1);
      DivModUnique(t + 1, n, q + 1, 0);
    } else {
      DivModUnique(t + 1, n, q, r + 1);
    }
  }

  class Mt19937 {
    var state: array<Word>
    var index: nat

    ghost predicate Valid()
      reads this, state
    {
      state.Length == N && index <= N
    }

    ghost function Value(): Gen
      reads this, state
    {
      Gen(state[..], index)
    }

    constructor Seed(seed: Word)
      ensures Valid() && fresh(state) && index == N
      ensures forall i | 0 <= i < N :: state[i] == InitWord(seed, i)
    {
      state := new Word[N];
      index := N;
      new;
      state[0] := seed;
      for i := 1 to N
        invariant state.Length == N && index == N && fresh(state)
        invariant forall k | 0 <= k < i :: state[k] == InitWord(seed, k)
      {
        hide InitNext;
        state[i] := InitNext(state[i - 1], i);
      }
    }

    constructor Restore(words: seq<Word>)
      requires |words| == N + 1 && words[N] <= N
      ensures Valid() && fresh(state) && Value() == Gen(words[..N], words[N])
    {
      state := new Word[N](i requires 0 <= i < N => words[i]);
      index := words[N];
      new;
      assert state[..] == words[..N];
    }

    /** Rewrites all 624 words in place. A word read ahead is still old, a word read round the end is already new. */
    method Regenerate()
      requires Valid()
      modifies this, state
      ensures Valid() && state == old(state)
      ensures Value() == Gen(Regenerated(old(state[..])), 0)
    {
      hide Twist;
      ghost var s := state[..];
      for i := 0 to N
        invariant state.Length == N && state == old(state)
        invariant forall k | 0 <= k < i :: state[k] == Element(s, N + k)
        invariant forall k | i <= k < N :: state[k] == Element(s, k)
      {
        assert state[(i + 1) % N] == Element(s, i + 1);
        assert state[(i + M) % N] == Element(s, i + M);
        state[i] := Twist(state[i], state[(i + 1) % N], state[(i + M) % N]);
      }
      assert state[..] == Regenerated(s);
      index := 0;
    }

    method NextU32() returns (r: Word)
      requires Valid()
      modifies this, state
      ensures Valid() && state == old(state)
      ensures ValidGen(old(Value())) && (Value(), r) == Draw(old(Value()))
    {
      hide Temper, Regenerated;
      if index >= N {
        Regenerate();
      }
      r := Temper(state[index]);
      index := index + 1;
    }

    method ToState() returns (words: seq<Word>)
      requires Valid()
      ensures ValidGen(Value()) && words == ToWords(Value())
    {
      words := state[..] + [index];
    }
  }

  /** Rejects a wrong length and an index out of range. */
  method FromState(words: seq<Word>) returns (mt: Option<Mt19937>)
    ensures mt.None? <==> FromWords(words).None?
    ensures mt.Some? ==> mt.value.Valid() && Some(mt.value.Value()) == FromWords(words)
    ensures mt.Some? ==> fresh(mt.value) && fresh(mt.value.state)
  {
    if |words| != N + 1 {
      return None;
    }
    if words[N] > N {
      return None;
    }
    var g := new Mt19937.Restore(words);
    return Some(g);
  }

  /** What the state holds after `t` writes: the last writes at their places, the rest as initialised. */
  ghost predicate AfterWrites(state: seq<Word>, key: seq<Word>, t: nat)
    requires |state| == N && key != []
  {
    && (forall u | 1 <= u <= t && t - (N - 1) < u :: state[Place(u)] == Written(key, u))
    && (forall p | t < p < N :: state[p] == InitWord(ARRAY_SEED, p))
    && state[Place(t + 1) - 1] == Written(key, t)
  }

  lemma PlaceStep(t: nat)
    ensures Place(t + 2) == if Place(t + 1) == N - 1 then 1 else Place(t + 1) + 1
    ensures t + 1 < N ==> Place(t + 1) == t + 1
    ensures t + 1 >= N ==> Place(t + 1) == Place(t + 1 - (N - 1))
  {
  }

  lemma PlacesDiffer(u: nat, v: nat)
    requires 1 <= u < v < u + (N - 1)
    ensures Place(u) != Place(v)
  {
  }

  /** `next` is `state` with word `i` written, the first word following the last. */
  ghost predicate Wrote(state: seq<Word>, next: seq<Word>, i: nat, w: Word) {
    && |state| == N && |next| == N && 1 <= i < N
    && next[i] == w
    && next[0] == (if i == N - 1 then w else state[0])
    && forall p | 1 <= p < N && p != i :: next[p] == state[p]
  }

  lemma WriteStep(state: seq<Word>, key: seq<Word>, t: nat, next: seq<Word>)
    requires |state| == N && |next| == N && key != [] && AfterWrites(state, key, t)
    requires Wrote(state, next, Place(t + 1), Written(key, t + 1))
    ensures AfterWrites(next, key, t + 1)
  {
    hide Written, InitWord, Place;
    PlaceStep(t);
    forall u | 1 <= u <= t + 1 && t + 1 - (N - 1) < u ensures next[Place(u)] == Written(key, u) {
      if u <= t {
        PlacesDiffer(u, t + 1);
      }
    }
  }

  /** The word that stood at the place about to be written. */
  lemma StandingWord(state: seq<Word>, key: seq<Word>, t: nat)
    requires |state| == N && key != [] && AfterWrites(state, key, t)
    ensures state[Place(t + 1)] == if t + 1 < N then InitWord(ARRAY_SEED, t + 1) else Written(key, t + 1 - (N - 1))
  {
    hide Written, InitWord, Place;
    PlaceStep(t);
  }

  /** Writes a word and moves on, past the end back to the second word, the first word following the last. */
  method WriteWord(state: array<Word>, i: nat, w: Word) returns (next: nat)
    requires state.Length == N && 1 <= i < N
    modifies state
    ensures next == if i == N - 1 then 1 else i + 1
    ensures Wrote(old(state[..]), state[..], i, w)
  {
    state[i] := w;
    next := i + 1;
    if next >= N {
      state[0] := state[N - 1];
      next := 1;
    }
  }

  method FirstPass(state: array<Word>, key: seq<Word>) returns (i: nat)
    requires state.Length == N && key != [] && AfterWrites(state[..], key, 0)
    modifies state
    ensures i == Place(Longer(N, |key|) + 1) && AfterWrites(state[..], key, Longer(N, |key|))
  {
    hide Written, InitWord, Mixed, AfterWrites, Place, Wrote;
    PlaceStep(0);
    i := 1;
    var j := 0;
    var k := Longer(N, |key|);
    ghost var t := 0;
    while k > 0
      invariant t == Longer(N, |key|) - k && j == t % |key|
      invariant i == Place(t + 1) && AfterWrites(state[..], key, t)
    {
      StandingWord(state[..], key, t);
      LastWord(state[..], key, t);
      FirstPassWrite(key, t);
      ghost var before := state[..];
      assert before[i] == state[i] && before[i - 1] == state[i - 1];
      var w := (Mixed(state[i], state[i - 1], 1664525) + key[j] + j) % WORD_BASE;
      i := WriteWord(state, i, w);
      WriteStep(before, key, t, state[..]);
      PlaceStep(t);
      ModStep(t, |key|);
      j := j + 1;
      if j >= |key| {
        j := 0;
      }
      t := t + 1;
      k := k - 1;
    }
  }

  method SecondPass(state: array<Word>, key: seq<Word>, first: nat)
    requires state.Length == N && key != [] && AfterWrites(state[..], key, Longer(N, |key|))
    requires first == Place(Longer(N, |key|) + 1)
    modifies state
    ensures AfterWrites(state[..], key, Longer(N, |key|) + (N - 1))
  {
    hide Written, InitWord, Mixed, AfterWrites, Place, Wrote;
    var i := first;
    var k := N - 1;
    ghost var t := Longer(N, |key|);
    while k > 0
      invariant 0 <= k && t == Longer(N, |key|) + (N - 1) - k
      invariant i == Place(t + 1) && AfterWrites(state[..], key, t)
    {
      StandingWord(state[..], key, t);
      LastWord(state[..], key, t);
      SecondPassWrite(key, t);
      ghost var before := state[..];
      assert before[i] == state[i] && before[i - 1] == state[i - 1];
      var w := (Mixed(state[i], state[i - 1], 1566083941) - i) % WORD_BASE;
      i := WriteWord(state, i, w);
      WriteStep(before, key, t, state[..]);
      PlaceStep(t);
      t := t + 1;
      k := k - 1;
    }
  }

  lemma LastWord(state: seq<Word>, key: seq<Word>, t: nat)
    requires |state| == N && key != [] && AfterWrites(state, key, t)
    ensures state[Place(t + 1) - 1] == Written(key, t)
  {
    hide Written, InitWord;
  }

  /** Array seeding: two passes over the same 624 words, then a first word that is never zero. */
  method SeedFromKey(key: seq<Word>) returns (mt: Mt19937)
    ensures mt.Valid() && mt.Value() == FromKey(key) && fresh(mt) && fresh(mt.state)
  {
    hide Written, InitWord, Mixed, Place;
    PlaceStep(0);
    mt := new Mt19937.Seed(ARRAY_SEED);
    var words := if key == [] then [0] else key;
    StartWritten(mt.state[..], words);
    var i := FirstPass(mt.state, words);
    SecondPass(mt.state, words, i);
    ghost var last := mt.state[..];
    ghost var total := Longer(N, |words|) + (N - 1);
    mt.state[0] := 0x8000_0000;
    forall p | 1 <= p < N ensures mt.state[p] == Written(words, LastWrite(total, p)) {
      assert last[Place(LastWrite(total, p))] == Written(words, LastWrite(total, p));
    }
    assert mt.state[..] == FromKey(key).state;
  }

  lemma StartWritten(state: seq<Word>, key: seq<Word>)
    requires |state| == N && key != [] && forall i | 0 <= i < N :: state[i] == InitWord(ARRAY_SEED, i)
    ensures AfterWrites(state, key, 0)
  {
  }

  lemma FirstPassWrite(key: seq<Word>, t: nat)
    requires key != [] && t < Longer(N, |key|)
    ensures var standing := if t + 1 < N then InitWord(ARRAY_SEED, t + 1) else Written(key, t + 1 - (N - 1));
            Written(key, t + 1) == (Mixed(standing, Written(key, t), 1664525) + key[t % |key|] + t % |key|) % WORD_BASE
  {
    hide Mixed, InitWord;
  }

  lemma SecondPassWrite(key: seq<Word>, t: nat)
    requires key != [] && t >= Longer(N, |key|)
    ensures Written(key, t + 1)
         == (Mixed(Written(key, t + 1 - (N - 1)), Written(key, t), 1566083941) - Place(t + 1)) % WORD_BASE
  {
    hide Mixed, InitWord;
  }
}
