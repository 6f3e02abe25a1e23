/** Wide integers of a pickle stream (`crates/pahoa-pickle/src/bigint.rs`): decoding, narrowing, decimal text. */
module BigInts {
  import opened Common
  import opened Numerals
  import opened PyObjects

  const SIGN_BIT: int := 0x80
  const CHUNK: int := 1_000_000_000

  function Abs(n: int): nat {
    if n < 0 then -n else n
  }

  /** The integer a sign-magnitude value denotes. */
  function BigValue(b: BigInt): int {
    if b.negative then -ValueIn(WORD_BASE, b.magnitude) else ValueIn(WORD_BASE, b.magnitude)
  }

  /** No high-order zero limb, and no negative zero. */
  predicate WellFormed(b: BigInt) {
    Normalized(b.magnitude) && (b.magnitude == [] ==> !b.negative)
  }

  /** The one well-formed representation of `n`. */
  function BigOf(n: int): (b: BigInt)
    ensures WellFormed(b) && BigValue(b) == n
  {
    DigitsRoundTrip(WORD_BASE, Abs(n));
    assert n != 0 ==> DigitsOf(WORD_BASE, Abs(n)) != [];
    BigInt(n < 0, DigitsOf(WORD_BASE, Abs(n)))
  }

  /** Well-formed values are equal exactly when they denote the same integer. */
  lemma BigUnique(b: BigInt)
    requires WellFormed(b)
    ensures b == BigOf(BigValue(b))
  {
    assert InRange(WORD_BASE, b.magnitude);
    DigitsUnique(WORD_BASE, b.magnitude);
    if b.magnitude != [] {
      NormalizedPositive(WORD_BASE, b.magnitude);
    }
  }

  /** Little-endian two's complement of any width, empty meaning zero. */
  function TwosComplement(bytes: seq<Byte>): int {
    if bytes == [] then 0
    else if Last(bytes) >= SIGN_BIT then TwosPower(bytes)
    else ValueIn(256, bytes)
  }

  function TwosPower(bytes: seq<Byte>): int {
    ValueIn(256, bytes) - PowerOf256(|bytes|)
  }

  function PowerOf256(n: nat): (p: int)
    ensures p == Power(256, n)
  {
    if n == 0 then 1 else 256 * PowerOf256(n - 1)
  }

  /**
   * The value of `n` bytes, `n > 0`, is the one integer from `-256^n / 2` up to but not including `256^n / 2` that
   * leaves the unsigned value when reduced modulo `256^n`.
   */
  lemma TwosComplementMeans(bytes: seq<Byte>)
    requires bytes != []
    ensures Power(256, |bytes|) > 0
    ensures 0 - Power(256, |bytes|) <= 2 * TwosComplement(bytes) < Power(256, |bytes|)
    ensures TwosComplement(bytes) % Power(256, |bytes|) == ValueIn(256, bytes)
  {
    var front, p := bytes[..|bytes| - 1], Power(256, |bytes| - 1);
    assert bytes == front + [Last(bytes)] && InRange(256, front);
    PushValue(256, front, Last(bytes));
    ValueBound(256, front);
    PowerPositive(256, |bytes|);
    var v, t := ValueIn(256, bytes), TwosComplement(bytes);
    if Last(bytes) >= 128 {
      MulMonotone(p, 128, Last(bytes));
      MulMonotone(p, Last(bytes), 255);
      DivModUnique(t, Power(256, |bytes|), -1, v);
    } else {
      MulMonotone(p, 0, Last(bytes));
      MulMonotone(p, Last(bytes), 127);
      DivModUnique(t, Power(256, |bytes|), 0, v);
    }
  }

  /** Inverting every byte complements the value to all ones. */
  lemma {:induction false} InvertedValue(a: seq<Byte>, b: seq<Byte>)
    requires |a| == |b| && forall i | 0 <= i < |a| :: b[i] == 255 - a[i]
    ensures ValueIn(256, a) + ValueIn(256, b) == Power(256, |a|) - 1
  {
    if a != [] {
      InvertedValue(a[1..], b[1..]);
    }
  }

  lemma TopBitValue(bytes: seq<Byte>)
    requires bytes != [] && Last(bytes) >= SIGN_BIT
    ensures 0 < ValueIn(256, bytes) < Power(256, |bytes|)
  {
    assert InRange(256, bytes);
    ValueBound(256, bytes);
    assert Normalized(bytes);
    NormalizedPositive(256, bytes);
  }

  /** Extending the carry-free prefix: `x` with byte `i` replaced, seen as prefix plus rest. */
  lemma SplitValue(base: nat, ds: seq<int>, i: nat)
    requires i <= |ds|
    ensures ValueIn(base, ds) == ValueIn(base, ds[..i]) + Power(base, i) * ValueIn(base, ds[i..])
  {
    assert ds == ds[..i] + ds[i..];
    ValueAppend(base, ds[..i], ds[i..]);
  }

  lemma PushValue(base: nat, ds: seq<int>, d: int)
    ensures ValueIn(base, ds + [d]) == ValueIn(base, ds) + Power(base, |ds|) * d
  {
    ValueAppend(base, ds, [d]);
    assert ValueIn(base, [d]) == d;
  }

  /** The two's complement of the bytes in place: invert, then add one with an early exit on no carry. */
  method NegateInPlace(buf: array<Byte>)
    requires buf.Length > 0 && Last(buf[..]) >= SIGN_BIT
    modifies buf
    ensures ValueIn(256, buf[..]) == Power(256, buf.Length) - old(ValueIn(256, buf[..]))
  {
    ghost var before := buf[..];
    TopBitValue(before);
    var n := buf.Length;
    for i := 0 to n
      invariant forall k | 0 <= k < i :: buf[k] == 255 - before[k]
      invariant forall k | i <= k < n :: buf[k] == before[k]
    {
      buf[i] := 255 - buf[i];
    }
    ghost var inverted := buf[..];
    InvertedValue(before, inverted);
    var carry := 1;
    var i := 0;
    while i < n && carry != 0
      invariant 0 <= i <= n && 0 <= carry <= 1
      invariant buf[i..] == inverted[i..]
      invariant ValueIn(256, buf[..i]) + Power(256, i) * carry == ValueIn(256, inverted[..i]) + 1
    {
      var v: int := buf[i] + carry;
      ghost var prefix := buf[..i];
      assert buf[i] == buf[i..][0] == inverted[i];
      buf[i] := v % 256;
      assert buf[..i] == prefix;
      assert buf[..i + 1] == prefix + [v % 256];
      assert inverted[..i + 1] == inverted[..i] + [inverted[i]];
      PushValue(256, prefix, v % 256);
      PushValue(256, inverted[..i], inverted[i]);
      CarryStep(Power(256, i), v, carry, inverted[i]);
      carry := v / 256;
      assert buf[i + 1..] == inverted[i + 1..] by {
        assert forall k | i + 1 <= k < n :: buf[k] == inverted[k];
      }
      i := i + 1;
    }
    SplitValue(256, buf[..], i);
    SplitValue(256, inverted, i);
    assert buf[..][..i] == buf[..i] && buf[..][i..] == buf[i..];
    if carry != 0 {
      assert buf[i..] == [] && inverted[..i] == inverted;
      assert Power(256, i) * carry == Power(256, n);
      ValueBound(256, buf[..i]);
      assert false;
    }
  }

  lemma CarryStep(p: int, v: int, carry: int, b: int)
    requires v == b + carry
    ensures p * (v % 256) + (256 * p) * (v / 256) == p * b + p * carry
  {
    assert v == 256 * (v / 256) + v % 256;
    MulDistributes(p, 256 * (v / 256), v % 256);
    MulAssoc(p, 256, v / 256);
    MulDistributes(p, b, carry);
  }

  lemma {:induction false} WordPower(k: nat)
    ensures Power(WORD_BASE, k) == Power(256, 4 * k)
  {
    if k > 0 {
      WordPower(k - 1);
      PowerAdd(256, 4, 4 * k - 4);
      assert Power(256, 4) == WORD_BASE by {
        assert Power(256, 2) == 65536;
        PowerAdd(256, 2, 2);
      }
    }
  }

  /** Bytes taken four at a time as little-endian limbs, the last one zero-padded. */
  method Limbs(bytes: seq<Byte>) returns (limbs: seq<Word>)
    ensures ValueIn(WORD_BASE, limbs) == ValueIn(256, bytes)
    ensures Normalized(bytes) ==> Normalized(limbs)
  {
    limbs := [];
    var i := 0;
    while i < |bytes|
      invariant 0 <= i <= |bytes|
      invariant i < |bytes| ==> i == 4 * |limbs|
      invariant ValueIn(WORD_BASE, limbs) == ValueIn(256, bytes[..i])
      invariant i == |bytes| && Normalized(bytes) ==> Normalized(limbs)
    {
      var next := if i + 4 <= |bytes| then i + 4 else |bytes|;
      var piece := bytes[i..next];
      assert InRange(256, piece);
      ValueBound(256, piece);
      assert Power(256, |piece|) <= WORD_BASE by {
        ShortPower(|piece|);
      }
      var limb: Word := ValueIn(256, piece);
      PushValue(WORD_BASE, limbs, limb);
      WordPower(|limbs|);
      assert bytes[..next] == bytes[..i] + piece;
      ValueAppend(256, bytes[..i], piece);
      if next == |bytes| && Normalized(bytes) {
        assert Last(piece) == Last(bytes);
        NormalizedPositive(256, piece);
      }
      limbs := limbs + [limb];
      i := next;
    }
    assert bytes[..i] == bytes;
  }

  lemma ShortPower(n: nat)
    requires n <= 4
    ensures Power(256, n) <= WORD_BASE
  {
    assert Power(256, 0) == 1 && Power(256, 1) == 256;
    assert Power(256, 2) == 65536;
    assert Power(256, 3) == 256 * Power(256, 2);
    assert Power(256, 4) == 256 * Power(256, 3);
  }

  /** Decodes a payload to the well-formed value it denotes in two's complement. */
  method FromLeTwosComplement(bytes: seq<Byte>) returns (r: BigInt)
    ensures r == BigOf(TwosComplement(bytes))
  {
    if bytes == [] {
      return BigInt(false, []);
    }
    var negative := Last(bytes) >= SIGN_BIT;
    var buf := new Byte[|bytes|](i requires 0 <= i < |bytes| => bytes[i]);
    assert buf[..] == bytes;
    if negative {
      TopBitValue(bytes);
      NegateInPlace(buf);
    } else {
      assert InRange(256, bytes);
      ValueBound(256, bytes);
    }
    assert ValueIn(256, buf[..]) == Abs(TwosComplement(bytes));
    var limbs := Limbs(buf[..]);
    assert InRange(WORD_BASE, limbs);
    var magnitude := TrimZeros(limbs, WORD_BASE);
    DigitsRoundTrip(WORD_BASE, Abs(TwosComplement(bytes)));
    if magnitude == [] {
      return BigInt(false, magnitude);
    }
    return BigInt(negative, magnitude);
  }

  /** `Some` when the value fits in 64 bits: by limb count, then by comparison with the extremes. */
  function ToI64(b: BigInt): Option<int> {
    match |b.magnitude|
    case 0 => Some(0)
    case 1 =>
      var v: int := b.magnitude[0];
      Some(if b.negative then -v else v)
    case 2 =>
      var v := b.magnitude[1] * WORD_BASE + b.magnitude[0];
      if b.negative then (if v <= I64_MAX + 1 then Some(-v) else None)
      else (if v <= I64_MAX then Some(v) else None)
    case _ => None
  }

  /** Narrowing answers exactly when the value fits, and with that value. */
  lemma ToI64Exact(b: BigInt)
    requires WellFormed(b)
    ensures ToI64(b) == if FitsI64(BigValue(b)) then Some(BigValue(b)) else None
  {
    var m := b.magnitude;
    if |m| == 1 {
      assert ValueIn(WORD_BASE, m) == m[0] + WORD_BASE * ValueIn(WORD_BASE, m[1..]);
    } else if |m| == 2 {
      assert m[1..][1..] == [];
      assert ValueIn(WORD_BASE, m[1..]) == m[1];
    } else if |m| > 2 {
      assert InRange(WORD_BASE, m) && InRange(WORD_BASE, m[1..][1..]);
      NormalizedPositive(WORD_BASE, m[1..][1..]);
      assert ValueIn(WORD_BASE, m[1..]) >= WORD_BASE;
      assert ValueIn(WORD_BASE, m) >= WORD_BASE * WORD_BASE;
    }
  }

  /** An integer payload, narrowed whenever it fits, so each integer has one value. */
  function LongFromLe(bytes: seq<Byte>): PyObj {
    var n := TwosComplement(bytes);
    if FitsI64(n) then Int(n) else Big(BigOf(n))
  }

  method DecodeLong(bytes: seq<Byte>) returns (v: PyObj)
    ensures v == LongFromLe(bytes)
  {
    var big := FromLeTwosComplement(bytes);
    ToI64Exact(big);
    match ToI64(big)
    case Some(n) => v := Int(n);
    case None => v := Big(big);
  }

  // Decimal text.

  const ZERO: Byte := 48
  const MINUS: Byte := 45

  function AsText(digits: seq<int>): (text: seq<Byte>)
    requires InRange(10, digits)
    ensures |text| == |digits|
    ensures forall i | 0 <= i < |text| :: text[i] == ZERO + digits[|digits| - 1 - i]
  {
    seq(|digits|, i requires 0 <= i < |digits| => ZERO + digits[|digits| - 1 - i])
  }

  /** Decimal digits, most significant first, no leading zero. */
  function DecimalNat(n: nat): seq<Byte> {
    DigitsRoundTrip(10, n);
    if n == 0 then [ZERO] else AsText(DigitsOf(10, n))
  }

  function Decimal(n: int): seq<Byte> {
    if n < 0 then [MINUS] + DecimalNat(-n) else DecimalNat(n)
  }

  /** Reads decimal digits, most significant first. */
  function ReadNat(text: seq<Byte>): int {
    if text == [] then 0 else 10 * ReadNat(text[..|text| - 1]) + Last(text) - ZERO
  }

  function ReadDecimal(text: seq<Byte>): int {
    if text != [] && text[0] == MINUS then -ReadNat(text[1..]) else ReadNat(text)
  }

  lemma {:induction false} ReadText(digits: seq<int>)
    requires InRange(10, digits)
    ensures ReadNat(AsText(digits)) == ValueIn(10, digits)
  {
    if digits != [] {
      var text := AsText(digits);
      assert text[..|text| - 1] == AsText(digits[1..]);
      ReadText(digits[1..]);
    }
  }

  /** Decimal text reads back as the number, and has no superfluous leading zero. */
  lemma DecimalReadsBack(n: int)
    ensures ReadDecimal(Decimal(n)) == n
    ensures var digits := if n < 0 then Decimal(n)[1..] else Decimal(n);
            digits != [] && (|digits| > 1 ==> digits[0] != ZERO)
            && forall i | 0 <= i < |digits| :: ZERO <= digits[i] < ZERO + 10
    ensures n < 0 ==> Decimal(n)[0] == MINUS
  {
    var m := Abs(n);
    DigitsRoundTrip(10, m);
    if m == 0 {
      assert ReadNat([ZERO]) == 10 * ReadNat([ZERO][..0]) + 0;
    } else {
      ReadText(DigitsOf(10, m));
    }
    if n < 0 {
      assert Decimal(n)[1..] == DecimalNat(m);
    }
  }

  /** Nine decimal digits of a chunk, least significant first, zero-padded. */
  function Padded(c: int, width: nat): (ds: seq<int>)
    requires c >= 0
    ensures |ds| == width && InRange(10, ds)
  {
    if width == 0 then [] else [c % 10] + Padded(c / 10, width - 1)
  }

  lemma {:induction false} PaddedValue(c: int, width: nat)
    requires 0 <= c < Power(10, width)
    ensures ValueIn(10, Padded(c, width)) == c
  {
    if width > 0 {
      PaddedValue(c / 10, width - 1);
      assert Padded(c, width)[1..] == Padded(c / 10, width - 1);
    }
  }

  lemma ChunkPower()
    ensures Power(10, 9) == CHUNK
  {
    assert Power(10, 3) == 1000 by {
      assert Power(10, 1) == 10 && Power(10, 2) == 100;
    }
    PowerAdd(10, 3, 3);
    PowerAdd(10, 3, 6);
  }

  /** One pass of the repeated division: quotient limbs in place, remainder out. */
  method DivideByChunk(limbs: seq<Word>) returns (quotient: seq<Word>, rem: int)
    ensures |quotient| == |limbs| && 0 <= rem < CHUNK
    ensures ValueIn(WORD_BASE, limbs) == CHUNK * ValueIn(WORD_BASE, quotient) + rem
  {
    quotient, rem := limbs, 0;
    var i := |limbs|;
    while i > 0
      invariant 0 <= i <= |limbs| == |quotient|
      invariant 0 <= rem < CHUNK
      invariant quotient[..i] == limbs[..i]
      invariant ValueIn(WORD_BASE, limbs[i..]) == CHUNK * ValueIn(WORD_BASE, quotient[i..]) + rem
    {
      i := i - 1;
      assert quotient[i] == quotient[..i + 1][i] == limbs[i];
      var cur := rem * WORD_BASE + quotient[i];
      assert cur < 0x1_0000_0000_0000_0000;
      ghost var before := quotient;
      quotient := quotient[i := cur / CHUNK];
      assert quotient[i..] == [cur / CHUNK] + before[i + 1..];
      assert limbs[i..] == [limbs[i]] + limbs[i + 1..];
      assert quotient[..i] == limbs[..i] by {
        assert before[..i + 1][..i] == limbs[..i + 1][..i];
      }
      DivisionStep(ValueIn(WORD_BASE, limbs[i + 1..]), ValueIn(WORD_BASE, before[i + 1..]), rem, limbs[i], cur);
      rem := cur % CHUNK;
    }
    assert limbs[0..] == limbs && quotient[0..] == quotient;
  }

  lemma DivisionStep(high: int, q: int, rem: int, limb: int, cur: int)
    requires high == CHUNK * q + rem && cur == rem * WORD_BASE + limb
    ensures limb + WORD_BASE * high == CHUNK * (cur / CHUNK + WORD_BASE * q) + cur % CHUNK
  {
  }

  /** The decimal text of a value: repeated division by 10^9, then the chunks most significant first. */
  method Display(b: BigInt) returns (text: seq<Byte>)
    requires WellFormed(b)
    ensures text == Decimal(BigValue(b))
  {
    BigUnique(b);
    if b.magnitude == [] {
      return [ZERO];
    }
    ghost var total := ValueIn(WORD_BASE, b.magnitude);
    NormalizedPositive(WORD_BASE, b.magnitude);
    var chunks := ChunksOf(b.magnitude);
    var digits := DigitsFromChunks(chunks);
    text := AsText(digits);
    if b.negative {
      text := [MINUS] + text;
    }
  }

  lemma Regroup(v: int, p: int, c: int, q: int, rem: int, pushed: int, next: int)
    requires pushed == v + p * rem && next == c * p
    ensures pushed + next * q == v + p * (c * q + rem)
  {
    MulDistributes(p, c * q, rem);
    MulAssoc(p, c, q);
    assert p * c == c * p;
  }

  /** Taking a chunk off a value moves it, at its place, to the chunks. */
  lemma ChunkTaken(base: nat, chunks: seq<int>, q: int, rem: int)
    ensures ValueIn(base, chunks + [rem]) + Power(base, |chunks| + 1) * q
         == ValueIn(base, chunks) + Power(base, |chunks|) * (base * q + rem)
  {
    PushValue(base, chunks, rem);
    Regroup(ValueIn(base, chunks), Power(base, |chunks|), base, q, rem, ValueIn(base, chunks + [rem]),
            Power(base, |chunks| + 1));
    hide ValueIn, Power;
  }

  method ChunksOf(magnitude: seq<Word>) returns (chunks: seq<int>)
    requires magnitude != [] && Normalized(magnitude)
    ensures ValueIn(CHUNK, chunks) == ValueIn(WORD_BASE, magnitude) > 0
    ensures chunks != [] && InRange(CHUNK, chunks) && Normalized(chunks)
  {
    var limbs: seq<Word> := magnitude;
    assert InRange(WORD_BASE, magnitude);
    NormalizedPositive(WORD_BASE, magnitude);
    ghost var total := ValueIn(WORD_BASE, magnitude);
    chunks := [];
    while limbs != []
      invariant Normalized(limbs) && InRange(CHUNK, chunks)
      invariant ValueIn(CHUNK, chunks) + Power(CHUNK, |chunks|) * ValueIn(WORD_BASE, limbs) == total
      invariant limbs == [] ==> chunks != [] && Normalized(chunks)
      decreases ValueIn(WORD_BASE, limbs), |limbs|
    {
      ghost var value := ValueIn(WORD_BASE, limbs);
      assert InRange(WORD_BASE, limbs);
      NormalizedPositive(WORD_BASE, limbs);
      var quotient, rem := DivideByChunk(limbs);
      ghost var q := ValueIn(WORD_BASE, quotient);
      ChunkTaken(CHUNK, chunks, q, rem);
      assert InRange(WORD_BASE, quotient);
      ValueBound(WORD_BASE, quotient);
      var trimmed := TrimZeros(quotient, WORD_BASE);
      DigitsRoundTrip(WORD_BASE, q);
      limbs := trimmed;
      chunks := chunks + [rem];
    }
  }

  lemma ChunkStep(c: int, digits: seq<int>)
    requires 0 <= c < CHUNK && InRange(10, digits) && Normalized(digits) && digits != []
    ensures ValueIn(10, Padded(c, 9) + digits) == c + CHUNK * ValueIn(10, digits)
    ensures InRange(10, Padded(c, 9) + digits) && Normalized(Padded(c, 9) + digits)
  {
    ChunkPower();
    PaddedValue(c, 9);
    ValueAppend(10, Padded(c, 9), digits);
    assert Last(Padded(c, 9) + digits) == Last(digits);
  }

  /** The top chunk unpadded, every other one padded to nine digits. */
  method DigitsFromChunks(chunks: seq<int>) returns (digits: seq<int>)
    requires chunks != [] && InRange(CHUNK, chunks) && Normalized(chunks)
    ensures ValueIn(CHUNK, chunks) > 0
    ensures digits == DigitsOf(10, ValueIn(CHUNK, chunks)) && InRange(10, digits)
  {
    hide Power, Padded;
    var i := |chunks| - 1;
    DigitsRoundTrip(10, chunks[i]);
    digits := DigitsOf(10, chunks[i]);
    assert chunks[i..] == [chunks[i]];
    while i > 0
      invariant 0 <= i < |chunks|
      invariant InRange(10, digits) && Normalized(digits) && digits != []
      invariant ValueIn(10, digits) == ValueIn(CHUNK, chunks[i..])
    {
      i := i - 1;
      ChunkStep(chunks[i], digits);
      assert chunks[i..] == [chunks[i]] + chunks[i + 1..];
      digits := Padded(chunks[i], 9) + digits;
    }
    assert chunks[0..] == chunks;
    NormalizedPositive(CHUNK, chunks);
    DigitsUnique(10, digits);
  }
}
