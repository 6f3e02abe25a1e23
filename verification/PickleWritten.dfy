/** The reader takes back what a writer spells: run over the bytes of any code, it pushes the value the code stands
 * for, and every later fetch finds what the writer stored. */
module PickleWritten {
  import opened Common
  import opened Numerals
  import opened PyObjects
  import opened BigInts
  import opened PickleStream
  import opened PickleReader
  import opened PickleDecoding
  import opened PickleWriting

  // Numbers in bytes.

  lemma {:induction false} LowFirstReadsBack(n: nat, width: nat)
    requires n < Power(256, width)
    ensures ValueIn(256, LowFirst(n, width)) == n
  {
    if width > 0 {
      DivMod(n, 256);
      DivBelow(n, 256, Power(256, width - 1));
      LowFirstReadsBack(n / 256, width - 1);
      assert LowFirst(n, width)[1..] == LowFirst(n / 256, width - 1);
    }
  }

  lemma {:induction false} HighFirstReadsBack(n: nat, width: nat)
    requires n < Power(256, width)
    ensures BigEndian(HighFirst(n, width)) == n
  {
    if width > 0 {
      DivMod(n, 256);
      DivBelow(n, 256, Power(256, width - 1));
      HighFirstReadsBack(n / 256, width - 1);
      var bytes := HighFirst(n, width);
      assert bytes[..|bytes| - 1] == HighFirst(n / 256, width - 1);
    }
  }

  lemma SmallPowers()
    ensures Power(256, 1) == 0x100 && Power(256, 2) == 0x1_0000 && Power(256, 4) == 0x1_0000_0000
    ensures Power(256, 8) == 0x1_0000_0000_0000_0000
  {
    assert Power(256, 1) == 256;
    assert Power(256, 2) == 65536;
    PowerAdd(256, 2, 2);
    PowerAdd(256, 4, 4);
  }

  lemma ModShift(n: int, p: nat)
    requires p > 0 && 0 - p <= n < p
    ensures n % p == if n < 0 then n + p else n
  {
  }

  /** Reduced, spelled and read as two's complement, a number in range is itself. */
  lemma SignedReadsBack(n: int, width: nat)
    requires width > 0 && 0 - Power(256, width) <= 2 * n < Power(256, width)
    ensures TwosComplement(LowFirst(Unsigned(n, width), width)) == n
  {
    var p, u := Power(256, width), Unsigned(n, width);
    PowerPositive(256, width);
    var bytes := LowFirst(u, width);
    LowFirstReadsBack(u, width);
    TwosComplementMeans(bytes);
    var t := TwosComplement(bytes);
    ModShift(n, p);
    ModShift(t, p);
  }

  lemma {:induction false} UnsignedSmall(n: int, width: nat)
    requires 0 <= n < Power(256, width)
    ensures Unsigned(n, width) == n
  {
    ModShift(n, Power(256, width));
  }

  // Bytes in place.

  ghost predicate At(buf: seq<Byte>, pos: nat, w: seq<Byte>) {
    pos + |w| <= |buf| && buf[pos..pos + |w|] == w
  }

  lemma AtSplit(buf: seq<Byte>, pos: nat, a: seq<Byte>, b: seq<Byte>)
    requires At(buf, pos, a + b)
    ensures At(buf, pos, a) && At(buf, pos + |a|, b)
  {
    var w := buf[pos..pos + |a + b|];
    assert w[..|a|] == a && w[|a|..] == b;
  }

  lemma AtByte(buf: seq<Byte>, pos: nat, b: Byte)
    requires At(buf, pos, [b])
    ensures pos < |buf| && buf[pos] == b
  {
    assert buf[pos..pos + 1][0] == b;
  }

  /** An opcode byte, its payload right after it. */
  lemma AtOpcode(buf: seq<Byte>, pos: nat, b: Byte, w: seq<Byte>)
    requires At(buf, pos, [b] + w)
    ensures pos < |buf| && buf[pos] == b && At(buf, pos + 1, w)
  {
    AtSplit(buf, pos, [b], w);
    AtByte(buf, pos, b);
  }

  // Values that one opcode pushes.

  predicate IsLeaf(c: Code) {
    c.NoneCode? || c.Flag? || c.Number? || c.Real? || c.Text? || c.Empty?
  }

  lemma LexNumber(buf: seq<Byte>, pos: nat, n: int, width: Width)
    requires NumberFits(n, width) && !width.Long? && At(buf, pos, NumberBytes(n, width))
    ensures Lex(buf, pos) == Ok((Push(Int(n)), pos + |NumberBytes(n, width)|))
  {
    SmallPowers();
    var size := if width.OneByte? then 1 else if width.TwoBytes? then 2 else 4;
    var opcode := if width.OneByte? then 0x4B else if width.TwoBytes? then 0x4D else 0x4A;
    var payload := LowFirst(Unsigned(n, size), size);
    AtOpcode(buf, pos, opcode, payload);
    if width.FourBytes? {
      SignedReadsBack(n, 4);
    } else {
      UnsignedSmall(n, size);
      LowFirstReadsBack(n, size);
      if width.OneByte? {
        assert payload == [n];
        AtByte(buf, pos + 1, n);
      }
    }
    hide Power, LowFirst, Unsigned, TwosComplement, ValueIn, Bare, KnownUnsupported, TakeText, BigEndian;
  }

  lemma LexLongBytes(buf: seq<Byte>, pos: nat, payload: seq<Byte>)
    requires At(buf, pos + 2, payload) && buf[pos] == 0x8A && buf[pos + 1] == |payload|
    ensures Lex(buf, pos) == Ok((Push(LongFromLe(payload)), pos + 2 + |payload|))
  {
    hide Bare, KnownUnsupported, TakeText, TwosComplement, BigEndian, ValueIn, LittleEndian, LongFromLe;
  }

  lemma LexLong(buf: seq<Byte>, pos: nat, n: int, size: nat)
    requires NumberFits(n, Long(size)) && At(buf, pos, NumberBytes(n, Long(size)))
    ensures Lex(buf, pos) == Ok((Push(IntegerOf(n)), pos + |NumberBytes(n, Long(size))|))
  {
    hide Lex, Power, Unsigned, LowFirst, TwosComplement, BigOf;
    var payload := LowFirst(Unsigned(n, size), size);
    OneByteLow(size);
    assert NumberBytes(n, Long(size)) == [0x8A] + ([size] + payload);
    AtOpcode(buf, pos, 0x8A, [size] + payload);
    AtOpcode(buf, pos + 1, size, payload);
    PayloadReadsBack(n, size);
    LexLongBytes(buf, pos, payload);
  }

  lemma OneByteLow(n: nat)
    requires n < 256
    ensures LowFirst(n, 1) == [n]
  {
  }

  lemma PayloadReadsBack(n: int, size: nat)
    requires NumberFits(n, Long(size))
    ensures TwosComplement(LowFirst(Unsigned(n, size), size)) == n
  {
    hide Power;
    if size > 0 {
      SignedReadsBack(n, size);
    }
  }

  lemma LexReal(buf: seq<Byte>, pos: nat, bits: nat)
    requires bits < 0x1_0000_0000_0000_0000 && At(buf, pos, Write(Real(bits)))
    ensures Lex(buf, pos) == Ok((Push(Float(bits)), pos + 9))
  {
    SmallPowers();
    AtOpcode(buf, pos, 0x47, HighFirst(bits, 8));
    HighFirstReadsBack(bits, 8);
    hide Power, HighFirst, BigEndian, Bare, KnownUnsupported, TakeText, TwosComplement;
  }

  lemma LexShortText(buf: seq<Byte>, pos: nat, bytes: seq<Byte>)
    requires ValidUtf8(bytes) && At(buf, pos + 2, bytes) && buf[pos] == 0x8C && buf[pos + 1] == |bytes|
    ensures Lex(buf, pos) == Ok((Push(Str(bytes)), pos + 2 + |bytes|))
  {
    hide ValidUtf8, Bare, KnownUnsupported, TwosComplement, BigEndian, ValueIn, LittleEndian, LongFromLe;
  }

  lemma LexLongText(buf: seq<Byte>, pos: nat, length: seq<Byte>, bytes: seq<Byte>)
    requires ValidUtf8(bytes) && At(buf, pos + 5, bytes) && buf[pos] == 0x58 && At(buf, pos + 1, length)
    requires |length| == 4 && ValueIn(256, length) == |bytes|
    ensures Lex(buf, pos) == Ok((Push(Str(bytes)), pos + 5 + |bytes|))
  {
    hide ValidUtf8, Bare, KnownUnsupported, TwosComplement, BigEndian, ValueIn, LongFromLe;
  }

  lemma LexText(buf: seq<Byte>, pos: nat, bytes: seq<Byte>, short: bool)
    requires ValidUtf8(bytes) && |bytes| < (if short then 0x100 else 0x1_0000_0000)
    requires At(buf, pos, Write(Text(bytes, short)))
    ensures Lex(buf, pos) == Ok((Push(Str(bytes)), pos + |Write(Text(bytes, short))|))
  {
    hide Lex, ValidUtf8, Power;
    SmallPowers();
    var size := if short then 1 else 4;
    var opcode := if short then 0x8C else 0x58;
    var length := LowFirst(|bytes|, size);
    assert Write(Text(bytes, short)) == [opcode] + (length + bytes);
    AtOpcode(buf, pos, opcode, length + bytes);
    AtSplit(buf, pos + 1, length, bytes);
    LowFirstReadsBack(|bytes|, size);
    if short {
      assert length == [|bytes|];
      AtByte(buf, pos + 1, |bytes|);
      LexShortText(buf, pos, bytes);
    } else {
      LexLongText(buf, pos, length, bytes);
    }
  }

  lemma LexByte(buf: seq<Byte>, pos: nat, opcode: Byte)
    requires At(buf, pos, [opcode]) && Bare(opcode).Some?
    ensures Lex(buf, pos) == Ok((Bare(opcode).value, pos + 1))
  {
    AtByte(buf, pos, opcode);
    LexBare(buf, pos);
  }

  lemma LexLeaf(buf: seq<Byte>, pos: nat, c: Code, memo: seq<PyObj>, allow: Allowlist)
    requires IsLeaf(c) && At(buf, pos, Write(c)) && Denoted(c, memo, allow).Some?
    ensures Lex(buf, pos) == Ok((Push(Denoted(c, memo, allow).value.value), pos + |Write(c)|))
    ensures Denoted(c, memo, allow).value.memo == memo && Denoted(c, memo, allow).value.held == {}
    ensures !Denoted(c, memo, allow).value.value.Instance?
  {
    hide Lex, NumberBytes, LowFirst, HighFirst, ValidUtf8;
    match c
    case Number(n, width) =>
      if width.Long? {
        LexLong(buf, pos, n, width.size);
      } else {
        LexNumber(buf, pos, n, width);
      }
    case Real(bits) => LexReal(buf, pos, bits);
    case Text(bytes, short) => LexText(buf, pos, bytes, short);
    case NoneCode => LexByte(buf, pos, 0x4E);
    case Flag(b) => LexByte(buf, pos, if b then 0x88 else 0x89);
    case Empty(kind) => LexByte(buf, pos, EmptyByte(kind));
  }

  // States.

  /** Every slot is tracked: a copy, or a container on the stack. */
  ghost predicate Ready(s: State) {
    Inv(s) && forall i | 0 <= i < |s.memo| :: !s.memo[i].Unreferenced?
  }

  /** What a fetch of each slot would find. */
  ghost function MemoOf(s: State): (memo: seq<PyObj>)
    requires Ready(s)
    ensures |memo| == |s.memo|
  {
    seq(|s.memo|, i requires 0 <= i < |s.memo| => SlotOf(s, i))
  }

  ghost function SlotOf(s: State, i: nat): PyObj
    requires Inv(s) && i < |s.memo|
  {
    match s.memo[i]
    case Value(v) => v
    case Live(k) => s.stack[k]
    case Unreferenced => NoneObj
  }

  /** `t` has `vs` on top of what `s` has, and no new slot names anything below them. */
  ghost predicate Above(s: State, t: State, vs: seq<PyObj>) {
    && Ready(s) && Ready(t)
    && t.stack == s.stack + vs && t.marks == s.marks
    && |s.memo| <= |t.memo| && t.memo[..|s.memo|] == s.memo
    && forall i | |s.memo| <= i < |t.memo| && t.memo[i].Live? :: |s.stack| <= t.memo[i].index
  }

  /** Exactly the places in `held` name the stack position `top`. */
  ghost predicate Holding(t: State, top: nat, held: set<nat>) {
    forall i | 0 <= i < |t.memo| :: t.memo[i] == Live(top) <==> i in held
  }

  /** The state reached by reading something that means `m`. */
  ghost predicate Reached(s: State, t: State, m: Meant) {
    && Above(s, t, [m.value])
    && MemoOf(t) == m.memo
    && Holding(t, |s.stack|, m.held)
    && (forall i | i in m.held :: i < |m.memo|)
  }

  lemma AboveChain(s: State, t: State, u: State, vs: seq<PyObj>, ws: seq<PyObj>)
    requires Above(s, t, vs) && Above(t, u, ws)
    ensures Above(s, u, vs + ws)
  {
    hide Inv;
    assert s.stack + (vs + ws) == (s.stack + vs) + ws;
    assert u.memo[..|s.memo|] == u.memo[..|t.memo|][..|s.memo|];
    forall i | |s.memo| <= i < |u.memo| && u.memo[i].Live? ensures |s.stack| <= u.memo[i].index {
      if i < |t.memo| {
        assert u.memo[..|t.memo|][i] == t.memo[i];
      }
    }
  }

  /** Only the cursor differs. */
  lemma CursorMoves(s: State, pos: nat)
    requires Ready(s)
    ensures Ready(s.(pos := pos)) && MemoOf(s.(pos := pos)) == MemoOf(s)
  {
  }

  lemma PushReaches(s: State, v: PyObj)
    requires Ready(s) && |s.stack| < MAX_STACK && s.objects < MAX_OBJECTS
    ensures Pushed(s, v).Next? && Pushed(s, v).s.objects == s.objects + 1
    ensures Reached(s, Pushed(s, v).s, Meant(v, MemoOf(s), {}))
  {
    hide MarksOk, LiveEntries, MemoSorted;
    var t := Pushed(s, v).s;
    assert t.stack == s.stack + [v];
    assert t.memo[..|s.memo|] == s.memo;
    forall i | 0 <= i < |t.memo| ensures SlotOf(t, i) == SlotOf(s, i) {
    }
  }

  lemma KeepReaches(s: State, t: State, m: Meant, at: nat)
    requires Reached(s, t, m)
    ensures var held := if IsContainer(m.value) then m.held + {|m.memo|} else {};
            && MemoizeTop(t, None, at).Next? && MemoizeTop(t, None, at).s.objects == t.objects
            && Reached(s, MemoizeTop(t, None, at).s, Meant(m.value, m.memo + [m.value], held))
  {
    hide MarksOk, LiveEntries, MemoSorted;
    var u := MemoizeTop(t, None, at).s;
    var top := |s.stack|;
    assert t.stack[top] == m.value && |t.stack| == top + 1;
    assert u.memo[..|t.memo|] == t.memo;
    assert u.memo[..|s.memo|] == u.memo[..|t.memo|][..|s.memo|];
    assert Ready(u);
    assert MemoOf(u) == m.memo + [m.value] by {
      forall i | 0 <= i < |u.memo| ensures SlotOf(u, i) == (m.memo + [m.value])[i] {
        if i < |t.memo| {
          assert u.memo[i] == t.memo[i] && MemoOf(t)[i] == SlotOf(t, i);
        }
      }
    }
    if !IsContainer(m.value) {
      assert LiveOnStack(t.memo, t.stack);
      assert m.held == {};
    }
  }

  lemma GrabsDownTo(u: State, grab: Grab, name: string, height: nat)
    requires Inv(u) && GrabHeight(|u.stack|, u.marks, grab, u.pos, name) == Ok(height)
    ensures var t := u.(marks := MarksAfter(u.marks, grab));
            Grabbed(u, grab, name) == Ok((Shrink(t, height), u.stack[height..]))
  {
    hide Inv, Shrink;
  }

  lemma MarksBack(s: State, u: State, vs: seq<PyObj>, marked: bool, name: string)
    requires Inv(s) && Inv(u) && u.stack == s.stack + vs
    requires u.marks == if marked then s.marks + [|s.stack|] else s.marks
    ensures var grab := if marked then ToMark else Top(|vs|);
            && GrabHeight(|u.stack|, u.marks, grab, u.pos, name) == Ok(|s.stack|)
            && MarksAfter(u.marks, grab) == s.marks
            && MarksOk(s.marks, |s.stack|)
  {
    hide LiveEntries, MemoSorted, LiveOnStack;
  }

  lemma UnmarkedAbove(s: State, u: State, vs: seq<PyObj>, marked: bool)
    requires Ready(s) && Above(if marked then s.(marks := s.marks + [|s.stack|]) else s, u, vs)
    ensures Above(s, u.(marks := s.marks), vs) && MemoOf(u.(marks := s.marks)) == MemoOf(u)
  {
    hide LiveEntries, MemoSorted;
    var t := u.(marks := s.marks);
    assert Inv(t);
  }

  /** Values taken back off the stack: every fetch still finds the same, and no new slot is left on the stack. */
  lemma TakenBack(s: State, u: State, vs: seq<PyObj>, marked: bool, name: string)
    requires Ready(s) && Above(if marked then s.(marks := s.marks + [|s.stack|]) else s, u, vs)
    ensures var grab := if marked then ToMark else Top(|vs|);
            && Grabbed(u, grab, name).Ok?
            && Grabbed(u, grab, name).value.1 == vs
            && TakenOff(s, u, Grabbed(u, grab, name).value.0)
  {
    hide Inv, GrabHeight, MarksAfter, Grabbed, Shrink;
    MarksBack(s, u, vs, marked, name);
    GrabsDownTo(u, if marked then ToMark else Top(|vs|), name, |s.stack|);
    assert u.stack[|s.stack|..] == vs;
    UnmarkedAbove(s, u, vs, marked);
    ShrunkAgrees(s, u.(marks := s.marks), vs);
  }

  ghost predicate TakenOff(s: State, u: State, w: State) {
    && Above(s, w, []) && w.pos == u.pos && w.objects == u.objects
    && Ready(u) && MemoOf(w) == MemoOf(u)
  }

  lemma ShrunkAgrees(s: State, t: State, vs: seq<PyObj>)
    requires Above(s, t, vs) && MarksOk(t.marks, |s.stack|)
    ensures Inv(Shrink(t, |s.stack|)) && TakenOff(s, t, Shrink(t, |s.stack|))
  {
    hide LiveEntries, MemoSorted, LiveBelow, MarksOk;
    var w := Shrink(t, |s.stack|);
    ShrinkKeepsInv(t, |s.stack|);
    assert w.stack == s.stack + [];
    assert w.memo[..|s.memo|] == s.memo by {
      forall i | 0 <= i < |s.memo| ensures w.memo[i] == s.memo[i] {
        assert t.memo[..|s.memo|][i] == t.memo[i];
      }
    }
    assert MemoOf(w) == MemoOf(t) by {
      forall i | 0 <= i < |w.memo| ensures SlotOf(w, i) == SlotOf(t, i) {
      }
    }
  }

  /** Something built from what was taken off is pushed where it stood. */
  lemma BuiltReaches(s: State, u: State, w: State, v: PyObj)
    requires TakenOff(s, u, w) && |s.stack| < MAX_STACK && u.objects < MAX_OBJECTS
    ensures Pushed(w, v).Next? && Pushed(w, v).s.objects == u.objects + 1
    ensures Reached(s, Pushed(w, v).s, Meant(v, MemoOf(u), {}))
  {
    hide Inv;
    PushReaches(w, v);
    AboveChain(s, w, Pushed(w, v).s, [], [v]);
    assert [] + [v] == [v];
  }

  lemma AddedExtends(v: PyObj, kind: Kind, vs: seq<PyObj>, marked: bool)
    requires AddedTo(v, kind, vs, marked).Some?
    ensures IsContainer(v) && HeadOf(v) == Cell(kind) && (kind.KDict? ==> |vs| % 2 == 0)
    ensures AddedTo(v, kind, vs, marked).value == Extend(v, vs)
    ensures marked || |vs| == (if kind.KDict? then 2 else 1)
    ensures marked || !kind.KSet?
  {
  }

  /** Values added to the container below them: the slots that hold it follow. */
  lemma AddedReaches(s: State, b: State, m: Meant, u: State, w: State, kind: Kind, vs: seq<PyObj>, marked: bool,
                     at: nat, name: string)
    requires Reached(s, b, m) && TakenOff(b, u, w) && AddedTo(m.value, kind, vs, marked).Some?
    ensures var x := AddedTo(m.value, kind, vs, marked).value;
            && AddItems(w, kind, vs, at, name).Next?
            && AddItems(w, kind, vs, at, name).s.objects == u.objects
            && Reached(s, AddItems(w, kind, vs, at, name).s, Meant(x, Refreshed(MemoOf(u), m.held, x), m.held))
  {
    hide LiveEntries, MemoSorted, MarksOk, Extend, HeadOf;
    AddedExtends(m.value, kind, vs, marked);
    AboveChain(s, b, w, [m.value], []);
    var top := |s.stack|;
    assert [m.value] + [] == [m.value];
    assert w.stack == s.stack + [m.value] && w.stack[top] == m.value && w.stack[..top] == s.stack;
    var t := AddItems(w, kind, vs, at, name).s;
    assert t == w.(stack := s.stack + [Extend(m.value, vs)]);
    HeldStays(s, b, m, w);
    forall i | 0 <= i < |t.memo|
      ensures SlotOf(t, i) == Refreshed(MemoOf(w), m.held, t.stack[top])[i]
    {
      assert MemoOf(w)[i] == SlotOf(w, i);
    }
    assert MemoOf(t) == Refreshed(MemoOf(w), m.held, t.stack[top]);
  }

  lemma HeldStays(s: State, b: State, m: Meant, w: State)
    requires Reached(s, b, m) && Above(b, w, [])
    ensures Holding(w, |s.stack|, m.held)
  {
    hide Inv;
    forall i | 0 <= i < |w.memo| ensures w.memo[i] == Live(|s.stack|) <==> i in m.held {
      if i < |b.memo| {
        assert w.memo[..|b.memo|][i] == b.memo[i];
      }
    }
  }

  // Runs.

  /** The run from `s` goes on from `t`, `size` bytes and `cost` pushed values later. */
  ghost predicate Arrives(buf: seq<Byte>, s: State, t: State, size: nat, cost: nat, allow: Allowlist) {
    && Inv(s) && Inv(t)
    && s.pos + size == t.pos <= |buf|
    && t.objects == s.objects + cost
    && Run(buf, s, None, allow) == Run(buf, t, None, allow)
  }

  ghost predicate Room(s: State, height: nat, cost: nat) {
    |s.stack| + height <= MAX_STACK && s.objects + cost <= MAX_OBJECTS
  }

  lemma CursorReached(s: State, pos: nat, t: State, m: Meant)
    requires Ready(s) && Reached(s.(pos := pos), t, m)
    ensures Reached(s, t, m)
  {
  }

  lemma CursorAbove(s: State, pos: nat, t: State, vs: seq<PyObj>)
    requires Ready(s) && Above(s, t, vs)
    ensures Above(s, t.(pos := pos), vs) && MemoOf(t.(pos := pos)) == MemoOf(t)
  {
  }

  /** One instruction that pushes `v`. */
  lemma ReadsPush(buf: seq<Byte>, s: State, v: PyObj, next: nat, allow: Allowlist) returns (t: State)
    requires Ready(s) && s.pos <= next && s.pos <= |buf| && Lex(buf, s.pos) == Ok((Push(v), next)) && Room(s, 1, 1)
    ensures Arrives(buf, s, t, next - s.pos, 1, allow) && Reached(s, t, Meant(v, MemoOf(s), {}))
  {
    hide Lex, Inv, Run, Pushed;
    var c := s.(pos := next);
    CursorMoves(s, next);
    PushReaches(c, v);
    t := Pushed(c, v).s;
    OneStep(buf, s, Push(v), t, allow);
    CursorReached(s, next, t, Meant(v, MemoOf(s), {}));
  }

  lemma ReadsLeaf(buf: seq<Byte>, s: State, c: Code, allow: Allowlist) returns (t: State)
    requires IsLeaf(c) && Ready(s) && At(buf, s.pos, Write(c)) && Denoted(c, MemoOf(s), allow).Some?
    requires Room(s, Height(c), Cost(c))
    ensures Arrives(buf, s, t, |Write(c)|, Cost(c), allow) && Reached(s, t, Denoted(c, MemoOf(s), allow).value)
  {
    hide Lex, Inv, Run, Write, Denoted, Arrives, Reached;
    LexLeaf(buf, s.pos, c, MemoOf(s), allow);
    t := ReadsPush(buf, s, Denoted(c, MemoOf(s), allow).value.value, s.pos + |Write(c)|, allow);
  }

  lemma LexAgain(buf: seq<Byte>, pos: nat, index: nat, short: bool)
    requires index < (if short then 0x100 else 0x1_0000_0000) && At(buf, pos, Write(Again(index, short)))
    ensures Lex(buf, pos) == Ok((Get(index), pos + |Write(Again(index, short))|))
  {
    hide Power, ValueIn, Bare, KnownUnsupported, TakeText, TwosComplement, BigEndian, LongFromLe;
    SmallPowers();
    var size := if short then 1 else 4;
    AtOpcode(buf, pos, if short then 0x68 else 0x6A, LowFirst(index, size));
    LowFirstReadsBack(index, size);
    if short {
      assert LowFirst(index, 1) == [index];
      AtByte(buf, pos + 1, index);
    }
  }

  lemma ReadsAgain(buf: seq<Byte>, s: State, c: Code, allow: Allowlist) returns (t: State)
    requires c.Again? && Ready(s) && At(buf, s.pos, Write(c)) && Denoted(c, MemoOf(s), allow).Some?
    requires Room(s, 1, 1)
    ensures Arrives(buf, s, t, |Write(c)|, 1, allow) && Reached(s, t, Denoted(c, MemoOf(s), allow).value)
  {
    hide Lex, Inv, Run, Write, Pushed;
    LexAgain(buf, s.pos, c.index, c.short);
    var v, next := MemoOf(s)[c.index], s.pos + |Write(c)|;
    var moved := s.(pos := next);
    CursorMoves(s, next);
    assert MemoGet(moved, c.index) == Ok(v);
    PushReaches(moved, v);
    t := Pushed(moved, v).s;
    OneStep(buf, s, Get(c.index), t, allow);
    CursorReached(s, next, t, Meant(v, MemoOf(s), {}));
  }

  /** The store after a value. */
  lemma ReadsKeep(buf: seq<Byte>, s: State, t: State, m: Meant, allow: Allowlist) returns (u: State)
    requires Reached(s, t, m) && At(buf, t.pos, [0x94])
    ensures Arrives(buf, t, u, 1, 0, allow)
    ensures Reached(s, u, Meant(m.value, m.memo + [m.value], if IsContainer(m.value) then m.held + {|m.memo|} else {}))
  {
    hide Lex, Inv, Run, MemoizeTop;
    LexByte(buf, t.pos, 0x94);
    var moved := t.(pos := t.pos + 1);
    CursorAbove(s, t.pos + 1, t, [m.value]);
    KeepReaches(s, moved, m, t.pos);
    u := MemoizeTop(moved, None, t.pos).s;
    OneStep(buf, t, Memoize, u, allow);
  }

  lemma LexFrame(buf: seq<Byte>, pos: nat)
    requires pos + 9 <= |buf| && buf[pos] == 0x95
    ensures Lex(buf, pos) == Ok((Skip, pos + 9))
  {
    hide Bare, KnownUnsupported, TakeText, TwosComplement, BigEndian, LongFromLe, LittleEndian;
  }

  lemma ReadsSkip(buf: seq<Byte>, s: State, next: nat, allow: Allowlist) returns (t: State)
    requires Ready(s) && s.pos <= next && s.pos <= |buf| && Lex(buf, s.pos) == Ok((Skip, next))
    ensures t == s.(pos := next) && Arrives(buf, s, t, next - s.pos, 0, allow)
  {
    hide Lex, Inv, Run;
    t := s.(pos := next);
    CursorMoves(s, next);
    OneStep(buf, s, Skip, t, allow);
  }

  ghost function Marked(s: State, marked: bool): State {
    if marked then s.(marks := s.marks + [|s.stack|]) else s
  }

  lemma ReadsOpening(buf: seq<Byte>, s: State, marked: bool, allow: Allowlist) returns (t: State)
    requires Ready(s) && At(buf, s.pos, Opening(marked))
    ensures t == Marked(s, marked).(pos := t.pos) && Ready(t) && MemoOf(t) == MemoOf(s)
    ensures Arrives(buf, s, t, |Opening(marked)|, 0, allow)
  {
    hide Lex, Run, LiveEntries, MemoSorted;
    t := s;
    if marked {
      LexByte(buf, s.pos, 0x28);
      t := s.(pos := s.pos + 1, marks := s.marks + [|s.stack|]);
      OneStep(buf, s, PushMark, t, allow);
    }
  }

  lemma ArrivesChain(buf: seq<Byte>, s: State, t: State, u: State, m: nat, n: nat, j: nat, k: nat, allow: Allowlist)
    requires Arrives(buf, s, t, m, j, allow) && Arrives(buf, t, u, n, k, allow)
    ensures Arrives(buf, s, u, m + n, j + k, allow)
  {
  }

  /** The instruction behind the last byte of something built. */
  function Building(how: How): Build {
    match how
    case TupleOf | MarkedTuple => MakeTuple
    case ClassOf => MakeGlobal
    case _ => MakeInstance
  }

  lemma BuiltInstruction(how: How, vs: seq<PyObj>, allow: Allowlist) returns (name: string)
    requires BuiltOf(how, vs, allow).Some? && !(how.TupleOf? && vs == [])
    ensures Bare(BuiltByte(how, |vs|))
         == Some(Combine(if how.MarkedTuple? then ToMark else Top(|vs|), Building(how), name))
  {
    name := Bare(BuiltByte(how, |vs|)).value.name;
  }

  lemma ConstructsBuilt(w: State, how: How, vs: seq<PyObj>, at: nat, name: string, allow: Allowlist)
    requires Inv(w) && BuiltOf(how, vs, allow).Some?
    requires Building(how).MakeTuple? || |vs| == 2
    ensures Construct(w, Building(how), vs, at, name, allow) == Pushed(w, BuiltOf(how, vs, allow).value)
  {
    hide Inv, Pushed;
  }

  lemma ReadsBuilding(buf: seq<Byte>, s: State, u: State, how: How, vs: seq<PyObj>, allow: Allowlist)
    returns (t: State)
    requires Ready(s) && Above(Marked(s, how.MarkedTuple?), u, vs) && At(buf, u.pos, [BuiltByte(how, |vs|)])
    requires BuiltOf(how, vs, allow).Some? && !(how.TupleOf? && vs == [])
    requires |s.stack| < MAX_STACK && u.objects < MAX_OBJECTS
    ensures Arrives(buf, u, t, 1, 1, allow)
    ensures Reached(s, t, Meant(BuiltOf(how, vs, allow).value, MemoOf(u), {}))
  {
    hide Lex, Bare, Run, Inv, Construct, Pushed, Grabbed, BuiltByte, GrabHeight, Shrink, MarksAfter;
    var v, marked := BuiltOf(how, vs, allow).value, how.MarkedTuple?;
    var name := BuiltInstruction(how, vs, allow);
    var grab := if marked then ToMark else Top(|vs|);
    var instr := Combine(grab, Building(how), name);
    LexByte(buf, u.pos, BuiltByte(how, |vs|));
    var moved := u.(pos := u.pos + 1);
    CursorAbove(Marked(s, marked), u.pos + 1, u, vs);
    TakenBack(s, moved, vs, marked, name);
    var w := Grabbed(moved, grab, name).value.0;
    BuiltReaches(s, moved, w, v);
    ConstructsBuilt(w, how, vs, u.pos, name, allow);
    t := Pushed(w, v).s;
    assert Execute(moved, instr, u.pos, None, allow) == Next(t);
    OneStep(buf, u, instr, t, allow);
  }

  lemma AddedInstruction(kind: Kind, marked: bool, count: nat) returns (name: string)
    requires marked || (!kind.KSet? && count == (if kind.KDict? then 2 else 1))
    ensures Bare(AddedByte(kind, marked)) == Some(Combine(if marked then ToMark else Top(count), AddTo(kind), name))
  {
    name := Bare(AddedByte(kind, marked)).value.name;
  }

  lemma ReadsAdding(buf: seq<Byte>, s: State, b: State, m: Meant, u: State, kind: Kind, vs: seq<PyObj>, marked: bool,
                    allow: Allowlist)
    returns (t: State)
    requires Reached(s, b, m) && Above(Marked(b, marked), u, vs) && At(buf, u.pos, [AddedByte(kind, marked)])
    requires AddedTo(m.value, kind, vs, marked).Some?
    ensures Arrives(buf, u, t, 1, 0, allow)
    ensures var x := AddedTo(m.value, kind, vs, marked).value;
            Reached(s, t, Meant(x, Refreshed(MemoOf(u), m.held, x), m.held))
  {
    hide Lex, Bare, Run, Inv, AddItems, AddedTo, Grabbed, AddedByte, GrabHeight, Shrink, MarksAfter, Refreshed;
    AddedExtends(m.value, kind, vs, marked);
    var name := AddedInstruction(kind, marked, |vs|);
    var grab := if marked then ToMark else Top(|vs|);
    var instr := Combine(grab, AddTo(kind), name);
    LexByte(buf, u.pos, AddedByte(kind, marked));
    var moved := u.(pos := u.pos + 1);
    CursorAbove(Marked(b, marked), u.pos + 1, u, vs);
    TakenBack(b, moved, vs, marked, name);
    var w := Grabbed(moved, grab, name).value.0;
    AddedReaches(s, b, m, moved, w, kind, vs, marked, u.pos, name);
    t := AddItems(w, kind, vs, u.pos, name).s;
    assert Execute(moved, instr, u.pos, None, allow) == Next(t);
    OneStep(buf, u, instr, t, allow);
  }

  // The induction over codes.

  ghost predicate Readable(buf: seq<Byte>, s: State, c: Code, allow: Allowlist) {
    && Ready(s) && At(buf, s.pos, Write(c)) && Denoted(c, MemoOf(s), allow).Some?
    && Room(s, Height(c), Cost(c))
  }

  ghost predicate AllReadable(buf: seq<Byte>, s: State, cs: seq<Code>, allow: Allowlist) {
    && Ready(s) && At(buf, s.pos, WriteAll(cs)) && DenotedAll(cs, MemoOf(s), allow).Some?
    && Room(s, HeightAll(cs), CostAll(cs))
  }

  /** The reader, anywhere, reads a code and has its value on top. */
  lemma {:induction false} ReadsCode(buf: seq<Byte>, s: State, c: Code, allow: Allowlist) returns (t: State)
    requires Readable(buf, s, c, allow)
    ensures Arrives(buf, s, t, |Write(c)|, Cost(c), allow) && Reached(s, t, Denoted(c, MemoOf(s), allow).value)
    decreases c, 2
  {
    hide Arrives, Reached, Inv, At, Run;
    match c
    case Built(_, _) => t := ReadsBuilt(buf, s, c, allow);
    case Added(_, _, _, _) => t := ReadsAdded(buf, s, c, allow);
    case Kept(_) => t := ReadsKept(buf, s, c, allow);
    case Framed(_, _) => t := ReadsFramed(buf, s, c, allow);
    case Again(_, _) => t := ReadsAgain(buf, s, c, allow);
    case _ => t := ReadsLeaf(buf, s, c, allow);
  }

  lemma {:induction false} ReadsKept(buf: seq<Byte>, s: State, c: Code, allow: Allowlist) returns (t: State)
    requires c.Kept? && Readable(buf, s, c, allow)
    ensures Arrives(buf, s, t, |Write(c)|, Cost(c), allow) && Reached(s, t, Denoted(c, MemoOf(s), allow).value)
    decreases c, 1
  {
    hide Inv, At, Run, Reached;
    AtSplit(buf, s.pos, Write(c.c), [0x94]);
    var b := ReadsCode(buf, s, c.c, allow);
    t := ReadsKeep(buf, s, b, Denoted(c.c, MemoOf(s), allow).value, allow);
    ArrivesChain(buf, s, b, t, |Write(c.c)|, 1, Cost(c.c), 0, allow);
  }

  lemma {:induction false} ReadsFramed(buf: seq<Byte>, s: State, c: Code, allow: Allowlist) returns (t: State)
    requires c.Framed? && Readable(buf, s, c, allow)
    ensures Arrives(buf, s, t, |Write(c)|, Cost(c), allow) && Reached(s, t, Denoted(c, MemoOf(s), allow).value)
    decreases c, 1
  {
    hide Inv, At, Run, Reached, Lex;
    AtFrame(buf, s.pos, c.size, Write(c.c));
    var b := ReadsSkip(buf, s, s.pos + 9, allow);
    CursorMoves(s, s.pos + 9);
    t := ReadsCode(buf, b, c.c, allow);
    CursorReached(s, s.pos + 9, t, Denoted(c, MemoOf(s), allow).value);
    ArrivesChain(buf, s, b, t, 9, |Write(c.c)|, 0, Cost(c.c), allow);
  }

  lemma AtFrame(buf: seq<Byte>, pos: nat, size: nat, w: seq<Byte>)
    requires At(buf, pos, [0x95] + LowFirst(size, 8) + w)
    ensures pos + 9 <= |buf| && At(buf, pos + 9, w) && Lex(buf, pos) == Ok((Skip, pos + 9))
  {
    hide Lex;
    AtSplit(buf, pos, [0x95] + LowFirst(size, 8), w);
    AtOpcode(buf, pos, 0x95, LowFirst(size, 8));
    LexFrame(buf, pos);
  }

  lemma {:induction false} ReadsAll(buf: seq<Byte>, s: State, cs: seq<Code>, allow: Allowlist) returns (t: State)
    requires AllReadable(buf, s, cs, allow)
    ensures Arrives(buf, s, t, |WriteAll(cs)|, CostAll(cs), allow)
    ensures Above(s, t, DenotedAll(cs, MemoOf(s), allow).value.0)
    ensures MemoOf(t) == DenotedAll(cs, MemoOf(s), allow).value.1
    decreases cs, 3
  {
    hide Inv, Run;
    if cs == [] {
      t := s;
      assert s.stack + [] == s.stack && s.memo[..|s.memo|] == s.memo;
    } else {
      var m := Denoted(cs[0], MemoOf(s), allow).value;
      AtSplit(buf, s.pos, Write(cs[0]), WriteAll(cs[1..]));
      var b := ReadsCode(buf, s, cs[0], allow);
      t := ReadsAll(buf, b, cs[1..], allow);
      AboveChain(s, b, t, [m.value], DenotedAll(cs[1..], m.memo, allow).value.0);
      ArrivesChain(buf, s, b, t, |Write(cs[0])|, |WriteAll(cs[1..])|, Cost(cs[0]), CostAll(cs[1..]), allow);
    }
  }

  /** A mark if there is one, then the parts. */
  lemma {:induction false} ReadsParts(buf: seq<Byte>, s: State, marked: bool, cs: seq<Code>, allow: Allowlist)
    returns (t: State)
    requires Ready(s) && At(buf, s.pos, Opening(marked) + WriteAll(cs))
    requires DenotedAll(cs, MemoOf(s), allow).Some? && Room(s, HeightAll(cs), CostAll(cs))
    ensures Arrives(buf, s, t, |Opening(marked) + WriteAll(cs)|, CostAll(cs), allow)
    ensures Above(Marked(s, marked), t, DenotedAll(cs, MemoOf(s), allow).value.0)
    ensures MemoOf(t) == DenotedAll(cs, MemoOf(s), allow).value.1
    decreases cs, 4
  {
    hide Inv, At, Run;
    AtSplit(buf, s.pos, Opening(marked), WriteAll(cs));
    var b := ReadsOpening(buf, s, marked, allow);
    t := ReadsAll(buf, b, cs, allow);
    ArrivesChain(buf, s, b, t, |Opening(marked)|, |WriteAll(cs)|, 0, CostAll(cs), allow);
    assert Above(b, t, DenotedAll(cs, MemoOf(s), allow).value.0);
    if marked {
      MarksReady(s);
    }
  }

  lemma MarksReady(s: State)
    requires Ready(s)
    ensures Ready(Marked(s, true))
  {
  }

  lemma {:induction false} CountDenoted(cs: seq<Code>, memo: seq<PyObj>, allow: Allowlist)
    requires DenotedAll(cs, memo, allow).Some?
    ensures |DenotedAll(cs, memo, allow).value.0| == |cs|
  {
    if cs != [] {
      CountDenoted(cs[1..], Denoted(cs[0], memo, allow).value.memo, allow);
    }
  }

  lemma BuiltUnfolds(c: Code, memo: seq<PyObj>, allow: Allowlist)
    requires c.Built? && Denoted(c, memo, allow).Some?
    ensures DenotedAll(c.parts, memo, allow).Some?
    ensures var (vs, m) := DenotedAll(c.parts, memo, allow).value;
            && BuiltOf(c.how, vs, allow).Some?
            && Denoted(c, memo, allow) == Some(Meant(BuiltOf(c.how, vs, allow).value, m, {}))
  {
    hide BuiltOf;
    assert Denoted(c, memo, allow) == DenotedBuilt(c, memo, allow);
  }

  lemma AddedUnfolds(c: Code, memo: seq<PyObj>, allow: Allowlist)
    requires c.Added? && Denoted(c, memo, allow).Some?
    ensures Denoted(c.base, memo, allow).Some?
    ensures var m := Denoted(c.base, memo, allow).value;
            && DenotedAll(c.parts, m.memo, allow).Some?
            && var (vs, n) := DenotedAll(c.parts, m.memo, allow).value;
               && AddedTo(m.value, c.kind, vs, c.marked).Some?
               && var x := AddedTo(m.value, c.kind, vs, c.marked).value;
                  Denoted(c, memo, allow) == Some(Meant(x, Refreshed(n, m.held, x), m.held))
  {
    hide AddedTo, Refreshed;
    assert Denoted(c, memo, allow) == DenotedAdded(c, memo, allow);
  }

  lemma {:induction false} ReadsBuilt(buf: seq<Byte>, s: State, c: Code, allow: Allowlist) returns (t: State)
    requires c.Built? && Readable(buf, s, c, allow)
    ensures Arrives(buf, s, t, |Write(c)|, Cost(c), allow) && Reached(s, t, Denoted(c, MemoOf(s), allow).value)
    decreases c, 1
  {
    hide Inv, At, Run, Reached, BuiltByte, BuiltOf, Above, Denoted;
    BuiltUnfolds(c, MemoOf(s), allow);
    var (vs, m) := DenotedAll(c.parts, MemoOf(s), allow).value;
    CountDenoted(c.parts, MemoOf(s), allow);
    var marked, last := c.how.MarkedTuple?, BuiltByte(c.how, |c.parts|);
    AtSplit(buf, s.pos, Opening(marked) + WriteAll(c.parts), [last]);
    if c.how.TupleOf? && vs == [] {
      t := ReadsEmptyTuple(buf, s, c, allow);
    } else {
      var u := ReadsParts(buf, s, marked, c.parts, allow);
      t := ReadsBuilding(buf, s, u, c.how, vs, allow);
      ArrivesChain(buf, s, u, t, |Opening(marked) + WriteAll(c.parts)|, 1, CostAll(c.parts), 1, allow);
    }
  }

  lemma ReadsEmptyTuple(buf: seq<Byte>, s: State, c: Code, allow: Allowlist) returns (t: State)
    requires c.Built? && c.how.TupleOf? && c.parts == [] && Readable(buf, s, c, allow)
    ensures Arrives(buf, s, t, |Write(c)|, Cost(c), allow) && Reached(s, t, Denoted(c, MemoOf(s), allow).value)
  {
    hide Lex, Inv, Run, Arrives, Reached;
    assert Write(c) == [0x29];
    LexByte(buf, s.pos, 0x29);
    t := ReadsPush(buf, s, Tuple([]), s.pos + 1, allow);
  }

  lemma {:induction false} ReadsAdded(buf: seq<Byte>, s: State, c: Code, allow: Allowlist) returns (t: State)
    requires c.Added? && Readable(buf, s, c, allow)
    ensures Arrives(buf, s, t, |Write(c)|, Cost(c), allow) && Reached(s, t, Denoted(c, MemoOf(s), allow).value)
    decreases c, 1
  {
    hide Inv, At, Run, AddedByte, AddedTo, Above, Refreshed, Denoted;
    AddedUnfolds(c, MemoOf(s), allow);
    var m := Denoted(c.base, MemoOf(s), allow).value;
    var (vs, _) := DenotedAll(c.parts, m.memo, allow).value;
    var inner, last := Opening(c.marked) + WriteAll(c.parts), AddedByte(c.kind, c.marked);
    AtSplit(buf, s.pos, Write(c.base), inner + [last]);
    var b := ReadsCode(buf, s, c.base, allow);
    AtSplit(buf, b.pos, inner, [last]);
    GrownByOne(s, b, m);
    var u := ReadsParts(buf, b, c.marked, c.parts, allow);
    t := ReadsAdding(buf, s, b, m, u, c.kind, vs, c.marked, allow);
    ArrivesChain(buf, s, b, u, |Write(c.base)|, |inner|, Cost(c.base), CostAll(c.parts), allow);
    ArrivesChain(buf, s, u, t, |Write(c.base)| + |inner|, 1, Cost(c.base) + CostAll(c.parts), 0, allow);
  }

  lemma GrownByOne(s: State, t: State, m: Meant)
    requires Reached(s, t, m)
    ensures Ready(t) && |t.stack| == |s.stack| + 1 && MemoOf(t) == m.memo
  {
  }
}
