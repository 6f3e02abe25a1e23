/** Round trips through the reader: any code, and an encoder for every value the reader can hold. */
module PickleEncoding {
  import opened Common
  import opened Numerals
  import opened PyObjects
  import opened BigInts
  import opened PickleStream
  import opened PickleReader
  import opened PickleDecoding
  import opened PickleWriting
  import opened PickleWritten
  import opened CanonicalReading
  import opened CanonicalDecoding

  /** A whole file: the protocol, one value, the end, and whatever follows. */
  ghost function File(protocol: Byte, c: Code, rest: seq<Byte>): seq<Byte> {
    [0x80, protocol] + (Write(c) + ([0x2E] + rest))
  }

  lemma LexProtocol(buf: seq<Byte>, pos: nat)
    requires pos + 2 <= |buf| && buf[pos] == 0x80
    ensures Lex(buf, pos) == if 2 <= buf[pos + 1] <= 5 then Ok((Skip, pos + 2))
                             else Err(UnsupportedProtocol(pos, buf[pos + 1]))
  {
    hide Bare, KnownUnsupported, TakeText, TwosComplement, BigEndian, LongFromLe, LittleEndian;
  }

  /** The stop with one value left ends the run with it. */
  lemma StopEnds(buf: seq<Byte>, s: State, v: PyObj, allow: Allowlist)
    requires Inv(s) && At(buf, s.pos, [0x2E]) && s.stack == [v]
    ensures Run(buf, s, None, allow) == Ok(v)
  {
    hide Lex, Inv;
    LexByte(buf, s.pos, 0x2E);
  }

  lemma StartReady()
    ensures Ready(START) && MemoOf(START) == []
  {
    StartIsValid();
  }

  lemma HeaderSkipped(protocol: Byte, c: Code, rest: seq<Byte>, allow: Allowlist) returns (s: State)
    requires 2 <= protocol <= 5
    ensures s == START.(pos := 2) && Ready(s) && MemoOf(s) == []
    ensures Arrives(File(protocol, c, rest), START, s, 2, 0, allow)
    ensures At(File(protocol, c, rest), 2, Write(c))
    ensures At(File(protocol, c, rest), 2 + |Write(c)|, [0x2E])
  {
    hide Lex, Inv, Run;
    var buf := File(protocol, c, rest);
    LexProtocol(buf, 0);
    StartReady();
    s := ReadsSkip(buf, START, 2, allow);
    CursorMoves(START, 2);
    assert At(buf, 2, Write(c) + ([0x2E] + rest));
    AtSplit(buf, 2, Write(c), [0x2E] + rest);
    AtSplit(buf, 2 + |Write(c)|, [0x2E], rest);
  }

  /** However a value is written, within the limits it is read back, and bytes after the end are never looked at. */
  lemma WrittenReadsBack(protocol: Byte, c: Code, rest: seq<Byte>, allow: Allowlist)
    requires 2 <= protocol <= 5 && Denoted(c, [], allow).Some?
    requires Height(c) <= 1_048_576 && Cost(c) <= 4_000_000
    ensures Decode(File(protocol, c, rest), allow) == Ok(Denoted(c, [], allow).value.value)
  {
    hide Lex, Inv, Run, At, File;
    var buf, m := File(protocol, c, rest), Denoted(c, [], allow).value;
    PrescanChangesNothing(buf, allow);
    var s := HeaderSkipped(protocol, c, rest, allow);
    var t := ReadsCode(buf, s, c, allow);
    assert t.stack == [m.value] by {
      assert [] + [m.value] == [m.value];
    }
    StopEnds(buf, t, m.value, allow);
  }

  /** Other protocols are refused at once. */
  lemma OtherProtocolsRefused(protocol: Byte, c: Code, rest: seq<Byte>, allow: Allowlist)
    requires protocol < 2 || protocol > 5
    ensures Decode(File(protocol, c, rest), allow) == Err(UnsupportedProtocol(0, protocol))
  {
    hide Lex, Inv;
    var buf := File(protocol, c, rest);
    PrescanChangesNothing(buf, allow);
    StartIsValid();
    LexProtocol(buf, 0);
  }

  /** The bytes that begin an instruction the reader carries out. */
  const READABLE: seq<Byte> := [
    0x28, 0x29, 0x2E, 0x47, 0x4A, 0x4B, 0x4D, 0x4E, 0x52, 0x58, 0x5D, 0x61, 0x65, 0x68, 0x6A, 0x73, 0x74, 0x75, 0x7D,
    0x80, 0x81, 0x85, 0x86, 0x87, 0x88, 0x89, 0x8A, 0x8C, 0x8F, 0x90, 0x93, 0x94, 0x95]

  predicate NotAnInstruction(e: Error) {
    e.UnsupportedOpcode? || e.UnknownOpcode?
  }

  predicate HasPayload(opcode: Byte) {
    opcode in [0x80, 0x95, 0x4A, 0x4B, 0x4D, 0x8A, 0x47, 0x8C, 0x58, 0x68, 0x6A]
  }

  lemma ReadableOpcodes(opcode: Byte)
    ensures opcode in READABLE <==> HasPayload(opcode) || Bare(opcode).Some?
  {
  }

  lemma LexOther(buf: seq<Byte>, at: nat)
    requires at < |buf| && !HasPayload(buf[at])
    ensures Lex(buf, at)
         == match Bare(buf[at])
            case Some(instr) => Ok((instr, at + 1))
            case None => Err(if KnownUnsupported(buf[at]) then UnsupportedOpcode(at, buf[at])
                             else UnknownOpcode(at, buf[at]))
  {
    hide Bare, KnownUnsupported, TwosComplement, BigEndian, LongFromLe, LittleEndian, TakeText;
  }

  lemma LexPayload(buf: seq<Byte>, at: nat)
    requires at < |buf| && HasPayload(buf[at])
    ensures Lex(buf, at).Err? ==> !NotAnInstruction(Lex(buf, at).error)
  {
    hide Bare, KnownUnsupported, TwosComplement, BigEndian, LongFromLe, LittleEndian, ValidUtf8;
  }

  lemma LexRefusals(buf: seq<Byte>, at: nat)
    requires at < |buf|
    ensures buf[at] !in READABLE ==>
              Lex(buf, at) == Err(UnsupportedOpcode(at, buf[at])) || Lex(buf, at) == Err(UnknownOpcode(at, buf[at]))
    ensures buf[at] in READABLE && Lex(buf, at).Err? ==> !NotAnInstruction(Lex(buf, at).error)
  {
    hide Lex, Bare, READABLE, HasPayload;
    ReadableOpcodes(buf[at]);
    if HasPayload(buf[at]) {
      LexPayload(buf, at);
    } else {
      LexOther(buf, at);
    }
  }

  lemma MovedInv(s: State, next: nat)
    requires Inv(s)
    ensures Inv(s.(pos := next))
  {
  }

  lemma ExecuteRefusals(s: State, instr: Instr, at: nat, allow: Allowlist)
    requires Inv(s) && WellShaped(instr)
    ensures Execute(s, instr, at, None, allow).Fail? ==> !NotAnInstruction(Execute(s, instr, at, None, allow).error)
  {
    hide Inv;
  }

  /** A byte that is refused stands where the run has come to. */
  lemma {:induction false} RefusedFurtherOn(buf: seq<Byte>, s: State, allow: Allowlist)
    requires Inv(s) && s.pos <= |buf| && Run(buf, s, None, allow).Err?
    ensures var e := Run(buf, s, None, allow).error; NotAnInstruction(e) ==> e.offset >= s.pos
    decreases |buf| - s.pos
  {
    hide Lex, Execute, Inv, READABLE;
    if s.pos < |buf| {
      LexRefusals(buf, s.pos);
    } else {
      EndOfInput(buf, s.pos);
    }
    if Lex(buf, s.pos).Ok? {
      var (instr, next) := Lex(buf, s.pos).value;
      MovedInv(s, next);
      ExecuteRefusals(s.(pos := next), instr, s.pos, allow);
      match Execute(s.(pos := next), instr, s.pos, None, allow)
      case Next(t) => RefusedFurtherOn(buf, t, allow);
      case _ =>
    }
  }

  lemma EndOfInput(buf: seq<Byte>, at: nat)
    requires at == |buf|
    ensures Lex(buf, at) == Err(Truncated(at, 1, 0))
  {
  }

  /** The first byte is refused for what it is exactly when it begins no instruction. */
  lemma OtherOpcodesRefused(opcode: Byte, rest: seq<Byte>, allow: Allowlist)
    ensures var r := Decode([opcode] + rest, allow);
            opcode !in READABLE <==> r == Err(UnsupportedOpcode(0, opcode)) || r == Err(UnknownOpcode(0, opcode))
  {
    hide Inv, Execute, Lex, READABLE;
    var buf := [opcode] + rest;
    PrescanChangesNothing(buf, allow);
    StartIsValid();
    LexRefusals(buf, 0);
    if Lex(buf, 0).Ok? {
      var (instr, next) := Lex(buf, 0).value;
      MovedInv(START, next);
      ExecuteRefusals(START.(pos := next), instr, 0, allow);
      match Execute(START.(pos := next), instr, 0, None, allow)
      case Next(t) =>
        if Run(buf, t, None, allow).Err? {
          RefusedFurtherOn(buf, t, allow);
        }
      case _ =>
    }
  }

  // An encoder.

  ghost function TextCode(text: seq<Byte>): Code {
    Text(text, |text| < 0x100)
  }

  ghost function NumberCode(n: int): Code {
    Number(n, if 0 <= n < 0x100 then OneByte
              else if 0 <= n < 0x1_0000 then TwoBytes
              else if -0x8000_0000 <= n < 0x8000_0000 then FourBytes
              else if -0x8000_0000_0000_0000 <= n < 0x8000_0000_0000_0000 then Long(8)
              else Long(255))
  }

  ghost function NameCode(c: ClassId): Code {
    Built(ClassOf, [TextCode(c.moduleName), TextCode(c.name)])
  }

  ghost function TupleCode(parts: seq<Code>): Code {
    Built(if |parts| <= 3 then TupleOf else MarkedTuple, parts)
  }

  ghost function CodeOf(v: PyObj): Code
    decreases v, 0
  {
    match v
    case NoneObj => NoneCode
    case Bool(b) => Flag(b)
    case Int(n) => NumberCode(n)
    case Big(b) => NumberCode(BigValue(b))
    case Float(bits) => Real(bits)
    case Str(text) => TextCode(text)
    case List(items) => Added(Empty(KList), KList, CodesOf(items), true)
    case Set(items) => Added(Empty(KSet), KSet, CodesOf(items), true)
    case Dict(pairs) => Added(Empty(KDict), KDict, PairCodes(pairs), true)
    case Tuple(items) => TupleCode(CodesOf(items))
    case Global(c) => NameCode(c)
    case Instance(c, items) => Built(Reduced, [NameCode(c), TupleCode(CodesOf(items))])
  }

  ghost function CodesOf(vs: seq<PyObj>): (cs: seq<Code>)
    ensures |cs| == |vs|
    decreases vs, 0
  {
    if vs == [] then [] else [CodeOf(vs[0])] + CodesOf(vs[1..])
  }

  ghost function PairCodes(pairs: seq<(PyObj, PyObj)>): seq<Code>
    decreases pairs, 0
  {
    if pairs == [] then []
    else
      var (key, value) := pairs[0];
      assert key < pairs[0] && value < pairs[0];
      [CodeOf(key), CodeOf(value)] + PairCodes(pairs[1..])
  }

  ghost function Encode(v: PyObj): seq<Byte> {
    Write(CodeOf(v))
  }

  predicate TextFits(text: seq<Byte>) {
    ValidUtf8(text) && |text| < 0x1_0000_0000
  }

  /** The value fits the format: text lengths in four bytes, wide integers in 255. */
  ghost predicate Fits(v: PyObj)
    decreases v
  {
    && (match v
        case Big(b) => 0 - Power(256, 255) <= 2 * BigValue(b) < Power(256, 255)
        case Str(text) => |text| < 0x1_0000_0000
        case Global(c) => TextFits(c.moduleName) && TextFits(c.name)
        case Instance(c, _) => TextFits(c.moduleName) && TextFits(c.name)
        case _ => true)
    && forall k | 0 <= k < |Kids(v)| :: Fits(Kids(v)[k])
  }

  ghost predicate AllGood(vs: seq<PyObj>, allow: Allowlist) {
    forall k | 0 <= k < |vs| :: Fine(vs[k], allow) && Fits(vs[k])
  }

  lemma TextMeans(text: seq<Byte>, memo: seq<PyObj>, allow: Allowlist)
    requires TextFits(text)
    ensures Denoted(TextCode(text), memo, allow) == Some(Meant(Str(text), memo, {}))
  {
    hide ValidUtf8;
  }

  lemma NumberMeans(n: int, memo: seq<PyObj>, allow: Allowlist)
    requires 0 - Power(256, 255) <= 2 * n < Power(256, 255)
    ensures Denoted(NumberCode(n), memo, allow) == Some(Meant(IntegerOf(n), memo, {}))
  {
    hide Power, PowerOf256, BigOf;
    SmallPowers();
    assert PowerOf256(8) == Power(256, 8) && PowerOf256(255) == Power(256, 255);
  }

  lemma WordInWide(n: int)
    requires FitsI64(n)
    ensures 0 - Power(256, 255) <= 2 * n < Power(256, 255)
  {
    SmallPowers();
    PowerAdd(256, 8, 247);
    PowerPositive(256, 247);
    MulMonotone(Power(256, 8), 1, Power(256, 247));
  }

  lemma PairMeans(a: Code, b: Code, v: PyObj, w: PyObj, memo: seq<PyObj>, allow: Allowlist)
    requires Denoted(a, memo, allow) == Some(Meant(v, memo, {}))
    requires Denoted(b, memo, allow) == Some(Meant(w, memo, {}))
    ensures DenotedAll([a, b], memo, allow) == Some(([v, w], memo))
  {
    assert [a, b][1..] == [b] && [b][1..] == [];
    assert DenotedAll([], memo, allow) == Some(([], memo));
    assert DenotedAll([b], memo, allow) == Some(([w] + [], memo));
    assert [w] + [] == [w] && [v] + [w] == [v, w];
  }

  lemma NameMeans(c: ClassId, memo: seq<PyObj>, allow: Allowlist)
    requires TextFits(c.moduleName) && TextFits(c.name) && Permits(allow, c)
    ensures Denoted(NameCode(c), memo, allow) == Some(Meant(Global(c), memo, {}))
  {
    hide TextFits, TextCode;
    TextMeans(c.moduleName, memo, allow);
    TextMeans(c.name, memo, allow);
    PairMeans(TextCode(c.moduleName), TextCode(c.name), Str(c.moduleName), Str(c.name), memo, allow);
    BuiltMeans(NameCode(c), [Str(c.moduleName), Str(c.name)], memo, allow);
  }

  lemma BuiltMeans(c: Code, vs: seq<PyObj>, memo: seq<PyObj>, allow: Allowlist)
    requires c.Built? && DenotedAll(c.parts, memo, allow) == Some((vs, memo)) && BuiltOf(c.how, vs, allow).Some?
    ensures Denoted(c, memo, allow) == Some(Meant(BuiltOf(c.how, vs, allow).value, memo, {}))
  {
    hide BuiltOf;
    assert Denoted(c, memo, allow) == DenotedBuilt(c, memo, allow);
  }

  lemma FilledMeans(kind: Kind, parts: seq<Code>, vs: seq<PyObj>, memo: seq<PyObj>, allow: Allowlist)
    requires DenotedAll(parts, memo, allow) == Some((vs, memo)) && AddedTo(EmptyOf(kind), kind, vs, true).Some?
    ensures Denoted(Added(Empty(kind), kind, parts, true), memo, allow)
         == Some(Meant(AddedTo(EmptyOf(kind), kind, vs, true).value, memo, {}))
  {
    hide AddedTo;
    var c := Added(Empty(kind), kind, parts, true);
    assert Denoted(c, memo, allow) == DenotedAdded(c, memo, allow);
    assert Denoted(Empty(kind), memo, allow) == Some(Meant(EmptyOf(kind), memo, {}));
    var x := AddedTo(EmptyOf(kind), kind, vs, true).value;
    assert Refreshed(memo, {}, x) == memo;
  }

  lemma TupleMeans(parts: seq<Code>, vs: seq<PyObj>, memo: seq<PyObj>, allow: Allowlist)
    requires |parts| == |vs| && DenotedAll(parts, memo, allow) == Some((vs, memo))
    ensures Denoted(TupleCode(parts), memo, allow) == Some(Meant(Tuple(vs), memo, {}))
  {
    BuiltMeans(TupleCode(parts), vs, memo, allow);
  }

  /** Every permitted value is what its code means, and the memo is left alone. */
  lemma {:induction false} CodeMeans(v: PyObj, memo: seq<PyObj>, allow: Allowlist)
    requires Fine(v, allow) && Fits(v)
    ensures Denoted(CodeOf(v), memo, allow) == Some(Meant(v, memo, {}))
    decreases v, 1
  {
    hide Denoted, DenotedAll, Write, Power, ValidUtf8, Permits, BigOf, NumberCode, TextCode, NameCode;
    match v
    case List(items) =>
      KidsGood(v, allow);
      ItemsMean(items, memo, allow);
      FilledMeans(KList, CodesOf(items), items, memo, allow);
      assert [] + items == items;
    case Set(items) =>
      KidsGood(v, allow);
      ItemsMean(items, memo, allow);
      FilledMeans(KSet, CodesOf(items), items, memo, allow);
      assert [] + items == items;
    case Tuple(items) =>
      KidsGood(v, allow);
      ItemsMean(items, memo, allow);
      TupleMeans(CodesOf(items), items, memo, allow);
    case Dict(_) => DictMeans(v, memo, allow);
    case Instance(_, _) => InstanceMeans(v, memo, allow);
    case _ => LeafMeans(v, memo, allow);
  }

  lemma LeafMeans(v: PyObj, memo: seq<PyObj>, allow: Allowlist)
    requires Fine(v, allow) && Fits(v) && Kids(v) == [] && !IsContainer(v) && !v.Tuple? && !v.Instance?
    ensures Denoted(CodeOf(v), memo, allow) == Some(Meant(v, memo, {}))
  {
    hide Power, ValidUtf8, Permits, BigOf, NumberCode, TextCode, NameCode, Write;
    match v
    case Int(n) =>
      WordInWide(n);
      NumberMeans(n, memo, allow);
    case Big(b) =>
      NumberMeans(BigValue(b), memo, allow);
      BigUnique(b);
    case Str(text) => TextMeans(text, memo, allow);
    case Global(c) => NameMeans(c, memo, allow);
    case _ =>
  }

  lemma KidsGood(v: PyObj, allow: Allowlist)
    requires Fine(v, allow) && Fits(v)
    ensures AllGood(Kids(v), allow)
  {
  }

  lemma {:induction false} ItemsMean(vs: seq<PyObj>, memo: seq<PyObj>, allow: Allowlist)
    requires AllGood(vs, allow)
    ensures DenotedAll(CodesOf(vs), memo, allow) == Some((vs, memo))
    decreases vs, 2
  {
    hide Denoted, Write, Fine, Fits, CodeOf;
    if vs != [] {
      CodeMeans(vs[0], memo, allow);
      ItemsMean(vs[1..], memo, allow);
      assert CodesOf(vs)[1..] == CodesOf(vs[1..]);
      assert [vs[0]] + vs[1..] == vs;
    }
  }

  ghost predicate PairsGood(pairs: seq<(PyObj, PyObj)>, allow: Allowlist) {
    forall k | 0 <= k < |pairs| ::
      Fine(pairs[k].0, allow) && Fits(pairs[k].0) && Fine(pairs[k].1, allow) && Fits(pairs[k].1)
  }

  lemma TwoMore(a: Code, b: Code, cs: seq<Code>, v: PyObj, w: PyObj, vs: seq<PyObj>, memo: seq<PyObj>,
                allow: Allowlist)
    requires Denoted(a, memo, allow) == Some(Meant(v, memo, {}))
    requires Denoted(b, memo, allow) == Some(Meant(w, memo, {}))
    requires DenotedAll(cs, memo, allow) == Some((vs, memo))
    ensures DenotedAll([a, b] + cs, memo, allow) == Some(([v, w] + vs, memo))
  {
    hide Denoted;
    var all := [a, b] + cs;
    assert all[1..] == [b] + cs && ([b] + cs)[1..] == cs;
    assert DenotedAll([b] + cs, memo, allow) == Some(([w] + vs, memo));
    assert [v] + ([w] + vs) == [v, w] + vs;
  }

  lemma {:induction false} PairsMean(pairs: seq<(PyObj, PyObj)>, memo: seq<PyObj>, allow: Allowlist)
    requires PairsGood(pairs, allow)
    ensures DenotedAll(PairCodes(pairs), memo, allow) == Some((Kids(Dict(pairs)), memo))
    decreases pairs, 2
  {
    hide Denoted, DenotedAll, Write, Fine, Fits, CodeOf;
    if pairs == [] {
      NothingMeans(memo, allow);
      assert Kids(Dict(pairs)) == [];
    } else {
      var (k, w) := pairs[0];
      assert k < pairs[0] && w < pairs[0];
      CodeMeans(k, memo, allow);
      CodeMeans(w, memo, allow);
      PairsMean(pairs[1..], memo, allow);
      TwoMore(CodeOf(k), CodeOf(w), PairCodes(pairs[1..]), k, w, Kids(Dict(pairs[1..])), memo, allow);
      FirstPairKids(pairs);
    }
  }

  lemma NothingMeans(memo: seq<PyObj>, allow: Allowlist)
    ensures DenotedAll([], memo, allow) == Some(([], memo))
  {
  }

  lemma FirstPairKids(pairs: seq<(PyObj, PyObj)>)
    requires pairs != []
    ensures Kids(Dict(pairs)) == [pairs[0].0, pairs[0].1] + Kids(Dict(pairs[1..]))
  {
    var all, rest := Kids(Dict(pairs)), Kids(Dict(pairs[1..]));
    forall i | 0 <= i < |all| ensures all[i] == ([pairs[0].0, pairs[0].1] + rest)[i] {
      if i >= 2 {
        assert (i - 2) / 2 == i / 2 - 1 && (i - 2) % 2 == i % 2;
      }
    }
  }

  lemma PairsComeBack(pairs: seq<(PyObj, PyObj)>)
    ensures AddedTo(Dict([]), KDict, Kids(Dict(pairs)), true) == Some(Dict(pairs))
  {
    var x := AddedTo(Dict([]), KDict, Kids(Dict(pairs)), true);
    assert x.value.pairs == pairs;
  }

  lemma {:induction false} DictMeans(v: PyObj, memo: seq<PyObj>, allow: Allowlist)
    requires v.Dict? && Fine(v, allow) && Fits(v)
    ensures Denoted(CodeOf(v), memo, allow) == Some(Meant(v, memo, {}))
    decreases v, 0
  {
    hide Denoted, DenotedAll, Write, AddedTo;
    assert PairsGood(v.pairs, allow) by {
      KidsGood(v, allow);
      forall k | 0 <= k < |v.pairs|
        ensures v.pairs[k].0 == Kids(v)[2 * k] && v.pairs[k].1 == Kids(v)[2 * k + 1]
      {
      }
    }
    PairsMean(v.pairs, memo, allow);
    PairsComeBack(v.pairs);
    FilledMeans(KDict, PairCodes(v.pairs), Kids(Dict(v.pairs)), memo, allow);
  }

  lemma {:induction false} InstanceMeans(v: PyObj, memo: seq<PyObj>, allow: Allowlist)
    requires v.Instance? && Fine(v, allow) && Fits(v)
    ensures Denoted(CodeOf(v), memo, allow) == Some(Meant(v, memo, {}))
    decreases v, 0
  {
    hide Denoted, DenotedAll, Write, TextFits, TupleCode, NameCode;
    KidsGood(v, allow);
    ItemsMean(v.items, memo, allow);
    TupleMeans(CodesOf(v.items), v.items, memo, allow);
    NameMeans(v.class_, memo, allow);
    PairMeans(NameCode(v.class_), TupleCode(CodesOf(v.items)), Global(v.class_), Tuple(v.items), memo, allow);
    BuiltMeans(CodeOf(v), [Global(v.class_), Tuple(v.items)], memo, allow);
  }

  /** Every value the reader can hold comes back from its own encoding, whatever follows the end. */
  lemma EncodedReadsBack(v: PyObj, protocol: Byte, rest: seq<Byte>, allow: Allowlist)
    requires 2 <= protocol <= 5 && Fine(v, allow) && Fits(v)
    requires Height(CodeOf(v)) <= 1_048_576 && Cost(CodeOf(v)) <= 4_000_000
    ensures Decode([0x80, protocol] + (Encode(v) + ([0x2E] + rest)), allow) == Ok(v)
  {
    hide Denoted, Decode, Fine, Fits;
    CodeMeans(v, [], allow);
    WrittenReadsBack(protocol, CodeOf(v), rest, allow);
  }
}
