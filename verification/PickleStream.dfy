/**
 * The byte level of a pickle stream (`crates/pahoa-pickle/src/reader.rs`): which bytes one opcode takes, which
 * instruction they stand for, and the pre-scan for memo fetches.
 */
module PickleStream {
  import opened Common
  import opened Numerals
  import opened PyObjects
  import opened BigInts

  datatype Error =
    | Truncated(offset: nat, wanted: nat, available: nat)
    | UnsupportedOpcode(offset: nat, opcode: Byte)
    | UnknownOpcode(offset: nat, opcode: Byte)
    | UnsupportedProtocol(offset: nat, version: Byte)
    | StackUnderflow(offset: nat, name: string)
    | NoMark(offset: nat, name: string)
    | BadMemo(offset: nat, index: nat, len: nat)
    | BadUtf8(offset: nat)
    | TypeMismatch(offset: nat, name: string, expected: string, found: string)
    | ForbiddenClass(offset: nat, class_: ClassId)
    | OddSetItems(offset: nat)
    | UnbalancedStack(len: nat)
    | TooDeep(offset: nat)
    | TooManyObjects(offset: nat)

  /** Where an instruction takes its operands from: the top of the stack, or everything above the last mark. */
  datatype Grab = Top(n: nat) | ToMark

  /** What it makes of them. */
  datatype Build = MakeTuple | AddTo(kind: Kind) | MakeGlobal | MakeInstance

  /** The stack effect of one opcode with its payload already read. */
  datatype Instr =
    | Skip
    | Push(v: PyObj)
    | PushMark
    | Combine(grab: Grab, build: Build, name: string)
    | Memoize
    | Get(index: nat)
    | Stop

  function Take(buf: seq<Byte>, pos: nat, n: nat): (r: Result<seq<Byte>, Error>)
    requires pos <= |buf|
    ensures r.Ok? <==> pos + n <= |buf|
    ensures r.Ok? ==> |r.value| == n
  {
    if |buf| - pos < n then Err(Truncated(pos, n, |buf| - pos)) else Ok(buf[pos..pos + n])
  }

  predicate Within(b: Byte, lo: Byte, hi: Byte) {
    lo <= b <= hi
  }

  predicate Continuation(s: seq<Byte>, i: nat) {
    i < |s| && Within(s[i], 0x80, 0xBF)
  }

  /** Well-formed UTF-8: Table 3-7 of the Unicode Standard. */
  predicate ValidUtf8(s: seq<Byte>) {
    if s == [] then true
    else if s[0] < 0x80 then ValidUtf8(s[1..])
    else if Within(s[0], 0xC2, 0xDF) then Continuation(s, 1) && ValidUtf8(s[2..])
    else if Within(s[0], 0xE0, 0xEF) then
      && Continuation(s, 1) && Continuation(s, 2)
      && (s[0] == 0xE0 ==> s[1] >= 0xA0) && (s[0] == 0xED ==> s[1] <= 0x9F)
      && ValidUtf8(s[3..])
    else if Within(s[0], 0xF0, 0xF4) then
      && Continuation(s, 1) && Continuation(s, 2) && Continuation(s, 3)
      && (s[0] == 0xF0 ==> s[1] >= 0x90) && (s[0] == 0xF4 ==> s[1] <= 0x8F)
      && ValidUtf8(s[4..])
    else false
  }

  function TakeText(buf: seq<Byte>, pos: nat, n: nat): (r: Result<PyObj, Error>)
    requires pos <= |buf|
    ensures r.Ok? ==> pos + n <= |buf|
  {
    var bytes :- Take(buf, pos, n);
    if ValidUtf8(bytes) then Ok(Str(bytes)) else Err(BadUtf8(pos))
  }

  function BigEndian(bytes: seq<Byte>): nat {
    if bytes == [] then 0 else 256 * BigEndian(bytes[..|bytes| - 1]) + Last(bytes)
  }

  function LittleEndian(bytes: seq<Byte>): (n: nat) {
    assert InRange(256, bytes);
    ValueBound(256, bytes);
    ValueIn(256, bytes)
  }

  /** A class reference or a call always takes exactly two values, and a pushed value has nothing inside it yet. */
  predicate WellShaped(instr: Instr) {
    && (instr.Combine? && (instr.build.MakeGlobal? || instr.build.MakeInstance?) ==> instr.grab == Top(2))
    && (instr.Push? ==> !instr.v.Instance? && Kids(instr.v) == [])
  }

  type Lexed = Result<(Instr, nat), Error>

  /** An instruction without payload. */
  function Bare(opcode: Byte): (r: Option<Instr>)
    ensures r.Some? ==> WellShaped(r.value)
  {
    match opcode
    case 0x28 => Some(PushMark)                                          // MARK
    case 0x29 => Some(Push(Tuple([])))                                   // EMPTY_TUPLE
    case 0x2E => Some(Stop)                                              // STOP
    case 0x4E => Some(Push(NoneObj))                                     // NONE
    case 0x52 => Some(Combine(Top(2), MakeInstance, "REDUCE"))           // REDUCE
    case 0x5D => Some(Push(List([])))                                    // EMPTY_LIST
    case 0x61 => Some(Combine(Top(1), AddTo(KList), "APPEND"))           // APPEND
    case 0x65 => Some(Combine(ToMark, AddTo(KList), "APPENDS"))          // APPENDS
    case 0x73 => Some(Combine(Top(2), AddTo(KDict), "SETITEM"))          // SETITEM
    case 0x74 => Some(Combine(ToMark, MakeTuple, "TUPLE"))               // TUPLE
    case 0x75 => Some(Combine(ToMark, AddTo(KDict), "SETITEMS"))         // SETITEMS
    case 0x7D => Some(Push(Dict([])))                                    // EMPTY_DICT
    case 0x81 => Some(Combine(Top(2), MakeInstance, "NEWOBJ"))           // NEWOBJ
    case 0x85 => Some(Combine(Top(1), MakeTuple, "TUPLE1"))              // TUPLE1
    case 0x86 => Some(Combine(Top(2), MakeTuple, "TUPLE2"))              // TUPLE2
    case 0x87 => Some(Combine(Top(3), MakeTuple, "TUPLE3"))              // TUPLE3
    case 0x88 => Some(Push(Bool(true)))                                  // NEWTRUE
    case 0x89 => Some(Push(Bool(false)))                                 // NEWFALSE
    case 0x8F => Some(Push(Set([])))                                     // EMPTY_SET
    case 0x90 => Some(Combine(ToMark, AddTo(KSet), "ADDITEMS"))          // ADDITEMS
    case 0x93 => Some(Combine(Top(2), MakeGlobal, "STACK_GLOBAL"))       // STACK_GLOBAL
    case 0x94 => Some(Memoize)                                           // MEMOIZE
    case _ => None
  }

  /** Opcodes of the format that the reader names in its refusal. */
  predicate KnownUnsupported(opcode: Byte) {
    opcode in [0x30, 0x31, 0x32, 0x46, 0x49, 0x4C, 0x53, 0x54, 0x55, 0x56, 0x63, 0x64, 0x67, 0x69, 0x6C, 0x6F, 0x70,
               0x71, 0x72, 0x62, 0x50, 0x51, 0x82, 0x83, 0x84, 0x8B, 0x8D, 0x8E, 0x91, 0x92, 0x96, 0x97, 0x98]
  }

  /** Reads the opcode at `at` and its payload: the instruction and where the next opcode starts. */
  function Lex(buf: seq<Byte>, at: nat): (r: Lexed)
    requires at <= |buf|
    ensures r.Ok? ==> at < r.value.1 <= |buf| && WellShaped(r.value.0)
  {
    var first :- Take(buf, at, 1);
    var opcode, pos := first[0], at + 1;
    match opcode
    case 0x80 =>                                                         // PROTO
      var v :- Take(buf, pos, 1);
      if 2 <= v[0] <= 5 then Ok((Skip, pos + 1)) else Err(UnsupportedProtocol(at, v[0]))
    case 0x95 =>                                                         // FRAME
      var _ :- Take(buf, pos, 8);
      Ok((Skip, pos + 8))
    case 0x4A =>                                                         // BININT
      var v :- Take(buf, pos, 4);
      Ok((Push(Int(TwosComplement(v))), pos + 4))
    case 0x4B =>                                                         // BININT1
      var v :- Take(buf, pos, 1);
      Ok((Push(Int(v[0])), pos + 1))
    case 0x4D =>                                                         // BININT2
      var v :- Take(buf, pos, 2);
      Ok((Push(Int(LittleEndian(v))), pos + 2))
    case 0x8A =>                                                         // LONG1
      var n :- Take(buf, pos, 1);
      var v :- Take(buf, pos + 1, n[0]);
      Ok((Push(LongFromLe(v)), pos + 1 + n[0]))
    case 0x47 =>                                                         // BINFLOAT, big-endian
      var v :- Take(buf, pos, 8);
      Ok((Push(Float(BigEndian(v))), pos + 8))
    case 0x8C =>                                                         // SHORT_BINUNICODE
      var n :- Take(buf, pos, 1);
      var s :- TakeText(buf, pos + 1, n[0]);
      Ok((Push(s), pos + 1 + n[0]))
    case 0x58 =>                                                         // BINUNICODE
      var n :- Take(buf, pos, 4);
      var s :- TakeText(buf, pos + 4, LittleEndian(n));
      Ok((Push(s), pos + 4 + LittleEndian(n)))
    case 0x68 =>                                                         // BINGET
      var n :- Take(buf, pos, 1);
      Ok((Get(n[0]), pos + 1))
    case 0x6A =>                                                         // LONG_BINGET
      var n :- Take(buf, pos, 4);
      Ok((Get(LittleEndian(n)), pos + 4))
    case _ =>
      match Bare(opcode)
      case Some(instr) => Ok((instr, pos))
      case None => Err(if KnownUnsupported(opcode) then UnsupportedOpcode(at, opcode) else UnknownOpcode(at, opcode))
  }

  /** How the scanner steps over one opcode: the index it fetches, if any, and the next position. */
  datatype Scanned = Fetch(index: nat, next: nat) | Over(next: nat) | GiveUp

  function ScanFixed(buf: seq<Byte>, pos: nat, n: nat): Scanned {
    if pos + n > |buf| then GiveUp else Over(pos + n)
  }

  /** The scanner's own list of opcodes that carry nothing. */
  predicate NoPayload(opcode: Byte) {
    opcode in [0x28, 0x2E, 0x4E, 0x88, 0x89, 0x5D, 0x7D, 0x8F, 0x29, 0x61, 0x65, 0x73, 0x75, 0x90, 0x74, 0x85, 0x86,
               0x87, 0x52, 0x81, 0x93, 0x94]
  }

  function ScanOne(buf: seq<Byte>, at: nat): (r: Scanned)
    requires at < |buf|
    ensures !r.GiveUp? ==> at < r.next <= |buf|
  {
    var opcode, pos := buf[at], at + 1;
    match opcode
    case 0x68 => if pos + 1 > |buf| then GiveUp else Fetch(buf[pos], pos + 1)
    case 0x6A => if pos + 4 > |buf| then GiveUp else Fetch(LittleEndian(buf[pos..pos + 4]), pos + 4)
    case 0x80 => ScanFixed(buf, pos, 1)
    case 0x4B => ScanFixed(buf, pos, 1)
    case 0x4D => ScanFixed(buf, pos, 2)
    case 0x4A => ScanFixed(buf, pos, 4)
    case 0x47 => ScanFixed(buf, pos, 8)
    case 0x95 => ScanFixed(buf, pos, 8)
    case 0x8C => if pos + 1 > |buf| then GiveUp else ScanFixed(buf, pos + 1, buf[pos])
    case 0x8A => if pos + 1 > |buf| then GiveUp else ScanFixed(buf, pos + 1, buf[pos])
    case 0x58 => if pos + 4 > |buf| then GiveUp else ScanFixed(buf, pos + 4, LittleEndian(buf[pos..pos + 4]))
    case _ => if NoPayload(opcode) then Over(pos) else GiveUp
  }

  /** Every memo index the stream fetches from position `at` on, or `None` when it cannot be scanned. */
  function ScanFrom(buf: seq<Byte>, at: nat): Option<set<nat>>
    requires at <= |buf|
    decreases |buf| - at
  {
    if at == |buf| then Some({})
    else
      match ScanOne(buf, at)
      case GiveUp => None
      case Over(next) => ScanFrom(buf, next)
      case Fetch(index, next) =>
        match ScanFrom(buf, next)
        case None => None
        case Some(refs) => Some({index} + refs)
  }

  /** The scanning loop. */
  method ScanMemoRefs(buf: seq<Byte>) returns (refs: Option<set<nat>>)
    ensures refs == ScanFrom(buf, 0)
  {
    var found: set<nat> := {};
    var pos := 0;
    assert ScanFrom(buf, 0).Some? ==> found + ScanFrom(buf, 0).value == ScanFrom(buf, 0).value;
    while pos < |buf|
      invariant 0 <= pos <= |buf|
      invariant ScanFrom(buf, 0) == match ScanFrom(buf, pos) case None => None case Some(rest) => Some(found + rest)
    {
      match ScanOne(buf, pos)
      case GiveUp => return None;
      case Over(next) => pos := next;
      case Fetch(index, next) =>
        ghost var rest := ScanFrom(buf, next);
        assert rest.Some? ==> found + ({index} + rest.value) == (found + {index}) + rest.value;
        found := found + {index};
        pos := next;
    }
    assert found + {} == found;
    return Some(found);
  }

  /** One opcode: the scanner steps where the decoder does, and sees what it fetches. */
  lemma ScanOneFollows(buf: seq<Byte>, at: nat)
    requires at < |buf| && Lex(buf, at).Ok? && !ScanOne(buf, at).GiveUp?
    ensures var (instr, next) := Lex(buf, at).value;
            ScanOne(buf, at) == if instr.Get? then Fetch(instr.index, next) else Over(next)
  {
    BareNeverFetches(buf[at]);
    hide LittleEndian, BigEndian, TakeText, Bare, NoPayload, KnownUnsupported;
  }

  lemma BareNeverFetches(opcode: Byte)
    ensures Bare(opcode).Some? ==> !Bare(opcode).value.Get?
  {
  }

  lemma FetchedIsWord(buf: seq<Byte>, at: nat)
    requires at < |buf| && Lex(buf, at).Ok? && Lex(buf, at).value.0.Get?
    ensures Lex(buf, at).value.0.index < WORD_BASE
  {
    if buf[at] == 0x6A {
      assert InRange(256, buf[at + 1..at + 5]);
      ValueBound(256, buf[at + 1..at + 5]);
      ShortPower(4);
    }
    hide TakeText;
  }

  /** Whatever the decoder can read, the scanner steps over to the same next opcode, noting every fetch. */
  lemma ScannerFollowsDecoder(buf: seq<Byte>, at: nat)
    requires at <= |buf| && Lex(buf, at).Ok? && ScanFrom(buf, at).Some?
    ensures var (instr, next) := Lex(buf, at).value;
            && ScanFrom(buf, next).Some?
            && ScanFrom(buf, next).value <= ScanFrom(buf, at).value
            && (instr.Get? ==> instr.index in ScanFrom(buf, at).value && instr.index < WORD_BASE)
  {
    var (instr, next) := Lex(buf, at).value;
    if at < |buf| {
      if ScanOne(buf, at).GiveUp? {
        assert false;
      }
      ScanOneFollows(buf, at);
      if instr.Get? {
        FetchedIsWord(buf, at);
      }
    }
    hide Lex, ScanOne;
  }
}
