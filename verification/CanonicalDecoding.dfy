/** What the reader decodes under the shipped allowlist always has an unambiguous canonical text. */
module CanonicalDecoding {
  import opened Common
  import opened Numerals
  import opened PyObjects
  import opened BigInts
  import opened PickleStream
  import opened PickleReader
  import opened Canonical
  import opened CanonicalReading

  const NET_UTILS: seq<Byte> := [78, 101, 116, 85, 116, 105, 108, 115]
  const COLLECTIONS: seq<Byte> := [99, 111, 108, 108, 101, 99, 116, 105, 111, 110, 115]
  const NETWORK_ITEM: seq<Byte> := [78, 101, 116, 119, 111, 114, 107, 73, 116, 101, 109]
  const NETWORK_SLOT: seq<Byte> := [78, 101, 116, 119, 111, 114, 107, 83, 108, 111, 116]
  const HINT: seq<Byte> := [72, 105, 110, 116]
  const SLOT_TYPE: seq<Byte> := [83, 108, 111, 116, 84, 121, 112, 101]
  const HINT_STATUS: seq<Byte> := [72, 105, 110, 116, 83, 116, 97, 116, 117, 115]
  const CLIENT_STATUS: seq<Byte> := [67, 108, 105, 101, 110, 116, 83, 116, 97, 116, 117, 115]
  const COUNTER: seq<Byte> := [67, 111, 117, 110, 116, 101, 114]

  /** The classes a server reads: six of NetUtils, and the counter. */
  const ARCHIPELAGO: Allowlist := Allowlist([
    (NET_UTILS, NETWORK_ITEM), (NET_UTILS, NETWORK_SLOT), (NET_UTILS, HINT), (NET_UTILS, SLOT_TYPE),
    (NET_UTILS, HINT_STATUS), (NET_UTILS, CLIENT_STATUS), (COLLECTIONS, COUNTER)])

  /** Letters only, so neither a dot nor a bracket. */
  ghost predicate Letters(t: seq<Byte>) {
    forall i | 0 <= i < |t| :: 65 <= t[i] <= 122
  }

  lemma LettersArePlain(m: seq<Byte>, n: seq<Byte>)
    requires Letters(m) && Letters(n)
    ensures GREATER !in m && GREATER !in n && DOT !in n
  {
  }

  lemma ModuleLetters()
    ensures Letters(NET_UTILS) && Letters(COLLECTIONS)
  {
  }

  lemma ShortNameLetters()
    ensures Letters(HINT) && Letters(SLOT_TYPE) && Letters(COUNTER)
  {
  }

  lemma LongNameLetters()
    ensures Letters(NETWORK_ITEM) && Letters(NETWORK_SLOT)
  {
  }

  lemma StatusNameLetters()
    ensures Letters(HINT_STATUS) && Letters(CLIENT_STATUS)
  {
  }

  /** In the shipped list no name holds a bracket and no two classes print alike. */
  lemma ArchipelagoIsPlain()
    ensures BracketFree(ARCHIPELAGO) && NamesDiffer(ARCHIPELAGO)
  {
    hide Letters;
    ModuleLetters();
    ShortNameLetters();
    LongNameLetters();
    StatusNameLetters();
    forall c | Permits(ARCHIPELAGO, c) ensures GREATER !in c.moduleName && GREATER !in c.name && DOT !in c.name {
      var i :| 0 <= i < |ARCHIPELAGO.entries| && ARCHIPELAGO.entries[i] == (c.moduleName, c.name);
      assert Letters(c.moduleName) && Letters(c.name) by {
        assert i == 0 || i == 1 || i == 2 || i == 3 || i == 4 || i == 5 || i == 6;
      }
      LettersArePlain(c.moduleName, c.name);
    }
    DotFreeNamesDiffer(ARCHIPELAGO);
  }

  lemma {:induction false} BigEndianBound(bytes: seq<Byte>)
    ensures 0 <= BigEndian(bytes) < Power(256, |bytes|)
  {
    if bytes != [] {
      BigEndianBound(bytes[..|bytes| - 1]);
    }
  }

  lemma BytePower()
    ensures Power(256, 2) == 0x1_0000 && Power(256, 4) == 0x1_0000_0000 && Power(256, 8) == 0x1_0000_0000_0000_0000
  {
    assert Power(256, 1) == 256;
    assert Power(256, 2) == 65536;
    PowerAdd(256, 2, 2);
    PowerAdd(256, 4, 4);
  }

  lemma ShortInteger(bytes: seq<Byte>)
    requires |bytes| <= 4
    ensures FitsI64(TwosComplement(bytes)) && FitsI64(LittleEndian(bytes))
  {
    assert InRange(256, bytes);
    ValueBound(256, bytes);
    ShortPower(|bytes|);
  }

  /** Every value an opcode pushes by itself is fine. */
  lemma LexedIsFine(buf: seq<Byte>, at: nat, allow: Allowlist)
    requires at <= |buf| && Lex(buf, at).Ok? && Lex(buf, at).value.0.Push?
    ensures Fine(Lex(buf, at).value.0.v, allow)
  {
    hide TwosComplement, LittleEndian, BigEndian, LongFromLe, TakeText;
    if buf[at] == 0x4A {
      ShortInteger(buf[at + 1..at + 5]);
    } else if buf[at] == 0x4D {
      ShortInteger(buf[at + 1..at + 3]);
    } else if buf[at] == 0x47 {
      BytePower();
      BigEndianBound(buf[at + 1..at + 9]);
    } else if buf[at] == 0x8A {
      LongIsFine(buf[at + 2..at + 2 + buf[at + 1]], allow);
    } else if buf[at] == 0x8C {
      TextIsFine(buf, at + 2, buf[at + 1], allow);
    } else if buf[at] == 0x58 {
      TextIsFine(buf, at + 5, LittleEndian(buf[at + 1..at + 5]), allow);
    }
  }

  lemma LongIsFine(bytes: seq<Byte>, allow: Allowlist)
    ensures Fine(LongFromLe(bytes), allow)
  {
  }

  lemma TextIsFine(buf: seq<Byte>, pos: nat, n: nat, allow: Allowlist)
    requires pos <= |buf| && TakeText(buf, pos, n).Ok?
    ensures TakeText(buf, pos, n).value.Str? && Fine(TakeText(buf, pos, n).value, allow)
  {
  }

  ghost predicate StateFine(s: State, allow: Allowlist) {
    && AllFine(s.stack, allow)
    && forall k | 0 <= k < |s.memo| && s.memo[k].Value? :: Fine(s.memo[k].v, allow)
  }

  ghost predicate OutcomeFine(o: Outcome, allow: Allowlist) {
    match o
    case Next(t) => StateFine(t, allow)
    case Done(v) => Fine(v, allow)
    case Fail(_) => true
  }

  lemma FineConstruct(s: State, build: Build, items: seq<PyObj>, at: nat, name: string, allow: Allowlist)
    requires Inv(s) && StateFine(s, allow) && AllFine(items, allow)
    requires build.MakeGlobal? || build.MakeInstance? ==> |items| == 2
    ensures OutcomeFine(Construct(s, build, items, at, name, allow), allow)
  {
    hide Inv;
    match build
    case MakeTuple => assert Fine(Tuple(items), allow);
    case AddTo(kind) => FineAddItems(s, kind, items, at, name, allow);
    case MakeGlobal =>
    case MakeInstance =>
      if items[1].Tuple? && items[0].Global? {
        var v := Instance(items[0].class_, items[1].items);
        assert Fine(items[0], allow) && Fine(items[1], allow);
        assert Kids(v) == Kids(items[1]);
        assert Fine(v, allow);
      }
  }

  lemma FineAddItems(s: State, kind: Kind, items: seq<PyObj>, at: nat, name: string, allow: Allowlist)
    requires Inv(s) && StateFine(s, allow) && AllFine(items, allow)
    ensures OutcomeFine(AddItems(s, kind, items, at, name), allow)
  {
    hide Inv;
    if AddItems(s, kind, items, at, name).Next? {
      var v := s.stack[|s.stack| - 1];
      var x := Extend(v, items);
      assert Fine(v, allow);
      assert Kids(x) == Kids(v) + items;
      assert Fine(x, allow);
    }
  }

  lemma FineInstruction(s: State, instr: Instr, at: nat, referenced: Option<set<nat>>, allow: Allowlist)
    requires Inv(s) && WellShaped(instr) && StateFine(s, allow) && (instr.Push? ==> Fine(instr.v, allow))
    ensures OutcomeFine(Execute(s, instr, at, referenced, allow), allow)
  {
    hide LiveEntries, MemoSorted, LiveBelow, MarksOk, Construct, Fine;
    match instr
    case Combine(grab, build, name) =>
      if Grabbed(s, grab, name).Ok? {
        var (t, items) := Grabbed(s, grab, name).value;
        FineConstruct(t, build, items, at, name, allow);
      }
    case _ =>
  }

  lemma {:induction false} RunIsFine(buf: seq<Byte>, s: State, referenced: Option<set<nat>>, allow: Allowlist)
    requires Inv(s) && s.pos <= |buf| && StateFine(s, allow)
    ensures Run(buf, s, referenced, allow).Ok? ==> Fine(Run(buf, s, referenced, allow).value, allow)
    decreases |buf| - s.pos
  {
    hide Lex, Execute, LiveEntries, MemoSorted, LiveOnStack, MarksOk;
    if Lex(buf, s.pos).Ok? {
      var (instr, next) := Lex(buf, s.pos).value;
      if instr.Push? {
        LexedIsFine(buf, s.pos, allow);
      }
      FineInstruction(s.(pos := next), instr, s.pos, referenced, allow);
      match Execute(s.(pos := next), instr, s.pos, referenced, allow)
      case Next(t) => RunIsFine(buf, t, referenced, allow);
      case _ =>
    }
  }

  /** Under any list where no printed reference begins with another, two files have the same canonical text exactly
   * when they hold equal values up to the order of sets. */
  lemma DecodedUnder(a: seq<Byte>, b: seq<Byte>, allow: Allowlist)
    requires PrefixFree(allow) && Decode(a, allow).Ok? && Decode(b, allow).Ok?
    ensures var v, w := Decode(a, allow).value, Decode(b, allow).value;
            Render(v) == Render(w) <==> Same(v, w)
  {
    RunIsFine(a, START, ScanFrom(a, 0), allow);
    RunIsFine(b, START, ScanFrom(b, 0), allow);
    CanonicalDecides(Decode(a, allow).value, Decode(b, allow).value, allow);
  }

  /** So it is under the shipped list. */
  lemma DecodedTextDecides(a: seq<Byte>, b: seq<Byte>)
    requires Decode(a, ARCHIPELAGO).Ok? && Decode(b, ARCHIPELAGO).Ok?
    ensures var v, w := Decode(a, ARCHIPELAGO).value, Decode(b, ARCHIPELAGO).value;
            Render(v) == Render(w) <==> Same(v, w)
  {
    ArchipelagoIsPlain();
    DifferentNamesPrefixFree(ARCHIPELAGO);
    DecodedUnder(a, b, ARCHIPELAGO);
  }
}
