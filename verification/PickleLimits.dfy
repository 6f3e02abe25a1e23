/** The two limits are exact: a stream is refused for its depth or its size if and only if writing its value takes more
 * stack or more pushed values than the reader allows. */
module PickleLimits {
  import opened Common
  import opened PyObjects
  import opened PickleStream
  import opened PickleReader
  import opened PickleDecoding
  import opened PickleWriting
  import opened PickleWritten
  import opened PickleEncoding

  ghost predicate Overran(r: Result<PyObj, Error>) {
    r.Err? && (r.error.TooDeep? || r.error.TooManyObjects?)
  }

  /** The run from `s` stops at a limit. */
  ghost predicate Overruns(buf: seq<Byte>, s: State, allow: Allowlist) {
    Inv(s) && s.pos <= |buf| && Overran(Run(buf, s, None, allow))
  }

  lemma OverrunsBefore(buf: seq<Byte>, s: State, t: State, size: nat, cost: nat, allow: Allowlist)
    requires Arrives(buf, s, t, size, cost, allow) && Overruns(buf, t, allow)
    ensures Overruns(buf, s, allow)
  {
  }

  lemma PushOverruns(s: State, v: PyObj)
    requires Inv(s) && !Room(s, 1, 1)
    ensures Pushed(s, v).Fail? && (Pushed(s, v).error.TooDeep? || Pushed(s, v).error.TooManyObjects?)
  {
  }

  /** The run stops where its next instruction does. */
  lemma StepOverruns(buf: seq<Byte>, s: State, instr: Instr, next: nat, allow: Allowlist)
    requires Inv(s) && s.pos <= |buf| && Lex(buf, s.pos) == Ok((instr, next))
    requires Execute(s.(pos := next), instr, s.pos, None, allow).Fail?
    requires var e := Execute(s.(pos := next), instr, s.pos, None, allow).error; e.TooDeep? || e.TooManyObjects?
    ensures Overruns(buf, s, allow)
  {
    hide Lex, Execute, Inv;
  }

  lemma LeafOverruns(buf: seq<Byte>, s: State, c: Code, allow: Allowlist)
    requires IsLeaf(c) && Ready(s) && At(buf, s.pos, Write(c)) && Denoted(c, MemoOf(s), allow).Some?
    requires !Room(s, 1, 1)
    ensures Overruns(buf, s, allow)
  {
    hide Lex, Inv, Run, Write, Denoted, Pushed, Overruns;
    LexLeaf(buf, s.pos, c, MemoOf(s), allow);
    CursorMoves(s, s.pos + |Write(c)|);
    PushOverruns(s.(pos := s.pos + |Write(c)|), Denoted(c, MemoOf(s), allow).value.value);
    StepOverruns(buf, s, Push(Denoted(c, MemoOf(s), allow).value.value), s.pos + |Write(c)|, allow);
  }

  lemma AgainOverruns(buf: seq<Byte>, s: State, c: Code, allow: Allowlist)
    requires c.Again? && Ready(s) && At(buf, s.pos, Write(c)) && Denoted(c, MemoOf(s), allow).Some?
    requires !Room(s, 1, 1)
    ensures Overruns(buf, s, allow)
  {
    hide Lex, Inv, Run, Write, Pushed, Overruns;
    LexAgain(buf, s.pos, c.index, c.short);
    var moved := s.(pos := s.pos + |Write(c)|);
    CursorMoves(s, s.pos + |Write(c)|);
    assert MemoGet(moved, c.index) == Ok(MemoOf(s)[c.index]);
    PushOverruns(moved, MemoOf(s)[c.index]);
    StepOverruns(buf, s, Get(c.index), s.pos + |Write(c)|, allow);
  }

  lemma BuildingOverruns(buf: seq<Byte>, s: State, u: State, how: How, vs: seq<PyObj>, allow: Allowlist)
    requires Ready(s) && Above(Marked(s, how.MarkedTuple?), u, vs) && At(buf, u.pos, [BuiltByte(how, |vs|)])
    requires BuiltOf(how, vs, allow).Some? && !(how.TupleOf? && vs == [])
    requires |s.stack| >= MAX_STACK || u.objects >= MAX_OBJECTS
    ensures Overruns(buf, u, allow)
  {
    hide Lex, Bare, Run, Inv, Construct, Pushed, Grabbed, BuiltByte, GrabHeight, Shrink, MarksAfter, Overruns;
    var v, marked := BuiltOf(how, vs, allow).value, how.MarkedTuple?;
    var name := BuiltInstruction(how, vs, allow);
    var grab := if marked then ToMark else Top(|vs|);
    LexByte(buf, u.pos, BuiltByte(how, |vs|));
    var moved := u.(pos := u.pos + 1);
    CursorAbove(Marked(s, marked), u.pos + 1, u, vs);
    TakenBack(s, moved, vs, marked, name);
    var w := Grabbed(moved, grab, name).value.0;
    assert w.stack == s.stack + [];
    PushOverruns(w, v);
    ConstructsBuilt(w, how, vs, u.pos, name, allow);
    StepOverruns(buf, u, Combine(grab, Building(how), name), u.pos + 1, allow);
  }

  // The induction over codes.

  /** A code that means something lies ahead, and there is no room for it. */
  ghost predicate Crowded(buf: seq<Byte>, s: State, c: Code, allow: Allowlist) {
    && Ready(s) && At(buf, s.pos, Write(c)) && Denoted(c, MemoOf(s), allow).Some?
    && !Room(s, Height(c), Cost(c))
  }

  lemma {:induction false} CodeOverruns(buf: seq<Byte>, s: State, c: Code, allow: Allowlist)
    requires Crowded(buf, s, c, allow)
    ensures Overruns(buf, s, allow)
    decreases c, 2
  {
    hide Inv, Run, Overruns;
    match c
    case Built(_, _) => BuiltOverruns(buf, s, c, allow);
    case Added(_, _, _, _) => AddedOverruns(buf, s, c, allow);
    case Kept(inner) =>
      AtSplit(buf, s.pos, Write(inner), [0x94]);
      CodeOverruns(buf, s, inner, allow);
    case Framed(size, inner) => FramedOverruns(buf, s, c, allow);
    case Again(_, _) => AgainOverruns(buf, s, c, allow);
    case _ => LeafOverruns(buf, s, c, allow);
  }

  lemma {:induction false} FramedOverruns(buf: seq<Byte>, s: State, c: Code, allow: Allowlist)
    requires c.Framed? && Crowded(buf, s, c, allow)
    ensures Overruns(buf, s, allow)
    decreases c, 1
  {
    hide Inv, At, Run, Lex, Overruns;
    AtFrame(buf, s.pos, c.size, Write(c.c));
    var b := ReadsSkip(buf, s, s.pos + 9, allow);
    CursorMoves(s, s.pos + 9);
    CodeOverruns(buf, b, c.c, allow);
    OverrunsBefore(buf, s, b, 9, 0, allow);
  }

  lemma {:induction false} AllOverrun(buf: seq<Byte>, s: State, cs: seq<Code>, allow: Allowlist)
    requires Ready(s) && At(buf, s.pos, WriteAll(cs)) && DenotedAll(cs, MemoOf(s), allow).Some?
    requires !Room(s, HeightAll(cs), CostAll(cs))
    ensures Overruns(buf, s, allow)
    decreases cs, 3
  {
    hide Run, Overruns, MarksOk, LiveEntries, MemoSorted, LiveOnStack, Above;
    assert cs != [];
    AtSplit(buf, s.pos, Write(cs[0]), WriteAll(cs[1..]));
    if Room(s, Height(cs[0]), Cost(cs[0])) {
      var b := ReadsCode(buf, s, cs[0], allow);
      GrownByOne(s, b, Denoted(cs[0], MemoOf(s), allow).value);
      AllOverrun(buf, b, cs[1..], allow);
      OverrunsBefore(buf, s, b, |Write(cs[0])|, Cost(cs[0]), allow);
    } else {
      CodeOverruns(buf, s, cs[0], allow);
    }
  }

  lemma {:induction false} PartsOverrun(buf: seq<Byte>, s: State, marked: bool, cs: seq<Code>, allow: Allowlist)
    requires Ready(s) && At(buf, s.pos, Opening(marked) + WriteAll(cs)) && DenotedAll(cs, MemoOf(s), allow).Some?
    requires !Room(s, HeightAll(cs), CostAll(cs))
    ensures Overruns(buf, s, allow)
    decreases cs, 4
  {
    hide Inv, At, Run, Overruns;
    AtSplit(buf, s.pos, Opening(marked), WriteAll(cs));
    var b := ReadsOpening(buf, s, marked, allow);
    AllOverrun(buf, b, cs, allow);
    OverrunsBefore(buf, s, b, |Opening(marked)|, 0, allow);
  }

  lemma {:induction false} BuiltOverruns(buf: seq<Byte>, s: State, c: Code, allow: Allowlist)
    requires c.Built? && Crowded(buf, s, c, allow)
    ensures Overruns(buf, s, allow)
    decreases c, 1
  {
    hide Inv, At, Run, Reached, BuiltByte, BuiltOf, Above, Denoted, Overruns;
    BuiltUnfolds(c, MemoOf(s), allow);
    var (vs, m) := DenotedAll(c.parts, MemoOf(s), allow).value;
    CountDenoted(c.parts, MemoOf(s), allow);
    var marked, last := c.how.MarkedTuple?, BuiltByte(c.how, |c.parts|);
    AtSplit(buf, s.pos, Opening(marked) + WriteAll(c.parts), [last]);
    if c.how.TupleOf? && vs == [] {
      EmptyTupleOverruns(buf, s, c, allow);
    } else if Room(s, HeightAll(c.parts), CostAll(c.parts)) {
      var u := ReadsParts(buf, s, marked, c.parts, allow);
      BuildingOverruns(buf, s, u, c.how, vs, allow);
      OverrunsBefore(buf, s, u, |Opening(marked) + WriteAll(c.parts)|, CostAll(c.parts), allow);
    } else {
      PartsOverrun(buf, s, marked, c.parts, allow);
    }
  }

  lemma EmptyTupleOverruns(buf: seq<Byte>, s: State, c: Code, allow: Allowlist)
    requires c.Built? && c.how.TupleOf? && c.parts == [] && Crowded(buf, s, c, allow)
    ensures Overruns(buf, s, allow)
  {
    hide Lex, Inv, Run, Overruns, Pushed;
    assert Write(c) == [0x29];
    LexByte(buf, s.pos, 0x29);
    CursorMoves(s, s.pos + 1);
    PushOverruns(s.(pos := s.pos + 1), Tuple([]));
    StepOverruns(buf, s, Push(Tuple([])), s.pos + 1, allow);
  }

  lemma {:induction false} AddedOverruns(buf: seq<Byte>, s: State, c: Code, allow: Allowlist)
    requires c.Added? && Crowded(buf, s, c, allow)
    ensures Overruns(buf, s, allow)
    decreases c, 1
  {
    hide Inv, At, Run, AddedByte, AddedTo, Above, Refreshed, Denoted, Overruns;
    AddedUnfolds(c, MemoOf(s), allow);
    var m := Denoted(c.base, MemoOf(s), allow).value;
    var inner, last := Opening(c.marked) + WriteAll(c.parts), AddedByte(c.kind, c.marked);
    AtSplit(buf, s.pos, Write(c.base), inner + [last]);
    if Room(s, Height(c.base), Cost(c.base)) {
      var b := ReadsCode(buf, s, c.base, allow);
      AtSplit(buf, b.pos, inner, [last]);
      GrownByOne(s, b, m);
      PartsOverrun(buf, b, c.marked, c.parts, allow);
      OverrunsBefore(buf, s, b, |Write(c.base)|, Cost(c.base), allow);
    } else {
      CodeOverruns(buf, s, c.base, allow);
    }
  }

  /**
   * A written value is read back if and only if reading it never takes more than 1,048,576 places of the stack and
   * 4,000,000 pushed values; otherwise the refusal names one of the two limits.
   */
  lemma LimitsAreExact(protocol: Byte, c: Code, rest: seq<Byte>, allow: Allowlist)
    requires 2 <= protocol <= 5 && Denoted(c, [], allow).Some?
    ensures var decoded := Decode(File(protocol, c, rest), allow);
            if Height(c) <= 1_048_576 && Cost(c) <= 4_000_000 then decoded == Ok(Denoted(c, [], allow).value.value)
            else Overran(decoded)
  {
    hide Lex, Inv, Run, At, File, Decode, Write, Denoted, Height, Cost;
    if Height(c) <= 1_048_576 && Cost(c) <= 4_000_000 {
      WrittenReadsBack(protocol, c, rest, allow);
    } else {
      var buf := File(protocol, c, rest);
      PrescanChangesNothing(buf, allow);
      var s := HeaderSkipped(protocol, c, rest, allow);
      CodeOverruns(buf, s, c, allow);
      OverrunsBefore(buf, START, s, 2, 0, allow);
      DecodesAsRun(buf, allow);
    }
  }

  lemma DecodesAsRun(buf: seq<Byte>, allow: Allowlist)
    ensures Inv(START) && Decode(buf, allow) == Run(buf, START, None, allow)
  {
    StartReady();
    PrescanChangesNothing(buf, allow);
  }

  // Classes outside the list.

  lemma ForbiddenStops(w: State, c: ClassId, at: nat, name: string, allow: Allowlist)
    requires Inv(w) && !Permits(allow, c)
    ensures Construct(w, MakeGlobal, [Str(c.moduleName), Str(c.name)], at, name, allow) == Fail(ForbiddenClass(at, c))
  {
    hide Inv;
  }

  lemma ClassByte() returns (name: string)
    ensures Bare(0x93) == Some(Combine(Top(2), MakeGlobal, name))
  {
    name := Bare(0x93).value.name;
  }

  /** A class that is not on the list is refused where it is named, whatever surrounds the naming and follows it. */
  lemma ForbiddenRefused(buf: seq<Byte>, s: State, c: ClassId, allow: Allowlist)
    requires Ready(s) && At(buf, s.pos, Write(NameCode(c))) && TextFits(c.moduleName) && TextFits(c.name)
    requires Room(s, 2, 2) && !Permits(allow, c)
    ensures Run(buf, s, None, allow) == Err(ForbiddenClass(s.pos + |Write(NameCode(c))| - 1, c))
  {
    hide Lex, Bare, Inv, Run, Construct, Grabbed, Write, TextFits, TextCode, Denoted, Permits;
    var parts, vs := [TextCode(c.moduleName), TextCode(c.name)], [Str(c.moduleName), Str(c.name)];
    TextMeans(c.moduleName, MemoOf(s), allow);
    TextMeans(c.name, MemoOf(s), allow);
    PairMeans(parts[0], parts[1], vs[0], vs[1], MemoOf(s), allow);
    NameBytes(c);
    AtSplit(buf, s.pos, Opening(false) + WriteAll(parts), [0x93]);
    var u := ReadsParts(buf, s, false, parts, allow);
    var name := ClassByte();
    LexByte(buf, u.pos, 0x93);
    var moved := u.(pos := u.pos + 1);
    CursorAbove(s, u.pos + 1, u, vs);
    TakenBack(s, moved, vs, false, name);
    var w := Grabbed(moved, Top(2), name).value.0;
    ForbiddenStops(w, c, u.pos, name, allow);
    assert Execute(moved, Combine(Top(2), MakeGlobal, name), u.pos, None, allow) == Fail(ForbiddenClass(u.pos, c));
    RunStops(buf, u, Combine(Top(2), MakeGlobal, name), u.pos + 1, allow);
  }

  lemma NameBytes(c: ClassId)
    ensures var parts := [TextCode(c.moduleName), TextCode(c.name)];
            && Write(NameCode(c)) == Opening(false) + WriteAll(parts) + [0x93]
            && CostAll(parts) == 2 && HeightAll(parts) == 2
  {
    var parts := [TextCode(c.moduleName), TextCode(c.name)];
    assert parts[1..] == [TextCode(c.name)] && parts[1..][1..] == [];
    assert HeightAll([]) == 0 && CostAll([]) == 0;
    assert HeightAll(parts[1..]) == 1 && CostAll(parts[1..]) == 1;
  }

  /** The run answers what its next instruction fails with. */
  lemma RunStops(buf: seq<Byte>, s: State, instr: Instr, next: nat, allow: Allowlist)
    requires Inv(s) && s.pos <= |buf| && Lex(buf, s.pos) == Ok((instr, next))
    requires Execute(s.(pos := next), instr, s.pos, None, allow).Fail?
    ensures Run(buf, s, None, allow) == Err(Execute(s.(pos := next), instr, s.pos, None, allow).error)
  {
    hide Lex, Execute, Inv;
  }
}
