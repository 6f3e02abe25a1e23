/** The decoder as shipped: the pre-scan changes nothing, and what it returns is the heap semantics' unfolding. */
module PickleDecoding {
  import opened Common
  import opened PyObjects
  import opened PickleStream
  import opened PickleReader
  import opened PickleHeap
  import opened PickleViews
  import opened PickleAgreement

  /** `s` tracks only the memo slots in `refs`, `f` tracks all of them; otherwise they are the same state. */
  ghost predicate Thinned(s: State, f: State, refs: set<nat>) {
    && Inv(s) && Inv(f)
    && s.pos == f.pos && s.stack == f.stack && s.marks == f.marks && s.objects == f.objects
    && |s.memo| == |f.memo|
    && forall k | 0 <= k < |s.memo| :: s.memo[k] == if k % WORD_BASE in refs then f.memo[k] else Unreferenced
  }

  ghost predicate SameOutcome(o: Outcome, p: Outcome, refs: set<nat>) {
    if o.Next? then p.Next? && Thinned(o.s, p.s, refs) else o == p
  }

  lemma ThinnedPush(s: State, f: State, refs: set<nat>, v: PyObj)
    requires Thinned(s, f, refs)
    ensures SameOutcome(Pushed(s, v), Pushed(f, v), refs)
  {
  }

  lemma ThinnedConstruct(s: State, f: State, refs: set<nat>, build: Build, items: seq<PyObj>, at: nat, name: string,
                         allow: Allowlist)
    requires Thinned(s, f, refs) && (build.MakeGlobal? || build.MakeInstance? ==> |items| == 2)
    ensures SameOutcome(Construct(s, build, items, at, name, allow), Construct(f, build, items, at, name, allow), refs)
  {
  }

  lemma ThinnedGrab(s: State, f: State, refs: set<nat>, grab: Grab, name: string)
    requires Thinned(s, f, refs) && Grabbed(s, grab, name).Ok?
    ensures Grabbed(f, grab, name).Ok?
    ensures var (t, items) := Grabbed(s, grab, name).value;
            var (g, others) := Grabbed(f, grab, name).value;
            Thinned(t, g, refs) && items == others
  {
  }

  lemma ThinnedCombine(s: State, f: State, refs: set<nat>, grab: Grab, build: Build, name: string, at: nat,
                       allow: Allowlist)
    requires Thinned(s, f, refs) && WellShaped(Combine(grab, build, name))
    ensures SameOutcome(Execute(s, Combine(grab, build, name), at, Some(refs), allow),
                        Execute(f, Combine(grab, build, name), at, None, allow), refs)
  {
    hide Construct, Shrink, LiveEntries, MemoSorted, LiveOnStack, MarksOk;
    if Grabbed(s, grab, name).Ok? {
      ThinnedGrab(s, f, refs, grab, name);
      var (t, items) := Grabbed(s, grab, name).value;
      ThinnedConstruct(t, Grabbed(f, grab, name).value.0, refs, build, items, at, name, allow);
    }
  }

  lemma ThinnedMemoize(s: State, f: State, refs: set<nat>, at: nat)
    requires Thinned(s, f, refs)
    ensures SameOutcome(MemoizeTop(s, Some(refs), at), MemoizeTop(f, None, at), refs)
  {
  }

  lemma ThinnedInstruction(s: State, f: State, refs: set<nat>, instr: Instr, at: nat, allow: Allowlist)
    requires Thinned(s, f, refs) && WellShaped(instr)
    requires instr.Get? ==> instr.index < WORD_BASE && instr.index in refs
    ensures SameOutcome(Execute(s, instr, at, Some(refs), allow), Execute(f, instr, at, None, allow), refs)
  {
    match instr
    case Combine(grab, build, name) => ThinnedCombine(s, f, refs, grab, build, name, at, allow);
    case Push(v) => ThinnedPush(s, f, refs, v);
    case Memoize => ThinnedMemoize(s, f, refs, at);
    case Get(index) =>
      assert MemoGet(s, index) == MemoGet(f, index);
      if MemoGet(s, index).Ok? {
        ThinnedPush(s, f, refs, MemoGet(s, index).value);
      }
    case _ =>
  }

  /** A decoder told which slots are fetched runs exactly like one that tracks them all. */
  lemma {:induction false} ThinnedRuns(buf: seq<Byte>, s: State, f: State, refs: set<nat>, allow: Allowlist)
    requires Thinned(s, f, refs) && s.pos <= |buf|
    requires ScanFrom(buf, s.pos).Some? && ScanFrom(buf, s.pos).value <= refs
    ensures Run(buf, s, Some(refs), allow) == Run(buf, f, None, allow)
    decreases |buf| - s.pos
  {
    hide Lex, ScanFrom;
    if Lex(buf, s.pos).Ok? {
      var (instr, next) := Lex(buf, s.pos).value;
      ScannerFollowsDecoder(buf, s.pos);
      var t, g := s.(pos := next), f.(pos := next);
      ThinnedInstruction(t, g, refs, instr, s.pos, allow);
      var o := Execute(t, instr, s.pos, Some(refs), allow);
      if o.Next? {
        ThinnedRuns(buf, o.s, Execute(g, instr, s.pos, None, allow).s, refs, allow);
      }
    }
  }

  /** The pre-scan can cost time but never change a value or an error. */
  lemma PrescanChangesNothing(buf: seq<Byte>, allow: Allowlist)
    ensures Decode(buf, allow) == Run(buf, START, None, allow)
  {
    match ScanFrom(buf, 0)
    case None =>
    case Some(refs) => ThinnedRuns(buf, START, START, refs, allow);
  }

  /** Whether a run ever fetches a slot that was thought unneeded. */
  ghost predicate FetchesUntracked(buf: seq<Byte>, s: State, referenced: Option<set<nat>>, allow: Allowlist)
    requires Inv(s) && s.pos <= |buf|
    decreases |buf| - s.pos
  {
    match Lex(buf, s.pos)
    case Err(_) => false
    case Ok((instr, next)) =>
      || (instr.Get? && instr.index < |s.memo| && s.memo[instr.index].Unreferenced?)
      || (match Execute(s.(pos := next), instr, s.pos, referenced, allow)
          case Next(t) => FetchesUntracked(buf, t, referenced, allow)
          case _ => false)
  }

  ghost predicate Tracked(s: State, referenced: Option<set<nat>>) {
    forall k | 0 <= k < |s.memo| && IsReferenced(referenced, k) :: !s.memo[k].Unreferenced?
  }

  lemma TrackedStep(s: State, instr: Instr, at: nat, referenced: Option<set<nat>>, allow: Allowlist)
    requires Inv(s) && WellShaped(instr) && Tracked(s, referenced)
    requires Execute(s, instr, at, referenced, allow).Next?
    ensures Tracked(Execute(s, instr, at, referenced, allow).s, referenced)
  {
    hide Inv;
  }

  lemma {:induction false} RunStaysTracked(buf: seq<Byte>, s: State, referenced: Option<set<nat>>, allow: Allowlist)
    requires Inv(s) && s.pos <= |buf| && Tracked(s, referenced)
    requires referenced.Some? ==> ScanFrom(buf, s.pos).Some? && ScanFrom(buf, s.pos).value <= referenced.value
    ensures !FetchesUntracked(buf, s, referenced, allow)
    decreases |buf| - s.pos
  {
    hide Lex, ScanFrom;
    if Lex(buf, s.pos).Ok? {
      var (instr, next) := Lex(buf, s.pos).value;
      if referenced.Some? {
        ScannerFollowsDecoder(buf, s.pos);
      }
      assert instr.Get? && instr.index < |s.memo| ==> !s.memo[instr.index].Unreferenced? by {
        if instr.Get? && instr.index < |s.memo| {
          assert IsReferenced(referenced, instr.index);
        }
      }
      var o := Execute(s.(pos := next), instr, s.pos, referenced, allow);
      if o.Next? {
        TrackedStep(s.(pos := next), instr, s.pos, referenced, allow);
        RunStaysTracked(buf, o.s, referenced, allow);
      }
    }
  }

  /** The `Unreferenced` arm of a fetch is dead code. */
  lemma UntrackedNeverFetched(buf: seq<Byte>, allow: Allowlist)
    ensures !FetchesUntracked(buf, START, ScanFrom(buf, 0), allow)
  {
    RunStaysTracked(buf, START, ScanFrom(buf, 0), allow);
  }

  lemma StartRelated()
    ensures Related(START, HSTART)
  {
    var w := ViewOf(START, HSTART);
    assert Bounded(w);
    assert Exact(w, 0);
  }

  /**
   * For every byte string: decoding fails exactly when the heap semantics fails, with the same error; and when both
   * succeed the decoded value is the unfolding of the object built on the heap if and only if the stream never puts
   * anything into a container that it has already fetched from the memo.
   */
  lemma DecodeMatchesHeap(buf: seq<Byte>, allow: Allowlist)
    ensures var (last, ended) := HDecode(buf, allow);
            match Decode(buf, allow)
            case Err(e) => ended == Err(e)
            case Ok(v) => ended.Ok? && (Denotes(last.heap, ended.value, v) <==> last.faithful)
  {
    PrescanChangesNothing(buf, allow);
    StartRelated();
    RunsAgree(buf, START, HSTART, allow);
  }

  /** `l = []; memo l; fetch it; append 1 to the fetched one; make a pair`. */
  const FILL_AFTER_FETCH: seq<Byte> := [0x5D, 0x94, 0x68, 0, 0x4B, 1, 0x61, 0x86, 0x2E]

  lemma LexBare(buf: seq<Byte>, at: nat)
    requires at < |buf| && Bare(buf[at]).Some?
    ensures Lex(buf, at) == Ok((Bare(buf[at]).value, at + 1))
  {
  }

  lemma LexShort(buf: seq<Byte>, at: nat)
    requires at + 1 < |buf| && (buf[at] == 0x68 || buf[at] == 0x4B)
    ensures Lex(buf, at) == Ok((if buf[at] == 0x68 then Get(buf[at + 1]) else Push(Int(buf[at + 1])), at + 2))
  {
  }

  lemma ExampleInstructions()
    ensures var buf := FILL_AFTER_FETCH;
            && Lex(buf, 0) == Ok((Push(List([])), 1))
            && Lex(buf, 1) == Ok((Memoize, 2))
            && Lex(buf, 2) == Ok((Get(0), 4))
            && Lex(buf, 4) == Ok((Push(Int(1)), 6))
            && Lex(buf, 6) == Ok((Combine(Top(1), AddTo(KList), "APPEND"), 7))
            && Lex(buf, 7) == Ok((Combine(Top(2), MakeTuple, "TUPLE2"), 8))
            && Lex(buf, 8) == Ok((Stop, 9))
  {
    hide Lex;
    var buf := FILL_AFTER_FETCH;
    LexBare(buf, 0);
    LexBare(buf, 1);
    LexShort(buf, 2);
    LexShort(buf, 4);
    LexBare(buf, 6);
    LexBare(buf, 7);
    LexBare(buf, 8);
  }

  lemma OneStep(buf: seq<Byte>, s: State, instr: Instr, t: State, allow: Allowlist)
    requires Inv(s) && s.pos <= |buf| && Lex(buf, s.pos) == Ok((instr, t.pos))
    requires Execute(s.(pos := t.pos), instr, s.pos, None, allow) == Next(t)
    ensures Inv(t) && t.pos <= |buf| && Run(buf, s, None, allow) == Run(buf, t, None, allow)
  {
    hide Lex, Execute, Inv;
  }

  lemma HOneStep(buf: seq<Byte>, h: HState, instr: Instr, t: HState, allow: Allowlist)
    requires h.marks == [] && h.pos <= |buf| && Lex(buf, h.pos) == Ok((instr, t.pos))
    requires HExecute(h.(pos := t.pos), instr, h.pos, allow) == HNext(t) && t.marks == []
    ensures t.pos <= |buf| && HRun(buf, h, allow) == HRun(buf, t, allow)
  {
    hide Lex, HExecute;
  }

  const PAIR: PyObj := Tuple([List([]), List([Int(1)])])

  lemma ExampleReader(allow: Allowlist)
    ensures Run(FILL_AFTER_FETCH, START, None, allow) == Ok(PAIR)
  {
    hide Lex, Inv, Run;
    ExampleInstructions();
    var buf := FILL_AFTER_FETCH;
    StartIsValid();
    var s1 := State(1, [List([])], [], [], [], 1);
    OneStep(buf, START, Push(List([])), s1, allow);
    var s2 := State(2, [List([])], [], [Live(0)], [(0, 0)], 1);
    OneStep(buf, s1, Memoize, s2, allow);
    var s3 := State(4, [List([]), List([])], [], [Live(0)], [(0, 0)], 2);
    OneStep(buf, s2, Get(0), s3, allow);
    var s4 := State(6, [List([]), List([]), Int(1)], [], [Live(0)], [(0, 0)], 3);
    OneStep(buf, s3, Push(Int(1)), s4, allow);
    ExampleReaderEnd(s4, allow);
  }

  lemma StartIsValid()
    ensures Inv(START)
  {
  }

  lemma ExampleReaderEnd(s4: State, allow: Allowlist)
    requires s4 == State(6, [List([]), List([]), Int(1)], [], [Live(0)], [(0, 0)], 3) && Inv(s4)
    ensures Run(FILL_AFTER_FETCH, s4, None, allow) == Ok(PAIR)
  {
    hide Lex, Inv, Run;
    ExampleInstructions();
    var buf := FILL_AFTER_FETCH;
    assert s4.stack[2..] == [Int(1)] && s4.stack[..2] == [List([]), List([])];
    assert CopyOut(s4.memo, s4.stack, 2) == [Live(0)];
    assert [] + [Int(1)] == [Int(1)];
    var s5 := State(7, [List([]), List([Int(1)])], [], [Live(0)], [(0, 0)], 3);
    OneStep(buf, s4, Combine(Top(1), AddTo(KList), "APPEND"), s5, allow);
    ExampleReaderLast(s5, allow);
  }

  lemma ExampleReaderLast(s5: State, allow: Allowlist)
    requires s5 == State(7, [List([]), List([Int(1)])], [], [Live(0)], [(0, 0)], 3) && Inv(s5)
    ensures Run(FILL_AFTER_FETCH, s5, None, allow) == Ok(PAIR)
  {
    hide Lex, Inv, Run;
    ExampleInstructions();
    var buf := FILL_AFTER_FETCH;
    assert LiveBelow(s5.live, 0) == LiveBelow([], 0);
    assert CopyOut(s5.memo, s5.stack, 0) == [Value(List([]))];
    var s6 := State(8, [PAIR], [], [Value(List([]))], [], 4);
    OneStep(buf, s5, Combine(Top(2), MakeTuple, "TUPLE2"), s6, allow);
    ExampleStop(buf, s6, allow);
  }

  lemma ExampleStop(buf: seq<Byte>, s: State, allow: Allowlist)
    requires Inv(s) && s.pos <= |buf| && Lex(buf, s.pos) == Ok((Stop, 9)) && s.stack == [PAIR]
    ensures Run(buf, s, None, allow) == Ok(PAIR)
  {
    hide Lex, Inv;
  }

  lemma ExampleHeap(allow: Allowlist)
    ensures HDecode(FILL_AFTER_FETCH, allow).1.Ok? && !HDecode(FILL_AFTER_FETCH, allow).0.faithful
  {
    hide Lex, HRun;
    ExampleInstructions();
    var buf := FILL_AFTER_FETCH;
    var h1 := HState(1, [Addr(0)], [], [], [HeapCell(KList, [])], 1, {}, true);
    HOneStep(buf, HSTART, Push(List([])), h1, allow);
    var h2 := h1.(pos := 2, memo := [Addr(0)]);
    HOneStep(buf, h1, Memoize, h2, allow);
    var h3 := h2.(pos := 4, stack := [Addr(0), Addr(0)], objects := 2, fetched := {0});
    HOneStep(buf, h2, Get(0), h3, allow);
    var h4 := h3.(pos := 6, stack := [Addr(0), Addr(0), Atom(Int(1))], objects := 3);
    HOneStep(buf, h3, Push(Int(1)), h4, allow);
    ExampleHeapEnd(h4, allow);
  }

  lemma ExampleHeapEnd(h4: HState, allow: Allowlist)
    requires h4 == HState(6, [Addr(0), Addr(0), Atom(Int(1))], [], [Addr(0)], [HeapCell(KList, [])], 3, {0}, true)
    ensures HRun(FILL_AFTER_FETCH, h4, allow).1.Ok? && !HRun(FILL_AFTER_FETCH, h4, allow).0.faithful
  {
    hide Lex, HRun;
    ExampleInstructions();
    var buf := FILL_AFTER_FETCH;
    var filled := [HeapCell(KList, [Atom(Int(1))])];
    var h5 := h4.(pos := 7, stack := [Addr(0), Addr(0)], heap := filled, faithful := false);
    assert h4.stack[2..] == [Atom(Int(1))] && h4.stack[..2] == [Addr(0), Addr(0)];
    assert [] + [Atom(Int(1))] == [Atom(Int(1))];
    assert h4.heap[0 := filled[0]] == filled;
    HOneStep(buf, h4, Combine(Top(1), AddTo(KList), "APPEND"), h5, allow);
    var h6 := h5.(pos := 8, stack := [TupleRef([Addr(0), Addr(0)])], objects := 4);
    HOneStep(buf, h5, Combine(Top(2), MakeTuple, "TUPLE2"), h6, allow);
    ExampleHeapStop(buf, h6, allow);
  }

  lemma ExampleHeapStop(buf: seq<Byte>, h: HState, allow: Allowlist)
    requires h.marks == [] && h.pos <= |buf| && Lex(buf, h.pos) == Ok((Stop, 9)) && |h.stack| == 1
    ensures HRun(buf, h, allow) == (h, Ok(h.stack[0]))
  {
    hide Lex;
  }

  /**
   * Such a stream exists: natively both halves of the pair are the same list, the reader returns two different ones.
   */
  lemma FillAfterFetchDiffers(allow: Allowlist)
    ensures Decode(FILL_AFTER_FETCH, allow) == Ok(PAIR)
    ensures var (last, ended) := HDecode(FILL_AFTER_FETCH, allow);
            ended.Ok? && !last.faithful && !Denotes(last.heap, ended.value, PAIR)
  {
    PrescanChangesNothing(FILL_AFTER_FETCH, allow);
    ExampleReader(allow);
    ExampleHeap(allow);
    hide Decode, HDecode;
    DecodeMatchesHeap(FILL_AFTER_FETCH, allow);
  }
}
