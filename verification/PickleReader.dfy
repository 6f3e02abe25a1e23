/**
 * The stack machine of the pickle reader (`crates/pahoa-pickle/src/reader.rs`) as a function on states: value stack,
 * marks, and a memo whose slots are copied lazily.
 */
module PickleReader {
  import opened Common
  import opened PyObjects
  import opened PickleStream

  const MAX_STACK: nat := 256 * 4096
  const MAX_OBJECTS: nat := 4_000_000

  /** A memo entry: a copy, a container still on the stack, or one the stream never fetches. */
  datatype Slot = Value(v: PyObj) | Live(index: nat) | Unreferenced

  datatype State = State(
    pos: nat,
    stack: seq<PyObj>,
    marks: seq<nat>,
    memo: seq<Slot>,
    live: seq<(nat, nat)>,
    objects: nat)

  const START := State(0, [], [], [], [], 0)

  datatype Outcome = Next(s: State) | Done(v: PyObj) | Fail(error: Error)

  /** Marks ascend and never stand above the stack. */
  predicate MarksOk(marks: seq<nat>, height: nat) {
    && (forall i, j | 0 <= i <= j < |marks| :: marks[i] <= marks[j])
    && (marks != [] ==> Last(marks) <= height)
  }

  /** The live slots of a memo in order, each with the stack position it names. */
  ghost function LiveEntries(memo: seq<Slot>): seq<(nat, nat)> {
    if memo == [] then []
    else
      var m := |memo| - 1;
      LiveEntries(memo[..m]) + (if memo[m].Live? then [(memo[m].index, m)] else [])
  }

  ghost predicate MemoSorted(memo: seq<Slot>) {
    forall m, n | 0 <= m <= n < |memo| && memo[m].Live? && memo[n].Live? :: memo[m].index <= memo[n].index
  }

  ghost predicate LiveOnStack(memo: seq<Slot>, stack: seq<PyObj>) {
    forall m | 0 <= m < |memo| && memo[m].Live? :: memo[m].index < |stack| && IsContainer(stack[memo[m].index])
  }

  /**
   * What every state keeps: marks ascend below the stack height; the `live` list is exactly the live memo slots, by
   * ascending stack position, each naming a container still on the stack; and neither limit is passed.
   */
  ghost predicate Inv(s: State) {
    && MarksOk(s.marks, |s.stack|)
    && s.live == LiveEntries(s.memo)
    && MemoSorted(s.memo)
    && LiveOnStack(s.memo, s.stack)
    && s.objects <= MAX_OBJECTS
    && |s.stack| <= MAX_STACK
  }

  /** The entries of `live` that stay when the stack shrinks to `height`. */
  function LiveBelow(live: seq<(nat, nat)>, height: nat): (r: seq<(nat, nat)>)
    ensures r <= live
  {
    if live == [] then []
    else if Last(live).0 < height then live
    else LiveBelow(live[..|live| - 1], height)
  }

  /** Every live slot at or above `height` becomes a copy of its container. */
  function CopyOut(memo: seq<Slot>, stack: seq<PyObj>, height: nat): (r: seq<Slot>)
    ensures |r| == |memo|
    ensures forall m | 0 <= m < |memo| ::
              r[m] ==
                if memo[m].Live? && height <= memo[m].index < |stack| then Value(stack[memo[m].index]) else memo[m]
  {
    seq(|memo|, m requires 0 <= m < |memo| =>
      if memo[m].Live? && height <= memo[m].index < |stack| then Value(stack[memo[m].index]) else memo[m])
  }

  /** Copying out from the end of `live` until a position below `height` removes exactly the slots that were copied. */
  lemma {:induction false} CopyOutEntries(memo: seq<Slot>, stack: seq<PyObj>, height: nat)
    requires MemoSorted(memo) && LiveOnStack(memo, stack)
    ensures LiveEntries(CopyOut(memo, stack, height)) == LiveBelow(LiveEntries(memo), height)
  {
    if memo != [] {
      var m := |memo| - 1;
      assert CopyOut(memo, stack, height)[..m] == CopyOut(memo[..m], stack, height);
      if memo[m].Live? && memo[m].index < height {
        assert CopyOut(memo, stack, height) == memo;
      } else {
        CopyOutEntries(memo[..m], stack, height);
        var front := LiveEntries(memo[..m]);
        if memo[m].Live? {
          assert LiveEntries(memo) == front + [(memo[m].index, m)];
          assert LiveEntries(memo)[..|front|] == front;
        } else {
          assert LiveEntries(memo) == front;
        }
      }
    }
  }

  /** The stack cut back to `height`, containers that leave it copied to the memo first. */
  function Shrink(s: State, height: nat): (r: State)
    requires height <= |s.stack|
  {
    s.(
      stack := s.stack[..height],
      memo := CopyOut(s.memo, s.stack, height),
      live := LiveBelow(s.live, height))
  }

  lemma ShrinkKeepsInv(s: State, height: nat)
    requires Inv(s) && height <= |s.stack| && MarksOk(s.marks, height)
    ensures Inv(Shrink(s, height))
  {
    CopyOutEntries(s.memo, s.stack, height);
  }

  /** The lowest height the stack may be popped to: nothing reaches below the last mark. */
  function Floor(marks: seq<nat>): nat {
    if marks == [] then 0 else Last(marks)
  }

  /** The height an instruction pops the stack to, or the error when it would reach below its frame. */
  function GrabHeight(height: nat, marks: seq<nat>, grab: Grab, pos: nat, name: string): (r: Result<nat, Error>)
    requires MarksOk(marks, height)
    ensures r.Ok? ==> r.value <= height
  {
    match grab
    case Top(n) => if height < Floor(marks) + n then Err(StackUnderflow(pos, name)) else Ok(height - n)
    case ToMark => if marks == [] then Err(NoMark(pos, name)) else Ok(Last(marks))
  }

  function MarksAfter(marks: seq<nat>, grab: Grab): seq<nat> {
    if grab.ToMark? && marks != [] then marks[..|marks| - 1] else marks
  }

  /** Values taken off the stack, deepest first, and the state without them. */
  function Grabbed(s: State, grab: Grab, name: string): (r: Result<(State, seq<PyObj>), Error>)
    requires Inv(s)
    ensures r.Ok? ==> Inv(r.value.0) && r.value.0.pos == s.pos
    ensures r.Ok? && grab.Top? ==> |r.value.1| == grab.n
  {
    var height :- GrabHeight(|s.stack|, s.marks, grab, s.pos, name);
    var t := s.(marks := MarksAfter(s.marks, grab));
    assert Inv(t) && MarksOk(t.marks, height);
    ShrinkKeepsInv(t, height);
    Ok((Shrink(t, height), s.stack[height..]))
  }

  /** The one door through which a value reaches the stack, and where the two limits are enforced. */
  function Pushed(s: State, v: PyObj): (r: Outcome)
    ensures Inv(s) && r.Next? ==> Inv(r.s)
    ensures r.Next? ==> r.s.pos == s.pos
  {
    if |s.stack| >= MAX_STACK then Fail(TooDeep(s.pos))
    else if s.objects + 1 > MAX_OBJECTS then Fail(TooManyObjects(s.pos))
    else Next(s.(stack := s.stack + [v], objects := s.objects + 1))
  }

  function KindName(kind: Kind): string {
    match kind case KList => "list" case KSet => "set" case KDict => "dict"
  }

  function FoundName(stack: seq<PyObj>): string {
    if stack == [] then "nothing" else TypeName(Last(stack))
  }

  /** A container with more values in it. */
  function Extend(v: PyObj, items: seq<PyObj>): (r: PyObj)
    requires IsContainer(v)
    ensures HeadOf(r) == HeadOf(v)
    ensures !v.Dict? || |items| % 2 == 0 ==> Kids(r) == Kids(v) + items
  {
    match v
    case List(had) => List(had + items)
    case Set(had) => Set(had + items)
    case Dict(had) =>
      PairsExtend(had, items);
      Dict(had + PairUp(items))
  }

  lemma KidAt(pairs: seq<(PyObj, PyObj)>, k: nat)
    requires k < |pairs|
    ensures |Kids(Dict(pairs))| == 2 * |pairs|
    ensures Kids(Dict(pairs))[2 * k] == pairs[k].0 && Kids(Dict(pairs))[2 * k + 1] == pairs[k].1
  {
  }

  /** Place `odd` of pair `k`, before and after appending pairs. */
  lemma PairExtends(had: seq<(PyObj, PyObj)>, items: seq<PyObj>, k: nat, odd: nat)
    requires |items| % 2 == 0 && odd < 2 && k < |had + PairUp(items)|
    ensures |Kids(Dict(had + PairUp(items)))| == |Kids(Dict(had)) + items| == 2 * |had| + |items|
    ensures 2 * k + odd < 2 * |had| + |items|
    ensures Kids(Dict(had + PairUp(items)))[2 * k + odd] == (Kids(Dict(had)) + items)[2 * k + odd]
  {
    hide Kids, PairUp;
    var pairs, before := had + PairUp(items), Kids(Dict(had));
    KidCount(had);
    KidCount(pairs);
    PairUpCount(items);
    KidAt(pairs, k);
    if k < |had| {
      KidAt(had, k);
      assert (before + items)[2 * k + odd] == before[2 * k + odd];
    } else {
      var j := k - |had|;
      PairUpAt(items, j);
      assert pairs[k] == PairUp(items)[j];
      assert (before + items)[2 * k + odd] == items[2 * j + odd];
    }
  }

  lemma KidCount(pairs: seq<(PyObj, PyObj)>)
    ensures |Kids(Dict(pairs))| == 2 * |pairs|
  {
  }

  lemma PairUpCount(items: seq<PyObj>)
    ensures |PairUp(items)| == |items| / 2
  {
  }

  lemma PairUpAt(items: seq<PyObj>, j: nat)
    requires j < |items| / 2
    ensures |PairUp(items)| == |items| / 2 && PairUp(items)[j] == (items[2 * j], items[2 * j + 1])
  {
  }

  /** Pairs appended to a dictionary are its last keys and values, in order. */
  lemma PairsExtend(had: seq<(PyObj, PyObj)>, items: seq<PyObj>)
    ensures |items| % 2 == 0 ==> Kids(Dict(had + PairUp(items))) == Kids(Dict(had)) + items
  {
    if |items| % 2 == 0 {
      var before, all := Kids(Dict(had)), Kids(Dict(had + PairUp(items)));
      assert |all| == 2 * |had| + |items| == |before + items| && |had + PairUp(items)| == |had| + |items| / 2;
      hide Kids, PairUp;
      forall i | 0 <= i < |all| ensures all[i] == (before + items)[i] {
        PairExtends(had, items, i / 2, i % 2);
      }
    }
  }

  /** The container on top of the stack takes the values just popped. */
  function AddItems(s: State, kind: Kind, items: seq<PyObj>, at: nat, name: string): (r: Outcome)
    requires Inv(s)
    ensures r.Next? ==> Inv(r.s) && r.s.pos == s.pos
  {
    if kind.KDict? && |items| % 2 != 0 then Fail(OddSetItems(at))
    else if s.stack != [] && HeadOf(Last(s.stack)) == Cell(kind) then
      var top := |s.stack| - 1;
      var t := s.(stack := s.stack[..top] + [Extend(s.stack[top], items)]);
      assert forall i | 0 <= i < |s.stack| :: IsContainer(s.stack[i]) ==> IsContainer(t.stack[i]);
      Next(t)
    else Fail(TypeMismatch(at, name, KindName(kind), FoundName(s.stack)))
  }

  /** What an instruction makes of the values it took. */
  function Construct(s: State, build: Build, items: seq<PyObj>, at: nat, name: string, allow: Allowlist): (r: Outcome)
    requires Inv(s) && (build.MakeGlobal? || build.MakeInstance? ==> |items| == 2)
    ensures r.Next? ==> Inv(r.s) && r.s.pos == s.pos
  {
    match build
    case MakeTuple => Pushed(s, Tuple(items))
    case AddTo(kind) => AddItems(s, kind, items, at, name)
    case MakeGlobal =>
      if !(items[0].Str? && items[1].Str?) then Fail(TypeMismatch(at, name, "two strings", "something else"))
      else
        var c := ClassId(items[0].text, items[1].text);
        if !Permits(allow, c) then Fail(ForbiddenClass(at, c)) else Pushed(s, Global(c))
    case MakeInstance =>
      if !items[1].Tuple? then Fail(TypeMismatch(at, name, "tuple of arguments", TypeName(items[1])))
      else if !items[0].Global? then Fail(TypeMismatch(at, name, "class", TypeName(items[0])))
      else Pushed(s, Instance(items[0].class_, items[1].items))
  }

  /** Whether the stream ever fetches memo slot `index`; `None` means unknown, so track everything. */
  predicate IsReferenced(referenced: Option<set<nat>>, index: nat) {
    referenced.Some? ==> index % WORD_BASE in referenced.value
  }

  /** Containers are tracked by position while they are being filled; anything else is copied at once. */
  function MemoizeTop(s: State, referenced: Option<set<nat>>, at: nat): (r: Outcome)
    requires Inv(s)
    ensures r.Next? ==> Inv(r.s) && r.s.pos == s.pos
  {
    if s.stack == [] then Fail(StackUnderflow(at, "MEMOIZE"))
    else
      var top, index := |s.stack| - 1, |s.memo|;
      var slot := if !IsReferenced(referenced, index) then Unreferenced
                  else if IsContainer(s.stack[top]) then Live(top)
                  else Value(s.stack[top]);
      var live := s.live + if slot.Live? then [(top, index)] else [];
      MemoizeKeepsInv(s, slot, live);
      Next(s.(memo := s.memo + [slot], live := live))
  }

  lemma MemoizeKeepsInv(s: State, slot: Slot, live: seq<(nat, nat)>)
    requires Inv(s) && s.stack != []
    requires slot.Live? ==> slot.index == |s.stack| - 1 && IsContainer(Last(s.stack))
    requires live == s.live + if slot.Live? then [(slot.index, |s.memo|)] else []
    ensures Inv(s.(memo := s.memo + [slot], live := live))
  {
    assert (s.memo + [slot])[..|s.memo|] == s.memo;
  }

  function MemoGet(s: State, index: nat): Result<PyObj, Error>
    requires Inv(s)
  {
    if index >= |s.memo| then Err(BadMemo(s.pos, index, |s.memo|))
    else
      match s.memo[index]
      case Value(v) => Ok(v)
      case Live(i) => Ok(s.stack[i])
      case Unreferenced => Err(BadMemo(s.pos, index, |s.memo|))
  }

  /** Cutting the stack changes nothing that any later fetch sees. */
  lemma ShrinkKeepsFetches(s: State, height: nat, index: nat)
    requires Inv(s) && height <= |s.stack| && MarksOk(s.marks, height)
    ensures Inv(Shrink(s, height)) && MemoGet(Shrink(s, height), index) == MemoGet(s, index)
  {
    ShrinkKeepsInv(s, height);
    hide LiveEntries, MemoSorted, LiveBelow, MarksOk;
  }

  function Fetched(s: State, index: nat): (r: Outcome)
    requires Inv(s)
    ensures r.Next? ==> Inv(r.s) && r.s.pos == s.pos
  {
    match MemoGet(s, index)
    case Err(e) => Fail(e)
    case Ok(v) => Pushed(s, v)
  }

  function Combined(s: State, grab: Grab, build: Build, name: string, at: nat, allow: Allowlist): (r: Outcome)
    requires Inv(s) && WellShaped(Combine(grab, build, name))
    ensures r.Next? ==> Inv(r.s) && r.s.pos == s.pos
  {
    match Grabbed(s, grab, name)
    case Err(e) => Fail(e)
    case Ok((t, items)) => Construct(t, build, items, at, name, allow)
  }

  /** One instruction, its payload already consumed, so `s.pos` is past it; `at` is where it began. */
  function Execute(s: State, instr: Instr, at: nat, referenced: Option<set<nat>>, allow: Allowlist): (r: Outcome)
    requires Inv(s) && WellShaped(instr)
    ensures r.Next? ==> Inv(r.s) && r.s.pos == s.pos
  {
    match instr
    case Skip => Next(s)
    case Push(v) => Pushed(s, v)
    case PushMark => Next(s.(marks := s.marks + [|s.stack|]))
    case Combine(grab, build, name) => Combined(s, grab, build, name, at, allow)
    case Memoize => MemoizeTop(s, referenced, at)
    case Get(index) => Fetched(s, index)
    case Stop => if |s.stack| != 1 then Fail(UnbalancedStack(|s.stack|)) else Done(s.stack[0])
  }

  /** One turn of the decoding loop. */
  function Step(buf: seq<Byte>, s: State, referenced: Option<set<nat>>, allow: Allowlist): (r: Outcome)
    requires Inv(s) && s.pos <= |buf|
    ensures r.Next? ==> Inv(r.s) && s.pos < r.s.pos <= |buf|
  {
    match Lex(buf, s.pos)
    case Err(e) => Fail(e)
    case Ok((instr, next)) => Execute(s.(pos := next), instr, s.pos, referenced, allow)
  }

  function Run(buf: seq<Byte>, s: State, referenced: Option<set<nat>>, allow: Allowlist): Result<PyObj, Error>
    requires Inv(s) && s.pos <= |buf|
    decreases |buf| - s.pos
  {
    match Step(buf, s, referenced, allow)
    case Next(t) => Run(buf, t, referenced, allow)
    case Done(v) => Ok(v)
    case Fail(e) => Err(e)
  }

  /** The decoder as shipped: pre-scan the stream, then run the machine. */
  function Decode(buf: seq<Byte>, allow: Allowlist): Result<PyObj, Error> {
    Run(buf, START, ScanFrom(buf, 0), allow)
  }
}
