/**
 * The reference semantics of a stream: objects live on a heap, the stack and the memo hold references, and fetching
 * from the memo yields the very object, as the format's native runtime does. Used to judge the copying reader.
 */
module PickleHeap {
  import opened Common
  import opened PyObjects
  import opened PickleStream
  import opened PickleReader

  /** Mutable containers are addresses; everything else is an immutable value. */
  datatype Ref = Atom(v: PyObj) | TupleRef(items: seq<Ref>) | InstanceRef(class_: ClassId,
                      items: seq<Ref>) | Addr(a: nat)

  datatype HeapCell = HeapCell(kind: Kind, items: seq<Ref>)

  type Heap = seq<HeapCell>

  /**
   * `fetched` and `faithful` are history: what a memo fetch has returned, and whether none of it was filled further.
   */
  datatype HState = HState(
    pos: nat,
    stack: seq<Ref>,
    marks: seq<nat>,
    memo: seq<Ref>,
    heap: Heap,
    objects: nat,
    fetched: set<nat>,
    faithful: bool)

  const HSTART := HState(0, [], [], [], [], 0, {}, true)

  datatype HOutcome = HNext(h: HState) | HDone(root: Ref) | HFail(error: Error)

  function RefHead(heap: Heap, r: Ref): Head {
    match r
    case Atom(v) => Leaf(v)
    case TupleRef(_) => TupleHead
    case InstanceRef(c, _) => InstanceHead(c)
    case Addr(a) => if a < |heap| then Cell(heap[a].kind) else Leaf(Tuple([]))
  }

  function RefKids(heap: Heap, r: Ref): seq<Ref> {
    match r
    case Atom(_) => []
    case TupleRef(items) => items
    case InstanceRef(_, items) => items
    case Addr(a) => if a < |heap| then heap[a].items else []
  }

  /** A reference unfolds to a value: same head, and every reference inside unfolds to the value at its place. */
  ghost predicate Denotes(heap: Heap, r: Ref, v: PyObj)
    decreases v
  {
    && RefHead(heap, r) == HeadOf(v)
    && |RefKids(heap, r)| == |Kids(v)|
    && forall i | 0 <= i < |Kids(v)| :: Denotes(heap, RefKids(heap, r)[i], Kids(v)[i])
  }

  /** Unfolding is a partial function: a reference has at most one value, and a cyclic one has none. */
  lemma {:induction false} DenotesUnique(heap: Heap, r: Ref, v: PyObj, w: PyObj)
    requires Denotes(heap, r, v) && Denotes(heap, r, w)
    ensures v == w
    decreases v
  {
    forall i | 0 <= i < |Kids(v)| ensures Kids(v)[i] == Kids(w)[i] {
      DenotesUnique(heap, RefKids(heap, r)[i], Kids(v)[i], Kids(w)[i]);
    }
    HeadAndKidsDetermine(v, w);
  }

  function HeadName(head: Head): string {
    match head
    case Leaf(v) => TypeName(v)
    case Cell(kind) => KindName(kind)
    case TupleHead => "tuple"
    case InstanceHead(_) => "instance"
  }

  /** Fresh containers get a new cell. */
  function HLoad(heap: Heap, v: PyObj): (Ref, Heap) {
    match HeadOf(v)
    case Leaf(_) => (Atom(v), heap)
    case Cell(kind) => (Addr(|heap|), heap + [HeapCell(kind, [])])
    case _ => (TupleRef([]), heap)
  }

  /** `t` continues `h`: same position and marks, and the stack no lower. */
  predicate Continues(h: HState, t: HState) {
    t.pos == h.pos && t.marks == h.marks && |t.stack| >= |h.stack|
  }

  function HPushed(h: HState, r: Ref): (o: HOutcome)
    ensures o.HNext? ==> Continues(h, o.h)
  {
    if |h.stack| >= MAX_STACK then HFail(TooDeep(h.pos))
    else if h.objects + 1 > MAX_OBJECTS then HFail(TooManyObjects(h.pos))
    else HNext(h.(stack := h.stack + [r], objects := h.objects + 1))
  }

  function HFoundName(h: HState): string {
    if h.stack == [] then "nothing" else HeadName(RefHead(h.heap, Last(h.stack)))
  }

  /** Filling a container changes its cell, seen through every reference to it. */
  function HAddItems(h: HState, kind: Kind, items: seq<Ref>, at: nat, name: string): (r: HOutcome)
    ensures r.HNext? ==> Continues(h, r.h)
  {
    if kind.KDict? && |items| % 2 != 0 then HFail(OddSetItems(at))
    else if h.stack != [] && Last(h.stack).Addr? && RefHead(h.heap, Last(h.stack)) == Cell(kind) then
      var a := Last(h.stack).a;
      HNext(h.(
        heap := h.heap[a := HeapCell(kind, h.heap[a].items + items)],
        faithful := h.faithful && (items == [] || a !in h.fetched)))
    else HFail(TypeMismatch(at, name, KindName(kind), HFoundName(h)))
  }

  predicate IsText(r: Ref) {
    r.Atom? && r.v.Str?
  }

  function HConstruct(h: HState, build: Build, items: seq<Ref>, at: nat, name: string, allow: Allowlist): (r: HOutcome)
    requires build.MakeGlobal? || build.MakeInstance? ==> |items| == 2
    ensures r.HNext? ==> Continues(h, r.h)
  {
    match build
    case MakeTuple => HPushed(h, TupleRef(items))
    case AddTo(kind) => HAddItems(h, kind, items, at, name)
    case MakeGlobal =>
      if !(IsText(items[0]) && IsText(items[1])) then HFail(TypeMismatch(at, name, "two strings", "something else"))
      else
        var c := ClassId(items[0].v.text, items[1].v.text);
        if !Permits(allow, c) then HFail(ForbiddenClass(at, c)) else HPushed(h, Atom(Global(c)))
    case MakeInstance =>
      if !items[1].TupleRef? then
        HFail(TypeMismatch(at, name, "tuple of arguments", HeadName(RefHead(h.heap, items[1]))))
      else if !(items[0].Atom? && items[0].v.Global?) then
        HFail(TypeMismatch(at, name, "class", HeadName(RefHead(h.heap, items[0]))))
      else HPushed(h, InstanceRef(items[0].v.class_, items[1].items))
  }

  function HCombined(h: HState, grab: Grab, build: Build, name: string, at: nat, allow: Allowlist): (r: HOutcome)
    requires MarksOk(h.marks, |h.stack|) && WellShaped(Combine(grab, build, name))
    ensures r.HNext? ==> MarksOk(r.h.marks, |r.h.stack|) && r.h.pos == h.pos
  {
    match GrabHeight(|h.stack|, h.marks, grab, h.pos, name)
    case Err(e) => HFail(e)
    case Ok(height) =>
      var t := h.(marks := MarksAfter(h.marks, grab), stack := h.stack[..height]);
      assert MarksOk(t.marks, height);
      HConstruct(t, build, h.stack[height..], at, name, allow)
  }

  function HExecute(h: HState, instr: Instr, at: nat, allow: Allowlist): (r: HOutcome)
    requires MarksOk(h.marks, |h.stack|) && WellShaped(instr)
    ensures r.HNext? ==> MarksOk(r.h.marks, |r.h.stack|) && r.h.pos == h.pos
  {
    match instr
    case Skip => HNext(h)
    case Push(v) =>
      var (r, heap) := HLoad(h.heap, v);
      HPushed(h.(heap := heap), r)
    case PushMark => HNext(h.(marks := h.marks + [|h.stack|]))
    case Combine(grab, build, name) => HCombined(h, grab, build, name, at, allow)
    case Memoize =>
      if h.stack == [] then HFail(StackUnderflow(at, "MEMOIZE")) else HNext(h.(memo := h.memo + [Last(h.stack)]))
    case Get(index) =>
      if index >= |h.memo| then HFail(BadMemo(h.pos, index, |h.memo|))
      else
        var r := h.memo[index];
        HPushed(h.(fetched := if r.Addr? then h.fetched + {r.a} else h.fetched), r)
    case Stop => if |h.stack| != 1 then HFail(UnbalancedStack(|h.stack|)) else HDone(h.stack[0])
  }

  function HStep(buf: seq<Byte>, h: HState, allow: Allowlist): (r: HOutcome)
    requires MarksOk(h.marks, |h.stack|) && h.pos <= |buf|
    ensures r.HNext? ==> MarksOk(r.h.marks, |r.h.stack|) && h.pos < r.h.pos <= |buf|
  {
    match Lex(buf, h.pos)
    case Err(e) => HFail(e)
    case Ok((instr, next)) => HExecute(h.(pos := next), instr, h.pos, allow)
  }

  /** The last state of a run and how it ended. */
  function HRun(buf: seq<Byte>, h: HState, allow: Allowlist): (r: (HState, Result<Ref, Error>))
    requires MarksOk(h.marks, |h.stack|) && h.pos <= |buf|
    decreases |buf| - h.pos
  {
    match HStep(buf, h, allow)
    case HNext(t) => HRun(buf, t, allow)
    case HDone(root) => (h, Ok(root))
    case HFail(e) => (h, Err(e))
  }

  function HDecode(buf: seq<Byte>, allow: Allowlist): (HState, Result<Ref, Error>) {
    HRun(buf, HSTART, allow)
  }
}
