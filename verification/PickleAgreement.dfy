/**
 * The copying reader against the heap semantics, over whole streams: the same error at the same opcode always, and the
 * exact unfolding precisely when no container is filled after it was fetched from the memo.
 */
module PickleAgreement {
  import opened Common
  import opened PyObjects
  import opened PickleStream
  import opened PickleReader
  import opened PickleHeap
  import opened PickleViews
  import opened PickleFilling

  ghost function ViewOf(s: State, h: HState): View {
    View(h.heap, h.stack, s.stack, h.memo, s.memo, h.fetched)
  }

  /** Both machines at the same point of the same stream. */
  ghost predicate Abreast(s: State, h: HState) {
    Inv(s) && s.pos == h.pos && s.marks == h.marks && s.objects == h.objects && |s.stack| == |h.stack|
  }

  ghost predicate Related(s: State, h: HState) {
    && Abreast(s, h)
    && Loose(ViewOf(s, h))
    && (if h.faithful then Exact(ViewOf(s, h), |h.stack|) else Diverged(ViewOf(s, h)))
  }

  ghost predicate Agree(s: State, h: HState, o: Outcome, p: HOutcome) {
    match o
    case Next(t) => p.HNext? && Related(t, p.h)
    case Done(v) => p.HDone? && s.stack == [v] && h.stack == [p.root]
    case Fail(e) => p == HFail(e)
  }

  /** The relation with `height` entries left and the rest about to become one new entry. */
  ghost predicate Poised(w: View, height: nat, s: State, h: HState)
    requires height <= |w.refs| && height <= |w.vals|
  {
    && Abreast(s, h)
    && s.stack == w.vals[..height] && s.memo == w.memo
    && h.stack == w.refs[..height] && h.memo == w.hmemo
  }

  /** A deficit among the values taken is one of the new entry, which is no longer than its object. */
  ghost predicate EntryLacks(w: View, height: nat, heap: Heap, r: Ref, v: PyObj)
    requires height <= |w.refs| == |w.vals|
  {
    && |Kids(v)| <= |RefKids(heap, r)|
    && ((exists j | height <= j < |w.refs| :: Deficit(w.heap, w.refs[j], w.vals[j])) ==> Deficit(heap, r, v))
  }

  lemma PushAgrees(w: View, height: nat, s: State, h: HState, r: Ref, v: PyObj, t: View)
    requires Loose(w) && height <= |w.refs| && Poised(w, height, s, h)
    requires t == View(h.heap, w.refs[..height] + [r], w.vals[..height] + [v], w.hmemo, w.memo, h.fetched)
    requires Replaces(w, height, t, r, v) && SameHead(t.heap, r, v)
    requires h.faithful ==> Exact(w, height) && EntryFits(w, height, t, r, v)
    requires !h.faithful ==> Diverged(w) && EntryLacks(w, height, t.heap, r, v)
    ensures Agree(s, h, Pushed(s, v), HPushed(h, r))
  {
    hide Inv;
    ReplaceKeepsLoose(w, height, t, r, v);
    if h.faithful {
      ReplaceKeepsExact(w, height, t, r, v);
    } else {
      ReplaceKeepsDiverged(w, height, t, r, v);
    }
    match Pushed(s, v)
    case Next(u) => assert ViewOf(u, HPushed(h, r).h) == t;
    case _ =>
  }

  // What may be pushed, case by case.

  lemma TupleFits(w: View, height: nat, t: View)
    requires Exact(w, height) && height <= |w.refs| && t.heap == w.heap && t.fetched == w.fetched
    ensures EntryFits(w, height, t, TupleRef(w.refs[height..]), Tuple(w.vals[height..]))
  {
    var r, v := TupleRef(w.refs[height..]), Tuple(w.vals[height..]);
    assert Denotes(t.heap, r, v);
    forall i | 0 <= i < height && w.refs[i].Addr? && w.refs[i].a !in t.fetched ensures !Mentions(r, w.refs[i].a) {
      assert OwnedBy(w, i, w.refs[i].a);
    }
    forall a: nat | |t.heap| <= a ensures !Mentions(r, a) {
      assert !AnyMentions(w.refs, a);
    }
    forall j, a: nat | height <= j < |w.refs| && Reaches(w.heap, w.refs[j], w.vals[j], a)
      ensures Reaches(t.heap, r, v, a)
    {
      assert RefKids(t.heap, r)[j - height] == w.refs[j] && Kids(v)[j - height] == w.vals[j];
    }
  }

  lemma TupleLacks(w: View, height: nat)
    requires Loose(w) && height <= |w.refs|
    ensures EntryLacks(w, height, w.heap, TupleRef(w.refs[height..]), Tuple(w.vals[height..]))
  {
    var r, v := TupleRef(w.refs[height..]), Tuple(w.vals[height..]);
    if j :| height <= j < |w.refs| && Deficit(w.heap, w.refs[j], w.vals[j]) {
      assert RefKids(w.heap, r)[j - height] == w.refs[j] && Kids(v)[j - height] == w.vals[j];
    }
  }

  lemma LeafIsBare(heap: Heap, r: Ref, v: PyObj)
    requires SameHead(heap, r, v) && HeadOf(v).Leaf?
    ensures r == Atom(v) && Kids(v) == [] && RefKids(heap, r) == []
    ensures !Deficit(heap, r, v)
    ensures forall a: nat :: !Reaches(heap, r, v, a)
  {
  }

  lemma GlobalFits(w: View, height: nat, t: View, c: ClassId)
    requires Exact(w, height) && height + 2 == |w.refs| && t.heap == w.heap && t.fetched == w.fetched
    requires w.vals[height].Str? && w.vals[height + 1].Str?
    ensures EntryFits(w, height, t, Atom(Global(c)), Global(c))
  {
    LeafIsBare(w.heap, w.refs[height], w.vals[height]);
    LeafIsBare(w.heap, w.refs[height + 1], w.vals[height + 1]);
  }

  lemma GlobalLacks(w: View, height: nat, c: ClassId)
    requires Loose(w) && height + 2 == |w.refs| && w.vals[height].Str? && w.vals[height + 1].Str?
    ensures EntryLacks(w, height, w.heap, Atom(Global(c)), Global(c))
  {
    LeafIsBare(w.heap, w.refs[height], w.vals[height]);
    LeafIsBare(w.heap, w.refs[height + 1], w.vals[height + 1]);
  }

  lemma InstanceFits(w: View, height: nat, t: View, c: ClassId)
    requires Exact(w, height) && height + 2 == |w.refs| && t.heap == w.heap && t.fetched == w.fetched
    requires w.vals[height] == Global(c) && w.vals[height + 1].Tuple? && w.refs[height + 1].TupleRef?
    ensures EntryFits(w, height, t, InstanceRef(c, w.refs[height + 1].items), Instance(c, w.vals[height + 1].items))
  {
    var args, items := w.refs[height + 1], w.vals[height + 1];
    var r, v := InstanceRef(c, args.items), Instance(c, items.items);
    LeafIsBare(w.heap, w.refs[height], w.vals[height]);
    assert Denotes(w.heap, args, items);
    assert RefKids(t.heap, r) == RefKids(w.heap, args) && Kids(v) == Kids(items);
    forall i | 0 <= i < height && w.refs[i].Addr? && w.refs[i].a !in t.fetched ensures !Mentions(r, w.refs[i].a) {
      assert OwnedBy(w, i, w.refs[i].a);
      assert !Mentions(args, w.refs[i].a);
    }
    forall a: nat | |t.heap| <= a ensures !Mentions(r, a) {
      assert !AnyMentions(w.refs, a);
      assert !Mentions(args, a);
    }
  }

  lemma InstanceLacks(w: View, height: nat, c: ClassId)
    requires Loose(w) && CopiesShort(w) && height + 2 == |w.refs|
    requires w.vals[height] == Global(c) && w.vals[height + 1].Tuple? && w.refs[height + 1].TupleRef?
    ensures EntryLacks(w, height, w.heap, InstanceRef(c, w.refs[height + 1].items),
                       Instance(c, w.vals[height + 1].items))
  {
    LeafIsBare(w.heap, w.refs[height], w.vals[height]);
    var r, v := InstanceRef(c, w.refs[height + 1].items), Instance(c, w.vals[height + 1].items);
    assert RefKids(w.heap, r) == RefKids(w.heap, w.refs[height + 1]) && Kids(v) == Kids(w.vals[height + 1]);
    assert |Kids(w.vals[height + 1])| <= |RefKids(w.heap, w.refs[height + 1])|;
  }

  lemma LoadFits(w: View, t: View, v: PyObj)
    requires Exact(w, |w.refs|) && t.heap == HLoad(w.heap, v).1 && t.fetched == w.fetched
    requires !v.Instance? && Kids(v) == []
    ensures EntryFits(w, |w.refs|, t, HLoad(w.heap, v).0, v)
  {
    var r := HLoad(w.heap, v).0;
    assert Denotes(t.heap, r, v);
    forall i | 0 <= i < |w.refs| && w.refs[i].Addr? && w.refs[i].a !in t.fetched ensures !Mentions(r, w.refs[i].a) {
      assert SameHead(w.heap, w.refs[i], w.vals[i]);
    }
  }

  lemma FetchFits(w: View, t: View, k: nat, v: PyObj)
    requires Exact(w, |w.refs|) && k < |w.memo| && t.heap == w.heap
    requires t.fetched == if w.hmemo[k].Addr? then w.fetched + {w.hmemo[k].a} else w.fetched
    requires match w.memo[k]
             case Value(x) => v == x
             case Live(i) => i < |w.vals| && v == w.vals[i]
             case Unreferenced => false
    ensures EntryFits(w, |w.refs|, t, w.hmemo[k], v)
  {
    var r := w.hmemo[k];
    assert SlotTied(w, k);
    assert Denotes(t.heap, r, v) && SameHead(t.heap, r, v);
    forall i | 0 <= i < |w.refs| && w.refs[i].Addr? && w.refs[i].a !in t.fetched ensures !Mentions(r, w.refs[i].a) {
      assert OwnedBy(w, i, w.refs[i].a);
    }
    forall a: nat | |t.heap| <= a ensures !Mentions(r, a) {
      assert !AnyMentions(w.hmemo, a);
    }
  }

  // One instruction.

  lemma PushStep(s: State, h: HState, v: PyObj, at: nat, allow: Allowlist)
    requires Related(s, h) && WellShaped(Push(v))
    ensures Agree(s, h, Execute(s, Push(v), at, None, allow), HExecute(h, Push(v), at, allow))
  {
    hide Inv;
    var w := ViewOf(s, h);
    var n := |s.stack|;
    var (r, heap) := HLoad(h.heap, v);
    var t := View(heap, w.refs[..n] + [r], w.vals[..n] + [v], w.hmemo, w.memo, w.fetched);
    SettledAtTop(s, h);
    if h.faithful {
      LoadFits(w, t, v);
    }
    PushAgrees(w, n, s, h.(heap := heap), r, v, t);
  }

  lemma SettledAtTop(s: State, h: HState)
    requires Related(s, h)
    ensures SettledAbove(ViewOf(s, h), |s.stack|)
  {
    var w := ViewOf(s, h);
    forall k | 0 <= k < |w.memo| && w.memo[k].Live? ensures w.memo[k].index < |s.stack| {
      assert SlotTied(w, k);
    }
  }

  lemma FetchStep(s: State, h: HState, index: nat, at: nat, allow: Allowlist)
    requires Related(s, h)
    ensures Agree(s, h, Execute(s, Get(index), at, None, allow), HExecute(h, Get(index), at, allow))
  {
    hide LiveEntries, MemoSorted, LiveOnStack, Kids;
    var w := ViewOf(s, h);
    if index < |s.memo| {
      assert SlotTied(w, index);
      var n := |s.stack|;
      var v := MemoGet(s, index).value;
      var r := h.memo[index];
      var g := h.(fetched := if r.Addr? then h.fetched + {r.a} else h.fetched);
      var t := View(w.heap, w.refs[..n] + [r], w.vals[..n] + [v], w.hmemo, w.memo, g.fetched);
      SettledAtTop(s, h);
      assert SameHead(t.heap, r, v);
      if h.faithful {
        FetchFits(w, t, index, v);
      } else {
        assert |Kids(v)| <= |RefKids(w.heap, r)|;
      }
      PushAgrees(w, n, s, g, r, v, t);
    }
  }

  lemma MemoizeStep(s: State, h: HState, at: nat, allow: Allowlist)
    requires Related(s, h)
    ensures Agree(s, h, Execute(s, Memoize, at, None, allow), HExecute(h, Memoize, at, allow))
  {
    hide Kids, LiveEntries, MemoSorted, LiveOnStack, Exact, Diverged;
    if s.stack != [] {
      var w := ViewOf(s, h);
      var t := Execute(s, Memoize, at, None, allow).s;
      var g := HExecute(h, Memoize, at, allow).h;
      assert Memoizes(w, ViewOf(t, g));
      MemoizeKeepsLoose(w, ViewOf(t, g));
      if h.faithful {
        MemoizeKeepsExact(w, ViewOf(t, g));
      } else {
        MemoizeKeepsDiverged(w, ViewOf(t, g));
      }
    }
  }

  /** After the values above `height` are taken: both machines hold them, and the memo has copied them out. */
  ghost predicate Taken(w: View, height: nat, s: State, h: HState) {
    && height <= |w.refs| && Loose(w) && SettledAbove(w, height)
    && w.heap == h.heap && w.fetched == h.fetched
    && Poised(w, height, s, h)
    && (if h.faithful then Exact(w, height) else Diverged(w))
  }

  lemma MakeTupleStep(w: View, height: nat, s: State, h: HState)
    requires Taken(w, height, s, h)
    ensures Agree(s, h, Pushed(s, Tuple(w.vals[height..])), HPushed(h, TupleRef(w.refs[height..])))
  {
    hide Inv;
    var r, v := TupleRef(w.refs[height..]), Tuple(w.vals[height..]);
    var t := View(w.heap, w.refs[..height] + [r], w.vals[..height] + [v], w.hmemo, w.memo, w.fetched);
    if h.faithful { TupleFits(w, height, t); } else { TupleLacks(w, height); }
    PushAgrees(w, height, s, h, r, v, t);
  }

  lemma MakeGlobalStep(w: View, height: nat, s: State, h: HState, at: nat, name: string, allow: Allowlist)
    requires Taken(w, height, s, h) && height + 2 == |w.refs|
    ensures Agree(s, h, Construct(s, MakeGlobal, w.vals[height..], at, name, allow),
                  HConstruct(h, MakeGlobal, w.refs[height..], at, name, allow))
  {
    hide Inv;
    var a, b := w.vals[height], w.vals[height + 1];
    assert SameHead(w.heap, w.refs[height], a) && SameHead(w.heap, w.refs[height + 1], b);
    if a.Str? && b.Str? {
      LeafIsBare(w.heap, w.refs[height], a);
      LeafIsBare(w.heap, w.refs[height + 1], b);
      var c := ClassId(a.text, b.text);
      var r, v := Atom(Global(c)), Global(c);
      var t := View(w.heap, w.refs[..height] + [r], w.vals[..height] + [v], w.hmemo, w.memo, w.fetched);
      if h.faithful { GlobalFits(w, height, t, c); } else { GlobalLacks(w, height, c); }
      PushAgrees(w, height, s, h, r, v, t);
    }
  }

  lemma SameName(heap: Heap, r: Ref, v: PyObj)
    requires SameHead(heap, r, v)
    ensures HeadName(RefHead(heap, r)) == TypeName(v)
  {
  }

  lemma MakeInstanceStep(w: View, height: nat, s: State, h: HState, at: nat, name: string, allow: Allowlist)
    requires Taken(w, height, s, h) && height + 2 == |w.refs|
    ensures Agree(s, h, Construct(s, MakeInstance, w.vals[height..], at, name, allow),
                  HConstruct(h, MakeInstance, w.refs[height..], at, name, allow))
  {
    hide Inv;
    var a, b := w.vals[height], w.vals[height + 1];
    SameName(w.heap, w.refs[height], a);
    SameName(w.heap, w.refs[height + 1], b);
    if a.Global? && b.Tuple? {
      LeafIsBare(w.heap, w.refs[height], a);
      var c := a.class_;
      var r, v := InstanceRef(c, w.refs[height + 1].items), Instance(c, b.items);
      var t := View(w.heap, w.refs[..height] + [r], w.vals[..height] + [v], w.hmemo, w.memo, w.fetched);
      if h.faithful { InstanceFits(w, height, t, c); } else { InstanceLacks(w, height, c); }
      PushAgrees(w, height, s, h, r, v, t);
    }
  }

  lemma AddItemsStep(w: View, height: nat, s: State, h: HState, kind: Kind, at: nat, name: string)
    requires Taken(w, height, s, h)
    ensures Agree(s, h, AddItems(s, kind, w.vals[height..], at, name), HAddItems(h, kind, w.refs[height..], at, name))
  {
    hide Inv, Exact, Diverged, Extend, Kids;
    if kind.KDict? && (|w.refs| - height) % 2 != 0 {
      return;
    }
    if height == 0 {
      return;
    }
    var top := height - 1;
    SameName(w.heap, w.refs[top], w.vals[top]);
    if HeadOf(w.vals[top]) == Cell(kind) {
      var a := w.refs[top].a;
      FillStep(w, height, s, h, kind, at, name);
    }
  }

  lemma FillStep(w: View, height: nat, s: State, h: HState, kind: Kind, at: nat, name: string)
    requires Taken(w, height, s, h) && height > 0 && HeadOf(w.vals[height - 1]) == Cell(kind)
    requires kind.KDict? ==> (|w.refs| - height) % 2 == 0
    ensures Agree(s, h, AddItems(s, kind, w.vals[height..], at, name), HAddItems(h, kind, w.refs[height..], at, name))
  {
    hide Inv, Exact, Diverged, Extend, Kids;
    assert SameHead(w.heap, w.refs[height - 1], w.vals[height - 1]);
    var a := w.refs[height - 1].a;
    var t := AddItems(s, kind, w.vals[height..], at, name).s;
    var g := HAddItems(h, kind, w.refs[height..], at, name).h;
    assert Fills(w, height, ViewOf(t, g), a);
    assert g.faithful == (h.faithful && (height == |w.refs| || a !in w.fetched));
    FillRelates(w, height, ViewOf(t, g), a, h.faithful, g.faithful);
  }

  lemma FillRelates(w: View, height: nat, t: View, a: nat, before: bool, after: bool)
    requires Loose(w) && Fills(w, height, t, a) && (if before then Exact(w, height) else Diverged(w))
    requires after == (before && (height == |w.refs| || a !in w.fetched))
    ensures Loose(t) && if after then Exact(t, |t.refs|) else Diverged(t)
  {
    hide Exact, Diverged;
    FillKeepsLoose(w, height, t, a);
    if !before {
      FillKeepsDiverged(w, height, t, a);
    } else if after {
      FillKeepsExact(w, height, t, a);
    } else {
      FillDiverges(w, height, t, a);
    }
  }

  ghost function HTaken(h: HState, grab: Grab, height: nat): HState
    requires height <= |h.stack|
  {
    h.(marks := MarksAfter(h.marks, grab), stack := h.stack[..height])
  }

  lemma TakeStep(s: State, h: HState, grab: Grab, name: string, height: nat)
    requires Related(s, h) && GrabHeight(|s.stack|, s.marks, grab, s.pos, name) == Ok(height)
    ensures var w := CopyView(ViewOf(s, h), height);
            && Grabbed(s, grab, name).Ok?
            && Taken(w, height, Grabbed(s, grab, name).value.0, HTaken(h, grab, height))
            && Grabbed(s, grab, name).value.1 == w.vals[height..] && h.stack[height..] == w.refs[height..]
            && |w.vals| == |w.refs| == |s.stack|
  {
    hide Exact, Diverged, Loose, LiveEntries, MemoSorted, LiveOnStack;
    CopyRelation(ViewOf(s, h), height, h.faithful);
  }

  lemma CopyRelation(w: View, height: nat, faithful: bool)
    requires Loose(w) && height <= |w.refs| && if faithful then Exact(w, |w.refs|) else Diverged(w)
    ensures var c := CopyView(w, height);
            Loose(c) && SettledAbove(c, height) && if faithful then Exact(c, height) else Diverged(c)
  {
    CopyKeepsLoose(w, height);
    if faithful {
      CopyKeepsExact(w, height);
    } else {
      CopyKeepsDiverged(w, height);
    }
  }

  lemma BuildStep(w: View, height: nat, t: State, g: HState, build: Build, at: nat, name: string, allow: Allowlist)
    requires Taken(w, height, t, g) && (build.MakeGlobal? || build.MakeInstance? ==> height + 2 == |w.refs|)
    ensures Agree(t, g, Construct(t, build, w.vals[height..], at, name, allow),
                  HConstruct(g, build, w.refs[height..], at, name, allow))
  {
    match build
    case MakeTuple => MakeTupleStep(w, height, t, g);
    case AddTo(kind) => AddItemsStep(w, height, t, g, kind, at, name);
    case MakeGlobal => MakeGlobalStep(w, height, t, g, at, name, allow);
    case MakeInstance => MakeInstanceStep(w, height, t, g, at, name, allow);
  }

  lemma CombineStep(s: State, h: HState, grab: Grab, build: Build, name: string, at: nat, allow: Allowlist)
    requires Related(s, h) && WellShaped(Combine(grab, build, name))
    ensures Agree(s, h, Execute(s, Combine(grab, build, name), at, None, allow),
                  HExecute(h, Combine(grab, build, name), at, allow))
  {
    match GrabHeight(|s.stack|, s.marks, grab, s.pos, name)
    case Err(_) =>
    case Ok(height) =>
      hide Loose, Exact, Diverged, Inv, Construct, HConstruct;
      TakeStep(s, h, grab, name, height);
      var w := CopyView(ViewOf(s, h), height);
      var t, g := Grabbed(s, grab, name).value.0, HTaken(h, grab, height);
      BuildStep(w, height, t, g, build, at, name, allow);
      BuiltStates(t, build, w.vals[height..], at, name, allow);
  }

  /** Building never ends a run. */
  lemma BuiltStates(s: State, build: Build, items: seq<PyObj>, at: nat, name: string, allow: Allowlist)
    requires Inv(s) && (build.MakeGlobal? || build.MakeInstance? ==> |items| == 2)
    ensures !Construct(s, build, items, at, name, allow).Done?
  {
  }

  lemma PlainStep(s: State, h: HState, instr: Instr, at: nat, allow: Allowlist)
    requires Related(s, h) && (instr.Skip? || instr.PushMark? || instr.Stop?)
    ensures Agree(s, h, Execute(s, instr, at, None, allow), HExecute(h, instr, at, allow))
  {
    hide Loose, Exact, Diverged, LiveEntries, MemoSorted, LiveOnStack;
  }

  lemma InstructionAgrees(s: State, h: HState, instr: Instr, at: nat, allow: Allowlist)
    requires Related(s, h) && WellShaped(instr)
    ensures Agree(s, h, Execute(s, instr, at, None, allow), HExecute(h, instr, at, allow))
  {
    hide Execute, HExecute, Agree, Loose, Exact, Diverged, Inv;
    match instr
    case Push(v) => PushStep(s, h, v, at, allow);
    case Combine(grab, build, name) => CombineStep(s, h, grab, build, name, at, allow);
    case Memoize => MemoizeStep(s, h, at, allow);
    case Get(index) => FetchStep(s, h, index, at, allow);
    case _ => PlainStep(s, h, instr, at, allow);
  }

  // Whole streams.

  lemma {:induction false} RunsAgree(buf: seq<Byte>, s: State, h: HState, allow: Allowlist)
    requires Related(s, h) && s.pos <= |buf|
    ensures var (last, ended) := HRun(buf, h, allow);
            match Run(buf, s, None, allow)
            case Err(e) => ended == Err(e)
            case Ok(v) => ended.Ok? && (Denotes(last.heap, ended.value, v) <==> last.faithful)
    decreases |buf| - s.pos
  {
    hide Lex, Execute, HExecute;
    match Lex(buf, s.pos)
    case Err(_) =>
    case Ok((instr, next)) =>
      var t, g := s.(pos := next), h.(pos := next);
      assert ViewOf(t, g) == ViewOf(s, h);
      InstructionAgrees(t, g, instr, s.pos, allow);
      match Execute(t, instr, s.pos, None, allow)
      case Next(u) => RunsAgree(buf, u, HExecute(g, instr, s.pos, allow).h, allow);
      case Done(v) =>
        if !h.faithful {
          var w := ViewOf(s, h);
          var i :| 0 <= i < |w.refs| && Deficit(w.heap, w.refs[i], w.vals[i]);
          DeficitIsNoUnfolding(w.heap, w.refs[i], w.vals[i]);
        }
      case Fail(_) =>
  }
}
