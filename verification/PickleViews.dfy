/**
 * The relation between the copying reader and the heap semantics: which references are shared, which are owned by one
 * stack position, and what a copy lacks once its original has been filled further.
 */
module PickleViews {
  import opened PyObjects
  import opened PickleReader
  import opened PickleHeap

  /** Both machines side by side: references and values on the stack, references and slots in the memo. */
  datatype View = View(
    heap: Heap,
    refs: seq<Ref>,
    vals: seq<PyObj>,
    hmemo: seq<Ref>,
    memo: seq<Slot>,
    fetched: set<nat>)

  ghost predicate SameHead(heap: Heap, r: Ref, v: PyObj) {
    RefHead(heap, r) == HeadOf(v)
  }

  /** A slot stands for what the heap machine remembers: a copy of the same head, or the same stack position. */
  ghost predicate SlotTied(w: View, k: nat)
    requires k < |w.hmemo| && k < |w.memo|
  {
    match w.memo[k]
    case Value(v) => SameHead(w.heap, w.hmemo[k], v)
    case Live(i) => i < |w.refs| && w.hmemo[k] == w.refs[i]
    case Unreferenced => false
  }

  /** What always holds, whatever is filled after a fetch: the two machines agree on heads. */
  ghost predicate Loose(w: View) {
    && |w.refs| == |w.vals|
    && |w.hmemo| == |w.memo|
    && (forall i | 0 <= i < |w.refs| :: SameHead(w.heap, w.refs[i], w.vals[i]))
    && (forall k | 0 <= k < |w.memo| :: SlotTied(w, k))
  }

  /** The reference mentions address `a` outside the heap: it is `a`, or an immutable value around it. */
  ghost predicate Mentions(r: Ref, a: nat) {
    match r
    case Atom(_) => false
    case Addr(b) => a == b
    case TupleRef(items) => exists k | 0 <= k < |items| :: Mentions(items[k], a)
    case InstanceRef(_, items) => exists k | 0 <= k < |items| :: Mentions(items[k], a)
  }

  ghost predicate AnyMentions(items: seq<Ref>, a: nat) {
    exists k | 0 <= k < |items| :: Mentions(items[k], a)
  }

  ghost predicate NoCellMentions(heap: Heap, a: nat) {
    forall b | 0 <= b < |heap| :: !AnyMentions(heap[b].items, a)
  }

  /** Following references from `r` along the shape of `v` meets address `a`. */
  ghost predicate Reaches(heap: Heap, r: Ref, v: PyObj, a: nat)
    decreases v
  {
    || r == Addr(a)
    || exists k | 0 <= k < |Kids(v)| && k < |RefKids(heap, r)| :: Reaches(heap, RefKids(heap, r)[k], Kids(v)[k], a)
  }

  /** Somewhere inside `v` a container holds fewer values than the object it is a copy of. */
  ghost predicate Deficit(heap: Heap, r: Ref, v: PyObj)
    decreases v
  {
    || |Kids(v)| < |RefKids(heap, r)|
    || (|Kids(v)| == |RefKids(heap, r)|
        && exists k | 0 <= k < |Kids(v)| :: Deficit(heap, RefKids(heap, r)[k], Kids(v)[k]))
  }

  ghost predicate RootReaches(w: View, a: nat, skip: int)
    requires |w.refs| == |w.vals|
  {
    exists i | 0 <= i < |w.refs| && i != skip :: Reaches(w.heap, w.refs[i], w.vals[i], a)
  }

  ghost predicate AllDenote(w: View)
    requires Loose(w)
  {
    && (forall i | 0 <= i < |w.refs| :: Denotes(w.heap, w.refs[i], w.vals[i]))
    && (forall k | 0 <= k < |w.memo| && w.memo[k].Value? :: Denotes(w.heap, w.hmemo[k], w.memo[k].v))
  }

  /** Nothing mentions an address that has not been allocated. */
  ghost predicate Bounded(w: View) {
    && (forall a: nat | |w.heap| <= a ::
          NoCellMentions(w.heap, a) && !AnyMentions(w.refs, a) && !AnyMentions(w.hmemo, a))
    && (forall a | a in w.fetched :: a < |w.heap|)
  }

  /** The container at position `i` is mentioned nowhere else, and its memo slots are the live ones of `i`. */
  ghost predicate OwnedBy(w: View, i: nat, a: nat)
    requires |w.hmemo| == |w.memo|
  {
    && (forall j | 0 <= j < |w.refs| && j != i :: !Mentions(w.refs[j], a))
    && NoCellMentions(w.heap, a)
    && (forall k | 0 <= k < |w.hmemo| && Mentions(w.hmemo[k], a) :: w.memo[k] == Live(i))
  }

  /** Below `height`, a container never fetched is owned by its stack position. */
  ghost predicate Ownership(w: View, height: nat)
    requires |w.hmemo| == |w.memo|
  {
    forall i | 0 <= i < height && i < |w.refs| && w.refs[i].Addr? && w.refs[i].a !in w.fetched ::
      OwnedBy(w, i, w.refs[i].a)
  }

  /** No object is ever lost: each can be reached from the stack. */
  ghost predicate AllReached(w: View)
    requires |w.refs| == |w.vals|
  {
    forall a | 0 <= a < |w.heap| :: RootReaches(w, a, -1)
  }

  /** Below `height`, a fetched container can be reached from a second place as well. */
  ghost predicate Duplicated(w: View, height: nat)
    requires |w.refs| == |w.vals|
  {
    forall i | 0 <= i < height && i < |w.refs| && w.refs[i].Addr? && w.refs[i].a in w.fetched ::
      RootReaches(w, w.refs[i].a, i)
  }

  /** The relation while no fetched container has been filled: every value is an exact unfolding. */
  ghost predicate Exact(w: View, height: nat) {
    && Loose(w)
    && AllDenote(w)
    && Bounded(w)
    && Ownership(w, height)
    && AllReached(w)
    && Duplicated(w, height)
  }

  /** No copy holds more than its original. */
  ghost predicate CopiesShort(w: View)
    requires Loose(w)
  {
    && (forall i | 0 <= i < |w.refs| :: |Kids(w.vals[i])| <= |RefKids(w.heap, w.refs[i])|)
    && (forall k | 0 <= k < |w.memo| && w.memo[k].Value? :: |Kids(w.memo[k].v)| <= |RefKids(w.heap, w.hmemo[k])|)
  }

  ghost predicate Lacking(w: View)
    requires |w.refs| == |w.vals|
  {
    exists i | 0 <= i < |w.refs| :: Deficit(w.heap, w.refs[i], w.vals[i])
  }

  /** The relation once a fetched container has been filled: some value on the stack lacks what its object has. */
  ghost predicate Diverged(w: View) {
    Loose(w) && CopiesShort(w) && Lacking(w)
  }

  // Heaps only grow.

  ghost predicate GrowsTo(heap: Heap, next: Heap) {
    && |heap| <= |next|
    && forall b | 0 <= b < |heap| :: next[b].kind == heap[b].kind && heap[b].items <= next[b].items
  }

  /** Only the cell at `a` differs. */
  ghost predicate OnlyAt(heap: Heap, next: Heap, a: nat) {
    && |heap| <= |next|
    && forall b | 0 <= b < |heap| && b != a :: next[b] == heap[b]
  }

  lemma {:induction false} DenotesFrame(heap: Heap, next: Heap, a: nat, r: Ref, v: PyObj)
    requires Denotes(heap, r, v) && OnlyAt(heap, next, a)
    requires !Mentions(r, a) && NoCellMentions(heap, a)
    ensures Denotes(next, r, v)
    decreases v
  {
    assert RefKids(next, r) == RefKids(heap, r);
    forall i | 0 <= i < |Kids(v)| ensures Denotes(next, RefKids(heap, r)[i], Kids(v)[i]) {
      assert !Mentions(RefKids(heap, r)[i], a);
      DenotesFrame(heap, next, a, RefKids(heap, r)[i], Kids(v)[i]);
    }
  }

  lemma {:induction false} ReachesGrows(heap: Heap, next: Heap, r: Ref, v: PyObj, a: nat)
    requires GrowsTo(heap, next) && Reaches(heap, r, v, a)
    ensures Reaches(next, r, v, a)
    decreases v
  {
    if r != Addr(a) {
      var k :| 0 <= k < |Kids(v)| && k < |RefKids(heap, r)| && Reaches(heap, RefKids(heap, r)[k], Kids(v)[k], a);
      ReachesGrows(heap, next, RefKids(heap, r)[k], Kids(v)[k], a);
      assert RefKids(next, r)[k] == RefKids(heap, r)[k];
    }
  }

  lemma {:induction false} DeficitGrows(heap: Heap, next: Heap, r: Ref, v: PyObj)
    requires GrowsTo(heap, next) && Deficit(heap, r, v)
    ensures Deficit(next, r, v)
    decreases v
  {
    if |Kids(v)| == |RefKids(heap, r)| && |RefKids(next, r)| == |RefKids(heap, r)| {
      var k :| 0 <= k < |Kids(v)| && Deficit(heap, RefKids(heap, r)[k], Kids(v)[k]);
      DeficitGrows(heap, next, RefKids(heap, r)[k], Kids(v)[k]);
      assert RefKids(next, r)[k] == RefKids(heap, r)[k];
    }
  }

  /** An exact value that reaches `a` lacks something as soon as `a` is filled elsewhere. */
  lemma {:induction false} FilledElsewhere(heap: Heap, next: Heap, a: nat, r: Ref, v: PyObj)
    requires Denotes(heap, r, v) && Reaches(heap, r, v, a)
    requires OnlyAt(heap, next, a) && GrowsTo(heap, next)
    requires a < |heap| && |heap[a].items| < |next[a].items|
    ensures Deficit(next, r, v)
    decreases v
  {
    if r != Addr(a) {
      var k :| 0 <= k < |Kids(v)| && k < |RefKids(heap, r)| && Reaches(heap, RefKids(heap, r)[k], Kids(v)[k], a);
      FilledElsewhere(heap, next, a, RefKids(heap, r)[k], Kids(v)[k]);
      assert RefKids(next, r) == RefKids(heap, r);
    }
  }

  lemma {:induction false} DeficitIsNoUnfolding(heap: Heap, r: Ref, v: PyObj)
    requires Deficit(heap, r, v)
    ensures !Denotes(heap, r, v)
    decreases v
  {
    if |Kids(v)| == |RefKids(heap, r)| {
      var k :| 0 <= k < |Kids(v)| && Deficit(heap, RefKids(heap, r)[k], Kids(v)[k]);
      DeficitIsNoUnfolding(heap, RefKids(heap, r)[k], Kids(v)[k]);
    }
  }

  // Taking values off the stack: the memo copies out first.

  ghost function CopyView(w: View, height: nat): View {
    w.(memo := CopyOut(w.memo, w.vals, height))
  }

  ghost predicate SettledAbove(w: View, height: nat) {
    forall k | 0 <= k < |w.memo| && w.memo[k].Live? :: w.memo[k].index < height
  }

  lemma CopyKeepsLoose(w: View, height: nat)
    requires Loose(w) && height <= |w.refs|
    ensures Loose(CopyView(w, height)) && SettledAbove(CopyView(w, height), height)
  {
    var c := CopyView(w, height);
    forall k | 0 <= k < |c.memo| ensures SlotTied(c, k) {
      assert SlotTied(w, k);
    }
    forall k | 0 <= k < |c.memo| && c.memo[k].Live? ensures c.memo[k].index < height {
      assert SlotTied(w, k);
    }
  }

  lemma CopyKeepsExact(w: View, height: nat)
    requires Exact(w, |w.refs|) && height <= |w.refs|
    ensures Exact(CopyView(w, height), height) && SettledAbove(CopyView(w, height), height)
  {
    var c := CopyView(w, height);
    CopyKeepsLoose(w, height);
    forall k | 0 <= k < |c.memo| && c.memo[k].Value? ensures Denotes(c.heap, c.hmemo[k], c.memo[k].v) {
      assert SlotTied(w, k);
    }
    forall i | 0 <= i < height && c.refs[i].Addr? && c.refs[i].a !in c.fetched ensures OwnedBy(c, i, c.refs[i].a) {
      assert OwnedBy(w, i, w.refs[i].a);
    }
    forall a | 0 <= a < |c.heap| ensures RootReaches(c, a, -1) {
      assert RootReaches(w, a, -1);
    }
    forall i | 0 <= i < height && c.refs[i].Addr? && c.refs[i].a in c.fetched ensures RootReaches(c, c.refs[i].a, i) {
      assert RootReaches(w, w.refs[i].a, i);
    }
  }

  lemma CopyKeepsDiverged(w: View, height: nat)
    requires Diverged(w) && height <= |w.refs|
    ensures Diverged(CopyView(w, height)) && SettledAbove(CopyView(w, height), height)
  {
    var c := CopyView(w, height);
    CopyKeepsLoose(w, height);
    forall k | 0 <= k < |c.memo| && c.memo[k].Value? ensures |Kids(c.memo[k].v)| <= |RefKids(c.heap, c.hmemo[k])| {
      assert SlotTied(w, k);
    }
    var i :| 0 <= i < |w.refs| && Deficit(w.heap, w.refs[i], w.vals[i]);
    assert Deficit(c.heap, c.refs[i], c.vals[i]);
  }

  // Replacing everything above `height` by one new entry.

  ghost predicate Replaces(w: View, height: nat, t: View, r: Ref, v: PyObj) {
    && height <= |w.refs| && height <= |w.vals|
    && SettledAbove(w, height)
    && t.refs == w.refs[..height] + [r] && t.vals == w.vals[..height] + [v]
    && t.hmemo == w.hmemo && t.memo == w.memo
    && w.heap <= t.heap && |t.heap| <= |w.heap| + 1 && (|t.heap| > |w.heap| ==> t.heap[|w.heap|].items == [])
  }

  lemma ReplaceKeepsLoose(w: View, height: nat, t: View, r: Ref, v: PyObj)
    requires Loose(w) && Replaces(w, height, t, r, v) && SameHead(t.heap, r, v)
    ensures Loose(t)
  {
    forall i | 0 <= i < |t.refs| ensures SameHead(t.heap, t.refs[i], t.vals[i]) {
      if i < height {
        assert SameHead(w.heap, w.refs[i], w.vals[i]);
      }
    }
    forall k | 0 <= k < |t.memo| ensures SlotTied(t, k) {
      assert SlotTied(w, k);
    }
  }

  /** What the new entry must satisfy for the exact relation to survive. */
  ghost predicate EntryFits(w: View, height: nat, t: View, r: Ref, v: PyObj)
    requires |w.refs| == |w.vals| && |w.hmemo| == |w.memo| && height <= |w.refs|
  {
    && Denotes(t.heap, r, v)
    && (forall i | 0 <= i < height && w.refs[i].Addr? && w.refs[i].a !in t.fetched :: !Mentions(r, w.refs[i].a))
    && (forall a: nat | |t.heap| <= a :: !Mentions(r, a))
    && (forall j, a: nat | height <= j < |w.refs| && Reaches(w.heap, w.refs[j], w.vals[j], a) ::
      Reaches(t.heap, r, v, a))
    && (|t.heap| > |w.heap| ==> r == Addr(|w.heap|))
    && (r.Addr? && r.a !in t.fetched ==> r.a == |w.heap|)
    && w.fetched <= t.fetched && (forall a | a in t.fetched && a !in w.fetched :: r == Addr(a) && a < |w.heap|)
    && (r.Addr? && r.a in t.fetched ==> height == |w.refs|)
  }

  lemma ReplaceDenotes(w: View, height: nat, t: View, r: Ref, v: PyObj)
    requires Loose(w) && AllDenote(w) && Bounded(w) && Replaces(w, height, t, r, v) && Loose(t)
    requires EntryFits(w, height, t, r, v)
    ensures AllDenote(t) && Bounded(t)
  {
    hide Kids;
    var a := |w.heap|;
    assert NoCellMentions(w.heap, a) && !AnyMentions(w.refs, a) && !AnyMentions(w.hmemo, a);
    forall i | 0 <= i < |t.refs| ensures Denotes(t.heap, t.refs[i], t.vals[i]) {
      if i < height {
        DenotesFrame(w.heap, t.heap, a, w.refs[i], w.vals[i]);
      }
    }
    forall k | 0 <= k < |t.memo| && t.memo[k].Value? ensures Denotes(t.heap, t.hmemo[k], t.memo[k].v) {
      DenotesFrame(w.heap, t.heap, a, w.hmemo[k], w.memo[k].v);
    }
    forall b: nat | |t.heap| <= b
      ensures NoCellMentions(t.heap, b) && !AnyMentions(t.refs, b) && !AnyMentions(t.hmemo, b)
    {
      assert NoCellMentions(w.heap, b) && !AnyMentions(w.refs, b) && !AnyMentions(w.hmemo, b);
    }
  }

  lemma ReplaceOwnership(w: View, height: nat, t: View, r: Ref, v: PyObj)
    requires Loose(w) && Bounded(w) && Ownership(w, height) && Replaces(w, height, t, r, v) && Loose(t)
    requires EntryFits(w, height, t, r, v)
    ensures Ownership(t, height + 1)
  {
    forall i | 0 <= i < height + 1 && t.refs[i].Addr? && t.refs[i].a !in t.fetched ensures OwnedBy(t, i, t.refs[i].a) {
      var a := t.refs[i].a;
      if i < height {
        assert OwnedBy(w, i, a);
      } else {
        assert NoCellMentions(w.heap, a) && !AnyMentions(w.refs, a) && !AnyMentions(w.hmemo, a);
      }
    }
  }

  /** A root of `w` that reaches `a` is still one of `t`: itself, or the new entry that took it in. */
  lemma ReplaceRoot(w: View, height: nat, t: View, r: Ref, v: PyObj, i: nat, a: nat)
    requires Loose(w) && Replaces(w, height, t, r, v) && EntryFits(w, height, t, r, v)
    requires i < |w.refs| && Reaches(w.heap, w.refs[i], w.vals[i], a)
    ensures var j := if i < height then i else height; Reaches(t.heap, t.refs[j], t.vals[j], a)
  {
    if i < height {
      ReachesGrows(w.heap, t.heap, w.refs[i], w.vals[i], a);
    }
  }

  lemma ReplaceReached(w: View, height: nat, t: View, r: Ref, v: PyObj)
    requires Loose(w) && Bounded(w) && AllReached(w) && Duplicated(w, height) && Replaces(w, height, t, r, v)
    requires Loose(t)
    requires EntryFits(w, height, t, r, v)
    ensures AllReached(t) && Duplicated(t, height + 1)
  {
    hide Kids;
    forall a | 0 <= a < |t.heap| ensures RootReaches(t, a, -1) {
      if a < |w.heap| {
        assert RootReaches(w, a, -1);
        var i :| 0 <= i < |w.refs| && Reaches(w.heap, w.refs[i], w.vals[i], a);
        ReplaceRoot(w, height, t, r, v, i, a);
      } else {
        assert Reaches(t.heap, t.refs[height], t.vals[height], a);
      }
    }
    forall i | 0 <= i < height + 1 && t.refs[i].Addr? && t.refs[i].a in t.fetched
      ensures RootReaches(t, t.refs[i].a, i)
    {
      var a := t.refs[i].a;
      if i == height {
        assert a < |w.heap|;
        assert RootReaches(w, a, -1);
        var j :| 0 <= j < |w.refs| && Reaches(w.heap, w.refs[j], w.vals[j], a);
        ReplaceRoot(w, height, t, r, v, j, a);
      } else if a in w.fetched {
        assert RootReaches(w, a, i);
        var j :| 0 <= j < |w.refs| && j != i && Reaches(w.heap, w.refs[j], w.vals[j], a);
        ReplaceRoot(w, height, t, r, v, j, a);
      } else {
        assert Reaches(t.heap, t.refs[height], t.vals[height], a);
      }
    }
  }

  lemma ReplaceKeepsExact(w: View, height: nat, t: View, r: Ref, v: PyObj)
    requires Exact(w, height) && Replaces(w, height, t, r, v) && EntryFits(w, height, t, r, v)
    ensures Exact(t, |t.refs|)
  {
    ReplaceKeepsLoose(w, height, t, r, v);
    ReplaceDenotes(w, height, t, r, v);
    ReplaceOwnership(w, height, t, r, v);
    ReplaceReached(w, height, t, r, v);
  }

  /** A deficit in the values taken must show in the new entry. */
  lemma ReplaceKeepsDiverged(w: View, height: nat, t: View, r: Ref, v: PyObj)
    requires Diverged(w) && Replaces(w, height, t, r, v) && SameHead(t.heap, r, v)
    requires |Kids(v)| <= |RefKids(t.heap, r)|
    requires (exists j | height <= j < |w.refs| :: Deficit(w.heap, w.refs[j], w.vals[j])) ==> Deficit(t.heap, r, v)
    ensures Diverged(t)
  {
    hide Kids;
    ReplaceKeepsLoose(w, height, t, r, v);
    var i :| 0 <= i < |w.refs| && Deficit(w.heap, w.refs[i], w.vals[i]);
    if i < height {
      DeficitGrows(w.heap, t.heap, w.refs[i], w.vals[i]);
      assert Deficit(t.heap, t.refs[i], t.vals[i]);
    } else {
      assert Deficit(t.heap, t.refs[height], t.vals[height]);
    }
    forall j | 0 <= j < |t.refs| ensures |Kids(t.vals[j])| <= |RefKids(t.heap, t.refs[j])| {
      if j < height {
        assert |Kids(w.vals[j])| <= |RefKids(w.heap, w.refs[j])|;
      }
    }
    forall k | 0 <= k < |t.memo| && t.memo[k].Value? ensures |Kids(t.memo[k].v)| <= |RefKids(t.heap, t.hmemo[k])| {
      assert SlotTied(w, k);
    }
  }
}
