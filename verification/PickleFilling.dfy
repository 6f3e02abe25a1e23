/** Filling a container and memoizing the top, seen through the relation between reader and heap. */
module PickleFilling {
  import opened Common
  import opened PyObjects
  import opened PickleReader
  import opened PickleHeap
  import opened PickleViews

  /** The values above `height` go into the container just below it, whose cell is at `a`. */
  ghost predicate Fills(w: View, height: nat, t: View, a: nat) {
    && 0 < height <= |w.refs| && |w.refs| == |w.vals|
    && SettledAbove(w, height)
    && w.refs[height - 1] == Addr(a) && a < |w.heap|
    && IsContainer(w.vals[height - 1])
    && (w.vals[height - 1].Dict? ==> (|w.refs| - height) % 2 == 0)
    && t.heap == w.heap[a := HeapCell(w.heap[a].kind, w.heap[a].items + w.refs[height..])]
    && t.refs == w.refs[..height]
    && t.vals == w.vals[..height - 1] + [Extend(w.vals[height - 1], w.vals[height..])]
    && t.hmemo == w.hmemo && t.memo == w.memo && t.fetched == w.fetched
  }

  lemma FillKeepsLoose(w: View, height: nat, t: View, a: nat)
    requires Loose(w) && Fills(w, height, t, a)
    ensures Loose(t) && GrowsTo(w.heap, t.heap) && OnlyAt(w.heap, t.heap, a)
  {
    forall i | 0 <= i < |t.refs| ensures SameHead(t.heap, t.refs[i], t.vals[i]) {
      assert SameHead(w.heap, w.refs[i], w.vals[i]);
    }
    forall k | 0 <= k < |t.memo| ensures SlotTied(t, k) {
      assert SlotTied(w, k);
    }
  }

  /** Filling a container nobody else mentions leaves every other unfolding as it was. */
  lemma FillDenotes(w: View, height: nat, t: View, a: nat)
    requires Loose(w) && AllDenote(w) && Fills(w, height, t, a) && Loose(t)
    requires OwnedBy(w, height - 1, a)
    ensures AllDenote(t)
  {
    FillKeepsLoose(w, height, t, a);
    var top := height - 1;
    forall i | 0 <= i < |w.refs| && i != top ensures Denotes(t.heap, w.refs[i], w.vals[i]) {
      DenotesFrame(w.heap, t.heap, a, w.refs[i], w.vals[i]);
    }
    FillDenotesTop(w, height, t, a);
    forall k | 0 <= k < |t.memo| && t.memo[k].Value? ensures Denotes(t.heap, t.hmemo[k], t.memo[k].v) {
      DenotesFrame(w.heap, t.heap, a, w.hmemo[k], w.memo[k].v);
    }
  }

  /** What the container held before still denotes what it did. */
  lemma FillDenotesOld(w: View, height: nat, t: View, a: nat, k: nat)
    requires Fills(w, height, t, a) && NoCellMentions(w.heap, a) && OnlyAt(w.heap, t.heap, a)
    requires Denotes(w.heap, w.refs[height - 1], w.vals[height - 1]) && k < |Kids(w.vals[height - 1])|
    ensures k < |RefKids(w.heap, w.refs[height - 1])|
    ensures Denotes(t.heap, RefKids(w.heap, w.refs[height - 1])[k], Kids(w.vals[height - 1])[k])
  {
    hide Kids, Extend;
    var top := height - 1;
    assert Denotes(w.heap, RefKids(w.heap, w.refs[top])[k], Kids(w.vals[top])[k]);
    assert !AnyMentions(w.heap[a].items, a);
    DenotesFrame(w.heap, t.heap, a, RefKids(w.heap, w.refs[top])[k], Kids(w.vals[top])[k]);
  }

  lemma FillDenotesTop(w: View, height: nat, t: View, a: nat)
    requires Fills(w, height, t, a) && NoCellMentions(w.heap, a) && OnlyAt(w.heap, t.heap, a)
    requires Denotes(w.heap, w.refs[height - 1], w.vals[height - 1])
    requires forall j | height <= j < |w.refs| :: Denotes(t.heap, w.refs[j], w.vals[j])
    requires SameHead(t.heap, t.refs[height - 1], t.vals[height - 1])
    ensures Denotes(t.heap, t.refs[height - 1], t.vals[height - 1])
  {
    hide Kids, Extend;
    var top := height - 1;
    var v, x := t.vals[top], w.vals[top];
    FilledKids(w, height, t, a);
    hide Fills, NoCellMentions, OnlyAt;
    forall k | 0 <= k < |Kids(v)| ensures Denotes(t.heap, RefKids(t.heap, t.refs[top])[k], Kids(v)[k]) {
      if k < |Kids(x)| {
        FillDenotesOld(w, height, t, a, k);
      } else {
        assert Denotes(t.heap, w.refs[height + (k - |Kids(x)|)], w.vals[height + (k - |Kids(x)|)]);
      }
    }
  }

  lemma FillMentions(w: View, height: nat, t: View, a: nat, b: nat)
    requires Fills(w, height, t, a) && NoCellMentions(w.heap, b)
    requires forall j | height <= j < |w.refs| :: !Mentions(w.refs[j], b)
    ensures NoCellMentions(t.heap, b)
  {
    forall c | 0 <= c < |t.heap| ensures !AnyMentions(t.heap[c].items, b) {
      assert !AnyMentions(w.heap[c].items, b);
    }
  }

  lemma FillOwnership(w: View, height: nat, t: View, a: nat)
    requires Loose(w) && Bounded(w) && Ownership(w, height) && Fills(w, height, t, a)
    ensures Bounded(t) && Ownership(t, height)
  {
    forall b: nat | |t.heap| <= b
      ensures NoCellMentions(t.heap, b) && !AnyMentions(t.refs, b) && !AnyMentions(t.hmemo, b)
    {
      assert NoCellMentions(w.heap, b) && !AnyMentions(w.refs, b) && !AnyMentions(w.hmemo, b);
      FillMentions(w, height, t, a, b);
    }
    forall i | 0 <= i < height && t.refs[i].Addr? && t.refs[i].a !in t.fetched ensures OwnedBy(t, i, t.refs[i].a) {
      var b := t.refs[i].a;
      assert OwnedBy(w, i, b);
      FillMentions(w, height, t, a, b);
    }
  }

  /** A root of `w` is a root of `t`, the filled container standing in for what it took. */
  lemma FillRoot(w: View, height: nat, t: View, a: nat, i: nat, b: nat)
    requires Loose(w) && AllDenote(w) && Fills(w, height, t, a) && Loose(t)
    requires i < |w.refs| && Reaches(w.heap, w.refs[i], w.vals[i], b)
    ensures var j := if i < height then i else height - 1; Reaches(t.heap, t.refs[j], t.vals[j], b)
  {
    FillKeepsLoose(w, height, t, a);
    ReachesGrows(w.heap, t.heap, w.refs[i], w.vals[i], b);
    if i >= height - 1 && b != a {
      FillRootTop(w, height, t, a, i, b);
    }
  }

  lemma FillRootTop(w: View, height: nat, t: View, a: nat, i: nat, b: nat)
    requires Loose(w) && AllDenote(w) && Fills(w, height, t, a)
    requires height - 1 <= i < |w.refs| && b != a && Reaches(t.heap, w.refs[i], w.vals[i], b)
    ensures Reaches(t.heap, Addr(a), t.vals[height - 1], b)
  {
    var v, x := w.vals[height - 1], t.vals[height - 1];
    assert Denotes(w.heap, w.refs[height - 1], v);
    FilledKids(w, height, t, a);
    hide Kids, Extend, AllDenote, Loose, Denotes, Fills;
    if i >= height {
      var k := |Kids(v)| + (i - height);
      ReachesInside(t.heap, Addr(a), x, k, b);
    } else {
      var k :| 0 <= k < |Kids(v)| && k < |RefKids(t.heap, Addr(a))|
               && Reaches(t.heap, RefKids(t.heap, Addr(a))[k], Kids(v)[k], b);
      ReachesInside(t.heap, Addr(a), x, k, b);
    }
  }

  lemma ReachesInside(heap: Heap, r: Ref, v: PyObj, k: nat, a: nat)
    requires k < |Kids(v)| && k < |RefKids(heap, r)| && Reaches(heap, RefKids(heap, r)[k], Kids(v)[k], a)
    ensures Reaches(heap, r, v, a)
  {
  }

  lemma FillReached(w: View, height: nat, t: View, a: nat)
    requires Loose(w) && AllDenote(w) && AllReached(w) && Duplicated(w, height) && Fills(w, height, t, a) && Loose(t)
    requires a !in w.fetched
    ensures AllReached(t) && Duplicated(t, height)
  {
    forall b | 0 <= b < |t.heap| ensures RootReaches(t, b, -1) {
      assert RootReaches(w, b, -1);
      var i :| 0 <= i < |w.refs| && Reaches(w.heap, w.refs[i], w.vals[i], b);
      FillRoot(w, height, t, a, i, b);
    }
    forall i | 0 <= i < height && t.refs[i].Addr? && t.refs[i].a in t.fetched ensures RootReaches(t, t.refs[i].a, i) {
      var b := t.refs[i].a;
      assert RootReaches(w, b, i);
      var j :| 0 <= j < |w.refs| && j != i && Reaches(w.heap, w.refs[j], w.vals[j], b);
      FillRoot(w, height, t, a, j, b);
    }
  }

  lemma ExtendByNothing(v: PyObj)
    requires IsContainer(v)
    ensures Extend(v, []) == v
  {
    assert Kids(Extend(v, [])) == Kids(v);
    HeadAndKidsDetermine(Extend(v, []), v);
  }

  lemma FillNothing(w: View, height: nat, t: View, a: nat)
    requires Fills(w, height, t, a) && height == |w.refs|
    ensures t == w
  {
    ExtendByNothing(w.vals[height - 1]);
    assert w.refs[height..] == [] && w.vals[height..] == [];
    assert w.heap[a].items + [] == w.heap[a].items;
    assert t.heap == w.heap && t.refs == w.refs && t.vals == w.vals;
  }

  /** Filling a container that was never fetched, or with nothing at all, keeps every value an exact unfolding. */
  lemma FillKeepsExact(w: View, height: nat, t: View, a: nat)
    requires Exact(w, height) && Fills(w, height, t, a)
    requires a !in w.fetched || height == |w.refs|
    ensures Exact(t, |t.refs|)
  {
    if height == |w.refs| {
      FillNothing(w, height, t, a);
    } else {
      FillKeepsLoose(w, height, t, a);
      assert OwnedBy(w, height - 1, w.refs[height - 1].a);
      FillDenotes(w, height, t, a);
      FillOwnership(w, height, t, a);
      FillReached(w, height, t, a);
    }
  }

  lemma FillShort(w: View, height: nat, t: View, a: nat)
    requires Loose(w) && CopiesShort(w) && Fills(w, height, t, a) && Loose(t)
    ensures CopiesShort(t)
  {
    hide Extend, Kids;
    FillKeepsLoose(w, height, t, a);
    FilledKids(w, height, t, a);
    forall i | 0 <= i < |t.refs| ensures |Kids(t.vals[i])| <= |RefKids(t.heap, t.refs[i])| {
      assert |Kids(w.vals[i])| <= |RefKids(w.heap, w.refs[i])|;
    }
    forall k | 0 <= k < |t.memo| && t.memo[k].Value? ensures |Kids(t.memo[k].v)| <= |RefKids(t.heap, t.hmemo[k])| {
      assert SlotTied(w, k);
    }
  }

  lemma ExactIsShort(w: View, height: nat)
    requires Exact(w, height)
    ensures CopiesShort(w)
  {
  }

  /** Filling a fetched container leaves its other copy behind. */
  lemma FillDiverges(w: View, height: nat, t: View, a: nat)
    requires Exact(w, height) && Fills(w, height, t, a)
    requires a in w.fetched && height < |w.refs|
    ensures Diverged(t)
  {
    hide Extend;
    FillKeepsLoose(w, height, t, a);
    ExactIsShort(w, height);
    FillShort(w, height, t, a);
    var top := height - 1;
    assert w.refs[top].a == a;
    assert RootReaches(w, a, top);
    var j :| 0 <= j < |w.refs| && j != top && Reaches(w.heap, w.refs[j], w.vals[j], a);
    FilledElsewhere(w.heap, t.heap, a, w.refs[j], w.vals[j]);
    if j < top {
      assert Deficit(t.heap, t.refs[j], t.vals[j]);
    } else {
      FillTop(w, height, t, a, j);
    }
  }

  /** A deficit in a value that was put into the top container is a deficit of that container. */
  lemma FillTop(w: View, height: nat, t: View, a: nat, j: nat)
    requires Loose(w) && CopiesShort(w) && Fills(w, height, t, a) && Loose(t)
    requires height <= j < |w.refs| && Deficit(t.heap, w.refs[j], w.vals[j])
    ensures Lacking(t)
  {
    hide Extend;
    hide Loose;
    var top := height - 1;
    var v := t.vals[top];
    FilledKids(w, height, t, a);
    assert |Kids(w.vals[top])| <= |RefKids(w.heap, w.refs[top])|;
    DeficitInside(t.heap, t.refs[top], v, |Kids(w.vals[top])| + (j - height), w.refs[j], w.vals[j]);
  }

  lemma FilledKids(w: View, height: nat, t: View, a: nat)
    requires Fills(w, height, t, a)
    ensures Kids(t.vals[height - 1]) == Kids(w.vals[height - 1]) + w.vals[height..]
    ensures RefKids(t.heap, t.refs[height - 1]) == RefKids(w.heap, w.refs[height - 1]) + w.refs[height..]
  {
  }

  /** `k` counts places in the value; the object may hold more, never fewer. */
  lemma DeficitInside(heap: Heap, r: Ref, v: PyObj, k: nat, inner: Ref, x: PyObj)
    requires |Kids(v)| <= |RefKids(heap, r)| && k < |Kids(v)| && Kids(v)[k] == x
    requires |Kids(v)| == |RefKids(heap, r)| ==> RefKids(heap, r)[k] == inner
    requires Deficit(heap, inner, x)
    ensures Deficit(heap, r, v)
  {
  }

  lemma FillKeepsDiverged(w: View, height: nat, t: View, a: nat)
    requires Diverged(w) && Fills(w, height, t, a)
    ensures Diverged(t)
  {
    hide Kids, Extend;
    FillKeepsLoose(w, height, t, a);
    FillShort(w, height, t, a);
    var top := height - 1;
    var i :| 0 <= i < |w.refs| && Deficit(w.heap, w.refs[i], w.vals[i]);
    DeficitGrows(w.heap, t.heap, w.refs[i], w.vals[i]);
    if i < top {
      assert Deficit(t.heap, t.refs[i], t.vals[i]);
    } else if i > top {
      FillTop(w, height, t, a, i);
    } else {
      FillTopDeficit(w, height, t, a);
      assert Deficit(t.heap, t.refs[top], t.vals[top]);
    }
  }

  lemma FillTopDeficit(w: View, height: nat, t: View, a: nat)
    requires Fills(w, height, t, a) && GrowsTo(w.heap, t.heap)
    requires Deficit(w.heap, w.refs[height - 1], w.vals[height - 1])
    ensures Deficit(t.heap, t.refs[height - 1], t.vals[height - 1])
  {
    hide Kids, Extend;
    var r, v, x := w.refs[height - 1], t.vals[height - 1], w.vals[height - 1];
    FilledKids(w, height, t, a);
    if |Kids(x)| == |RefKids(w.heap, r)| {
      var k :| 0 <= k < |Kids(x)| && Deficit(w.heap, RefKids(w.heap, r)[k], Kids(x)[k]);
      DeficitGrows(w.heap, t.heap, RefKids(w.heap, r)[k], Kids(x)[k]);
      DeficitInside(t.heap, r, v, k, RefKids(w.heap, r)[k], Kids(x)[k]);
    }
  }

  // Memoizing the top.

  ghost predicate Memoizes(w: View, t: View) {
    && w.refs != [] && |w.refs| == |w.vals|
    && t == w.(hmemo := w.hmemo + [Last(w.refs)],
               memo := w.memo + [if IsContainer(Last(w.vals)) then Live(|w.refs| - 1) else Value(Last(w.vals))])
  }

  lemma MemoizeKeepsLoose(w: View, t: View)
    requires Loose(w) && Memoizes(w, t)
    ensures Loose(t)
  {
    forall k | 0 <= k < |t.memo| ensures SlotTied(t, k) {
      if k < |w.memo| {
        assert SlotTied(w, k);
      } else {
        assert SameHead(w.heap, Last(w.refs), Last(w.vals));
      }
    }
  }

  lemma MemoizeKeepsExact(w: View, t: View)
    requires Exact(w, |w.refs|) && Memoizes(w, t)
    ensures Exact(t, |t.refs|)
  {
    MemoizeKeepsLoose(w, t);
    MemoizeDenotes(w, t);
    MemoizeOwnership(w, t);
    forall a | 0 <= a < |t.heap| ensures RootReaches(t, a, -1) {
      assert RootReaches(w, a, -1);
    }
    forall i | 0 <= i < |t.refs| && t.refs[i].Addr? && t.refs[i].a in t.fetched ensures RootReaches(t, t.refs[i].a, i) {
      assert RootReaches(w, w.refs[i].a, i);
    }
  }

  lemma MemoizeDenotes(w: View, t: View)
    requires Loose(w) && AllDenote(w) && Bounded(w) && Memoizes(w, t) && Loose(t)
    ensures AllDenote(t) && Bounded(t)
  {
    var top := |w.refs| - 1;
    assert Denotes(w.heap, w.refs[top], w.vals[top]);
    forall a: nat | |t.heap| <= a
      ensures NoCellMentions(t.heap, a) && !AnyMentions(t.refs, a) && !AnyMentions(t.hmemo, a)
    {
      assert !AnyMentions(w.refs, a) && !AnyMentions(w.hmemo, a) && NoCellMentions(w.heap, a);
      assert !Mentions(w.refs[top], a);
    }
  }

  lemma MemoizeOwnership(w: View, t: View)
    requires Loose(w) && Ownership(w, |w.refs|) && Memoizes(w, t) && Loose(t)
    ensures Ownership(t, |t.refs|)
  {
    var top := |w.refs| - 1;
    assert SameHead(w.heap, w.refs[top], w.vals[top]);
    forall i | 0 <= i < |t.refs| && t.refs[i].Addr? && t.refs[i].a !in t.fetched ensures OwnedBy(t, i, t.refs[i].a) {
      assert OwnedBy(w, i, w.refs[i].a);
    }
  }

  lemma MemoizeKeepsDiverged(w: View, t: View)
    requires Diverged(w) && Memoizes(w, t)
    ensures Diverged(t)
  {
    MemoizeKeepsLoose(w, t);
    var i :| 0 <= i < |w.refs| && Deficit(w.heap, w.refs[i], w.vals[i]);
    assert Deficit(t.heap, t.refs[i], t.vals[i]);
    forall k | 0 <= k < |t.memo| && t.memo[k].Value? ensures |Kids(t.memo[k].v)| <= |RefKids(t.heap, t.hmemo[k])| {
      assert |Kids(w.vals[|w.refs| - 1])| <= |RefKids(w.heap, w.refs[|w.refs| - 1])|;
    }
  }
}
