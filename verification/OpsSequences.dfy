/** What sequences of operations and the container operations promise. */
module OpsSequences {
  import opened Common
  import opened Numerals
  import opened TextOrder
  import opened PyValue
  import opened PyEquality
  import opened PyOrdering
  import opened Ops

  // max and min.

  /** `max` and `min` answer one of their operands, never the worse, and the first of two equals. */
  lemma PickIsExtreme(current: Json, arg: Json, largest: bool, lib: Library)
    ensures var r := Apply(if largest then Max else Min, current, arg, lib);
      match PyCmp(arg, current)
      case None => r == Err(TypeError)
      case Some(Less) => r == Ok(if largest then current else arg)
      case Some(Greater) => r == Ok(if largest then arg else current)
      case Some(Equal) => r == Ok(current)
  {
    CmpSwap(current, arg);
  }

  lemma {:induction false} OrderableIsPlain(v: Json)
    requires Orderable(v)
    ensures Keyed(v) && Readable(v)
  {
    if v.ArrayValue? {
      forall i | 0 <= i < |v.items| ensures Keyed(v.items[i]) && Readable(v.items[i]) {
        OrderableIsPlain(v.items[i]);
      }
    }
  }

  lemma OrderableEqualsItself(v: Json)
    requires Orderable(v)
    ensures PyCmp(v, v) == Some(Equal)
  {
    OrderableIsPlain(v);
    EqualityLaws(v, v, v);
    CmpEqualIsEq(v, v);
  }

  /** `v` is at most `w`, or at least it. */
  predicate Within(v: Json, w: Json, above: bool) {
    if above then AtMost(PyCmp(v, w)) else AtMost(PyCmp(w, v))
  }

  lemma WithinComposes(u: Json, v: Json, w: Json, above: bool)
    requires Within(u, v, above) && Within(v, w, above) && Orderable(u) && Orderable(v) && Orderable(w)
    ensures Within(u, w, above)
  {
    if above {
      CmpCompose(u, v, w);
    } else {
      CmpCompose(w, v, u);
    }
  }

  /** One `max` or `min`: not short of either operand, and one of them. */
  lemma PickBounds(current: Json, arg: Json, largest: bool, lib: Library)
    requires Orderable(current) && Orderable(arg) && Apply(if largest then Max else Min, current, arg, lib).Ok?
    ensures var r := Apply(if largest then Max else Min, current, arg, lib).value;
      (r == current || r == arg) && Within(current, r, largest) && Within(arg, r, largest)
  {
    PickIsExtreme(current, arg, largest, lib);
    CmpSwap(current, arg);
    OrderableEqualsItself(current);
    OrderableEqualsItself(arg);
  }

  /**
   * After any number of `max` operations the value is at least the first one and every argument, and is one of them;
   * after any number of `min` operations it is at most all of them.
   */
  lemma {:induction false} PickOfAll(value: Json, ops: seq<(Op, Json)>, k: nat, largest: bool, lib: Library)
    requires k <= |ops| && Orderable(value) && ApplyFirst(value, ops, k, lib).Ok?
    requires forall i | 0 <= i < k :: ops[i].0 == (if largest then Max else Min) && Orderable(ops[i].1)
    ensures var r := ApplyFirst(value, ops, k, lib).value;
      && Orderable(r) && Within(value, r, largest)
      && (forall i | 0 <= i < k :: Within(ops[i].1, r, largest))
      && (r == value || exists i | 0 <= i < k :: r == ops[i].1)
  {
    if k == 0 {
      OrderableEqualsItself(value);
    } else {
      hide Apply;
      var before := ApplyFirst(value, ops, k - 1, lib).value;
      var arg := ops[k - 1].1;
      var r := ApplyFirst(value, ops, k, lib).value;
      PickOfAll(value, ops, k - 1, largest, lib);
      PickBounds(before, arg, largest, lib);
      WithinComposes(value, before, r, largest);
      forall i | 0 <= i < k ensures Within(ops[i].1, r, largest) {
        if i < k - 1 {
          WithinComposes(ops[i].1, before, r, largest);
        }
      }
    }
  }

  lemma MaxOfAll(value: Json, ops: seq<(Op, Json)>, k: nat, lib: Library)
    requires k <= |ops| && Orderable(value) && ApplyFirst(value, ops, k, lib).Ok?
    requires forall i | 0 <= i < k :: ops[i].0 == Max && Orderable(ops[i].1)
    ensures var r := ApplyFirst(value, ops, k, lib).value;
      && AtMost(PyCmp(value, r)) && (forall i | 0 <= i < k :: AtMost(PyCmp(ops[i].1, r)))
      && (r == value || exists i | 0 <= i < k :: r == ops[i].1)
  {
    PickOfAll(value, ops, k, true, lib);
    assert forall i | 0 <= i < k :: Within(ops[i].1, ApplyFirst(value, ops, k, lib).value, true);
  }

  lemma MinOfAll(value: Json, ops: seq<(Op, Json)>, k: nat, lib: Library)
    requires k <= |ops| && Orderable(value) && ApplyFirst(value, ops, k, lib).Ok?
    requires forall i | 0 <= i < k :: ops[i].0 == Min && Orderable(ops[i].1)
    ensures var r := ApplyFirst(value, ops, k, lib).value;
      && AtMost(PyCmp(r, value)) && (forall i | 0 <= i < k :: AtMost(PyCmp(r, ops[i].1)))
      && (r == value || exists i | 0 <= i < k :: r == ops[i].1)
  {
    PickOfAll(value, ops, k, false, lib);
    assert forall i | 0 <= i < k :: Within(ops[i].1, ApplyFirst(value, ops, k, lib).value, false);
  }

  // Repetition.

  lemma {:induction false} CopiesLength<T>(s: seq<T>, n: nat)
    ensures |Copies(s, n)| == |s| * n
  {
    if n > 0 {
      CopiesLength(s, n - 1);
      assert |s| * n == |s| * (n - 1) + |s|;
    }
  }

  /** A repeated sequence reads as the sequence over and over. */
  lemma {:induction false} CopiesRepeat<T>(s: seq<T>, n: nat, k: nat)
    requires k < |Copies(s, n)| && s != []
    ensures Copies(s, n)[k] == s[k % |s|]
    decreases n
  {
    if n > 0 {
      if k < |s| {
        DivModUnique(k, |s|, 0, k);
      } else {
        CopiesRepeat(s, n - 1, k - |s|);
        DivMod(k - |s|, |s|);
        DivModUnique(k, |s|, (k - |s|) / |s| + 1, (k - |s|) % |s|);
      }
    }
  }

  // pop.

  function PutBack(r: seq<Json>, i: int, v: Json): seq<Json> {
    if 0 <= i <= |r| then r[..i] + [v] + r[i..] else r
  }

  /**
   * An index from the end pops what the same place counted from the start pops; past the end is nothing, before the
   * start an error.
   */
  lemma PopFromEnd(items: seq<Json>, i: int)
    ensures PopIndex(items, i) == Err(IndexError) <==> i < -|items|
    ensures PopIndex(items, i) == Ok(ArrayValue(items)) <==> i >= |items|
    ensures -|items| <= i < 0 ==> PopIndex(items, i) == PopIndex(items, i + |items|)
    ensures 0 <= i < |items| ==> exists r :: PopIndex(items, i) == Ok(ArrayValue(r)) && PutBack(r, i, items[i]) == items
  {
    if -|items| <= i < |items| {
      var k := if i < 0 then |items| + i else i;
      var r := DropAt(items, k);
      assert |r| < |items|;
      assert PutBack(r, k, items[k]) == items;
    }
  }

  // Sequences of operations.

  function Shifted(r: Result<Json, (nat, OpError)>, offset: nat): Result<Json, (nat, OpError)> {
    match r
    case Ok(v) => Ok(v)
    case Err(e) => Err((e.0 + offset, e.1))
  }

  /** Running one sequence after another is running them joined: same value, or the same failure at the same place. */
  lemma {:induction false} SequencesJoin(value: Json, first: seq<(Op, Json)>, second: seq<(Op, Json)>, k: nat,
                                         lib: Library)
    requires k <= |second|
    ensures ApplyFirst(value, first + second, |first| + k, lib) ==
      match ApplyFirst(value, first, |first|, lib)
      case Err(e) => Err(e)
      case Ok(v) => Shifted(ApplyFirst(v, second, k, lib), |first|)
  {
    if k == 0 {
      PrefixOnly(value, first, second, |first|, lib);
    } else {
      SequencesJoin(value, first, second, k - 1, lib);
      assert (first + second)[|first| + k - 1] == second[k - 1];
    }
  }

  lemma {:induction false} PrefixOnly(value: Json, first: seq<(Op, Json)>, second: seq<(Op, Json)>, k: nat,
                                      lib: Library)
    requires k <= |first|
    ensures ApplyFirst(value, first + second, k, lib) == ApplyFirst(value, first, k, lib)
  {
    if k > 0 {
      PrefixOnly(value, first, second, k - 1, lib);
      assert (first + second)[k - 1] == first[k - 1];
    }
  }

  // Ordered maps.

  lemma PutOne(entries: Entries, key: Text, value: Json, other: Text)
    requires DistinctKeys(entries)
    ensures DistinctKeys(Put(entries, key, value))
    ensures HasKey(Put(entries, key, value), other) <==> other == key || HasKey(entries, other)
    ensures HasKey(Put(entries, key, value), key) && At(Put(entries, key, value), key) == value
    ensures other != key && HasKey(entries, other) ==> At(Put(entries, key, value), other) == At(entries, other)
  {
    var r := Put(entries, key, value);
    var i := KeyAt(entries, key);
    KeyIs(r, i, key);
    if other != key {
      var j := KeyAt(entries, other);
      if j < |entries| {
        KeyIs(r, j, other);
      }
      var k := KeyAt(r, other);
      if k < |entries| && HasKey(r, other) {
        KeyThere(entries, k, other);
      }
    }
  }

  lemma KeyThere(entries: Entries, i: nat, key: Text)
    requires i < |entries| && entries[i].0 == key
    ensures HasKey(entries, key)
  {
  }

  function At(entries: Entries, key: Text): Json
    requires HasKey(entries, key)
  {
    entries[KeyAt(entries, key)].1
  }

  lemma KeyIs(entries: Entries, i: nat, key: Text)
    requires DistinctKeys(entries) && i < |entries| && entries[i].0 == key
    ensures KeyAt(entries, key) == i
  {
    KeyAtOwn(entries, i);
  }

  /** Merging two maps: the second wins, the first keeps everything else, and nothing is held twice. */
  lemma {:induction false} MergeMeans(a: Entries, b: Entries, key: Text)
    requires DistinctKeys(a) && DistinctKeys(b)
    ensures DistinctKeys(Merge(a, b))
    ensures HasKey(Merge(a, b), key) <==> HasKey(a, key) || HasKey(b, key)
    ensures HasKey(b, key) ==> At(Merge(a, b), key) == At(b, key)
    ensures HasKey(a, key) && !HasKey(b, key) ==> At(Merge(a, b), key) == At(a, key)
  {
    if b != [] {
      var front := b[..|b| - 1];
      MergeMeans(a, front, key);
      PutOne(Merge(a, front), Last(b).0, Last(b).1, key);
      FrontKeys(b, key);
    }
  }

  lemma FrontKeys(b: Entries, key: Text)
    requires b != [] && DistinctKeys(b)
    ensures var front := b[..|b| - 1];
      && DistinctKeys(front)
      && (HasKey(b, key) <==> key == Last(b).0 || HasKey(front, key))
      && (HasKey(front, key) ==> key != Last(b).0 && At(front, key) == At(b, key))
      && (key == Last(b).0 ==> At(b, key) == Last(b).1)
  {
    var front := b[..|b| - 1];
    if HasKey(front, key) {
      KeyIs(b, KeyAt(front, key), key);
    }
    var k := KeyAt(b, key);
    if k < |front| {
      KeyThere(front, k, key);
    }
    KeyIs(b, |b| - 1, Last(b).0);
  }

  /** The first map's keys keep their places. */
  lemma {:induction false} MergeKeepsPlaces(a: Entries, b: Entries)
    ensures |Merge(a, b)| >= |a| && forall i | 0 <= i < |a| :: Merge(a, b)[i].0 == a[i].0
  {
    if b != [] {
      MergeKeepsPlaces(a, b[..|b| - 1]);
    }
  }

  /** Popping a key takes out that entry alone, and putting it back restores every lookup. */
  lemma PopThenPut(entries: Entries, key: Text, other: Text)
    requires DistinctKeys(entries) && HasKey(entries, key)
    ensures var r := ShiftRemove(entries, key);
      && DistinctKeys(r) && !HasKey(r, key)
      && (other != key ==> (HasKey(r, other) <==> HasKey(entries, other)))
      && (other != key && HasKey(entries, other) ==> At(r, other) == At(entries, other))
    ensures var back := Put(ShiftRemove(entries, key), key, At(entries, key));
      && |back| == |entries|
      && (HasKey(back, other) <==> HasKey(entries, other))
      && (HasKey(entries, other) ==> At(back, other) == At(entries, other))
  {
    PopMeans(entries, key, other);
    PutOne(ShiftRemove(entries, key), key, At(entries, key), other);
    hide KeyAt;
  }

  lemma PopMeans(entries: Entries, key: Text, other: Text)
    requires DistinctKeys(entries) && HasKey(entries, key)
    ensures var r := ShiftRemove(entries, key);
      && DistinctKeys(r) && !HasKey(r, key)
      && (other != key ==> (HasKey(r, other) <==> HasKey(entries, other)))
      && (other != key && HasKey(entries, other) ==> At(r, other) == At(entries, other))
  {
    var i := KeyAt(entries, key);
    var r := ShiftRemove(entries, key);
    assert forall j | 0 <= j < |r| :: r[j] == entries[if j < i then j else j + 1];
    var k := KeyAt(r, other);
    if k < |r| {
      KeyThere(entries, if k < i then k else k + 1, other);
      KeyIs(entries, if k < i then k else k + 1, other);
    }
    var j := KeyAt(entries, other);
    hide KeyAt;
    if other != key && j < |entries| {
      KeyThere(r, if j < i then j else j - 1, other);
      KeyIs(r, if j < i then j else j - 1, other);
    }
    NotThere(entries, key);
  }

  lemma NotThere(entries: Entries, key: Text)
    requires DistinctKeys(entries) && HasKey(entries, key)
    ensures !HasKey(ShiftRemove(entries, key), key)
  {
    var i := KeyAt(entries, key);
    var r := ShiftRemove(entries, key);
    hide KeyAt;
    assert forall j | 0 <= j < |r| :: r[j].0 == entries[if j < i then j else j + 1].0;
    assert forall j | 0 <= j < |r| :: r[j].0 != key;
  }

  // update on lists.

  /** The entries that an update appends. */
  function Missing(original: seq<Json>, news: seq<Json>): seq<Json> {
    if news == [] then []
    else if Contains(original, news[0]) then Missing(original, news[1..])
    else [news[0]] + Missing(original, news[1..])
  }

  /** An update appends, in order and once for each time it is given, every entry the list did not hold before. */
  lemma {:induction false} UpdateAppends(original: seq<Json>, items: seq<Json>, news: seq<Json>)
    requires Appended(original, items, news).Ok?
    ensures Appended(original, items, news).value == items + Missing(original, news)
    ensures forall i | 0 <= i < |news| :: Hashable(news[i])
    decreases |news|
  {
    if news != [] {
      if Contains(original, news[0]) {
        UpdateAppends(original, items, news[1..]);
      } else {
        UpdateAppends(original, items + [news[0]], news[1..]);
      }
      assert news == [news[0]] + news[1..];
    }
  }

  lemma {:induction false} MissingHolds(original: seq<Json>, news: seq<Json>, v: Json)
    requires v in news && !Contains(original, v)
    ensures v in Missing(original, news)
  {
    if v != news[0] {
      assert news == [news[0]] + news[1..];
      MissingHolds(original, news[1..], v);
    }
  }

  /** Exactly the entries that no number reads from are still missing afterwards. */
  lemma {:induction false} StillMissing(original: seq<Json>, all: seq<Json>, news: seq<Json>)
    requires forall v | v in news :: v in all && Hashable(v)
    ensures Missing(original + Missing(original, all), news) == Unreadable(original, news)
  {
    if news != [] {
      assert news == [news[0]] + news[1..];
      StillMissing(original, all, news[1..]);
      var v := news[0];
      var grown := original + Missing(original, all);
      HashableEqualsItself(v);
      if Contains(original, v) {
        var i :| 0 <= i < |original| && PyEq(original[i], v);
        assert PyEq(grown[i], v);
      } else {
        MissingHolds(original, all, v);
        if Readable(v) {
          assert v in grown;
          var i :| 0 <= i < |grown| && grown[i] == v;
        } else if Contains(grown, v) {
          var i :| 0 <= i < |grown| && PyEq(grown[i], v);
          UnreadableEqualsNothing(grown[i], v);
        }
      }
    }
  }

  /** Of the entries an update appends, those that are no readable number, text, or null. */
  function Unreadable(original: seq<Json>, news: seq<Json>): seq<Json> {
    if news == [] then []
    else if Readable(news[0]) || Contains(original, news[0]) then Unreadable(original, news[1..])
    else [news[0]] + Unreadable(original, news[1..])
  }

  lemma HashableEqualsItself(v: Json)
    requires Hashable(v)
    ensures PyEq(v, v) <==> Readable(v)
  {
    EqualityLaws(v, v, v);
  }

  lemma UnreadableEqualsNothing(a: Json, v: Json)
    requires Hashable(v) && !Readable(v)
    ensures !PyEq(a, v)
  {
  }

  predicate AllHashable(items: seq<Json>) {
    forall i | 0 <= i < |items| :: Hashable(items[i])
  }

  /**
   * An update succeeds exactly when every entry is hashable and the missing ones fit; only the second can fail alone.
   */
  lemma {:induction false} UpdateSucceeds(original: seq<Json>, items: seq<Json>, news: seq<Json>)
    requires AllHashable(news)
    ensures var missing := Missing(original, news);
      Appended(original, items, news) ==
        if missing == [] || |items| + |missing| <= MAX_RESULT_LEN then Ok(items + missing) else Err(ResultTooLarge)
    decreases |news|
  {
    assert items + [] == items;
    if news != [] {
      assert Hashable(news[0]) && AllHashable(news[1..]);
      if Contains(original, news[0]) {
        UpdateSucceeds(original, items, news[1..]);
      } else {
        UpdateSucceeds(original, items + [news[0]], news[1..]);
        assert items + [news[0]] + Missing(original, news[1..]) == items + ([news[0]] + Missing(original, news[1..]));
      }
    }
  }

  lemma {:induction false} UnreadableExactly(original: seq<Json>, news: seq<Json>)
    requires AllHashable(news)
    ensures Unreadable(original, news) == [] <==> forall i | 0 <= i < |news| :: Readable(news[i])
  {
    if news != [] {
      assert news == [news[0]] + news[1..];
      UnreadableExactly(original, news[1..]);
      assert forall i | 0 < i < |news| :: news[i] == news[1..][i - 1];
      assert forall i | 0 <= i < |news| - 1 :: news[1..][i] == news[i + 1];
      if !Readable(news[0]) && Contains(original, news[0]) {
        var i :| 0 <= i < |original| && PyEq(original[i], news[0]);
        UnreadableEqualsNothing(original[i], news[0]);
      }
    }
  }

  /**
   * Repeating an update appends again exactly the out-of-range numbers among the entries, which equal nothing, not
   * even themselves, or is refused for length; so it is idempotent if and only if every entry can be read.
   */
  lemma UpdateTwice(items: seq<Json>, news: seq<Json>)
    requires Appended(items, items, news).Ok?
    ensures var once := Appended(items, items, news).value;
      var again := Unreadable(items, news);
      Appended(once, once, news) ==
        if again == [] || |once| + |again| <= MAX_RESULT_LEN then Ok(once + again) else Err(ResultTooLarge)
    ensures var once := Appended(items, items, news).value;
      Appended(once, once, news) == Ok(once) <==> forall i | 0 <= i < |news| :: Readable(news[i])
  {
    UpdateAppends(items, items, news);
    var once := Appended(items, items, news).value;
    StillMissing(items, news, news);
    UpdateSucceeds(once, once, news);
    UnreadableExactly(items, news);
    var again := Unreadable(items, news);
    assert |once + again| == |once| + |again| && (again == [] ==> once + again == once);
    hide Readable, Hashable;
  }

  /** A number beyond the range of a double is appended to any list it can be, whatever the list holds. */
  lemma OutOfRangeNeverPresent(items: seq<Json>, text: Text)
    requires AllHashable(items)
    ensures var v := NumberValue(OutOfRange(text));
      UpdateOf(ArrayValue(items), ArrayValue([v])) ==
        if |items| < MAX_RESULT_LEN then Ok(ArrayValue(items + [v])) else Err(ResultTooLarge)
  {
    var v := NumberValue(OutOfRange(text));
    forall i | 0 <= i < |items| ensures !PyEq(items[i], v) {
      UnreadableEqualsNothing(items[i], v);
    }
    assert !Contains(items, v);
    assert [v][1..] == [] && [v] + [] == [v];
    assert Missing(items, [v]) == [v];
    UpdateSucceeds(items, items, [v]);
    assert Iterate(ArrayValue([v])) == Some([v]);
  }
}
