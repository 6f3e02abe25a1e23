/** Python equality and ordering of JSON values, against the values' exact meaning. */
module PyEquality {
  import opened Common
  import opened TextOrder
  import opened PyValue

  /** What a value is for Python: every number by its exact value, every object as a map. */
  datatype Meaning =
    | MNull
    | MNumber(x: real)
    | MText(text: Text)
    | MList(items: seq<Meaning>)
    | MMap(entries: map<Text, Meaning>)
    | MNothing

  predicate DistinctKeys(entries: seq<(Text, Json)>) {
    forall i, j | 0 <= i < j < |entries| :: entries[i].0 != entries[j].0
  }

  /** No object holds a key twice, at any depth. */
  predicate Keyed(v: Json) {
    match v
    case ArrayValue(items) => forall i | 0 <= i < |items| :: Keyed(items[i])
    case ObjectValue(entries) => DistinctKeys(entries) && forall i | 0 <= i < |entries| :: Keyed(entries[i].1)
    case _ => true
  }

  /** Every number reads as a finite one. */
  predicate Readable(v: Json) {
    match v
    case NumberValue(number) => !number.OutOfRange?
    case ArrayValue(items) => forall i | 0 <= i < |items| :: Readable(items[i])
    case ObjectValue(entries) => forall i | 0 <= i < |entries| :: Readable(entries[i].1)
    case _ => true
  }

  function KeySet(entries: seq<(Text, Json)>): set<Text> {
    set i | 0 <= i < |entries| :: entries[i].0
  }

  function MeaningOf(v: Json): Meaning
    decreases v, 1
  {
    match v
    case NullValue => MNull
    case BoolValue(b) => MNumber(if b then 1.0 else 0.0)
    case NumberValue(Integer(n)) => MNumber(n as real)
    case NumberValue(Decimal(x)) => MNumber(x)
    case NumberValue(OutOfRange(_)) => MNothing
    case StringValue(text) => MText(text)
    case ArrayValue(items) => MList(seq(|items|, i requires 0 <= i < |items| => MeaningOf(items[i])))
    case ObjectValue(entries) =>
      MMap(map key | key in KeySet(entries) :: Lookup(v, entries, key))
  }

  function Lookup(ghost whole: Json, entries: seq<(Text, Json)>, key: Text): Meaning
    requires whole == ObjectValue(entries) && key in KeySet(entries)
    decreases whole, 0
  {
    KeyFound(entries, key);
    MeaningOf(entries[KeyAt(entries, key)].1)
  }

  lemma KeyFound(entries: seq<(Text, Json)>, key: Text)
    ensures key in KeySet(entries) <==> HasKey(entries, key)
  {
    if key in KeySet(entries) {
      var i :| 0 <= i < |entries| && entries[i].0 == key;
    }
  }

  lemma {:induction false} KeyCount(entries: seq<(Text, Json)>)
    requires DistinctKeys(entries)
    ensures |KeySet(entries)| == |entries|
  {
    if entries != [] {
      var front := entries[..|entries| - 1];
      KeyCount(front);
      assert KeySet(entries) == KeySet(front) + {Last(entries).0};
      assert Last(entries).0 !in KeySet(front);
    }
  }

  lemma KeyAtOwn(entries: seq<(Text, Json)>, i: nat)
    requires DistinctKeys(entries) && i < |entries|
    ensures KeyAt(entries, entries[i].0) == i && entries[i].0 in KeySet(entries)
  {
    assert KeyAt(entries, entries[i].0) <= i;
  }

  // Equality is equality of meanings.

  predicate Agree(a: Json, b: Json) {
    PyEq(a, b) <==> Readable(a) && Readable(b) && MeaningOf(a) == MeaningOf(b)
  }

  lemma NumbersAgree(a: Json, b: Json)
    requires AsNum(a).Some? && AsNum(b).Some?
    ensures Agree(a, b)
  {
    CmpNumsExact(AsNum(a).value, AsNum(b).value);
  }

  lemma ListsAgree(a: Json, b: Json)
    requires a.ArrayValue? && b.ArrayValue?
    requires |a.items| == |b.items| ==> forall i | 0 <= i < |a.items| :: Agree(a.items[i], b.items[i])
    ensures Agree(a, b)
  {
    var x, y := a.items, b.items;
    var m, n := MeaningOf(a).items, MeaningOf(b).items;
    assert |m| == |x| && |n| == |y|;
    if |x| == |y| {
      assert forall i | 0 <= i < |x| :: m[i] == MeaningOf(x[i]) && n[i] == MeaningOf(y[i]);
      if PyEq(a, b) {
        forall i | 0 <= i < |x| ensures Readable(x[i]) && Readable(y[i]) && m[i] == n[i] {
          assert Agree(x[i], y[i]);
        }
        assert m == n;
      }
      if Readable(a) && Readable(b) && m == n {
        forall i | 0 <= i < |x| ensures PyEq(x[i], y[i]) {
          assert Agree(x[i], y[i]);
        }
      }
    }
  }

  /** The entry of `b` under the key of entry `i` of `a`. */
  function Match(b: Json, key: Text): Json
    requires b.ObjectValue? && HasKey(b.entries, key)
  {
    b.entries[KeyAt(b.entries, key)].1
  }

  predicate BothRead(a: Json, b: Json) {
    Readable(a) && Readable(b) && MeaningOf(a) == MeaningOf(b)
  }

  /** Equal objects hold the same keys, and equal values agree under each of them. */
  lemma EqualObjectsMatch(a: Json, b: Json)
    requires a.ObjectValue? && b.ObjectValue? && DistinctKeys(a.entries) && DistinctKeys(b.entries)
    requires forall i | 0 <= i < |a.entries| && HasKey(b.entries, a.entries[i].0) ::
      Agree(a.entries[i].1, Match(b, a.entries[i].0))
    requires PyEq(a, b)
    ensures KeySet(a.entries) == KeySet(b.entries)
    ensures forall i | 0 <= i < |a.entries| ::
      HasKey(b.entries, a.entries[i].0) && BothRead(a.entries[i].1, Match(b, a.entries[i].0))
  {
    var x, y := a.entries, b.entries;
    hide PyEq, Readable, MeaningOf;
    SameEntries(a, b);
    forall i | 0 <= i < |x|
      ensures BothRead(x[i].1, Match(b, x[i].0))
    {
      assert Agree(x[i].1, Match(b, x[i].0));
    }
    hide Agree, DistinctKeys;
    forall key | key in KeySet(x) ensures key in KeySet(y) {
      KeyFound(x, key);
      KeyFound(y, key);
    }
    KeyCount(x);
    KeyCount(y);
    SubsetOfSameSize(KeySet(x), KeySet(y));
  }

  lemma EverySecondReads(a: Json, b: Json)
    requires a.ObjectValue? && b.ObjectValue? && DistinctKeys(b.entries) && KeySet(a.entries) == KeySet(b.entries)
    requires forall i | 0 <= i < |a.entries| :: HasKey(b.entries, a.entries[i].0) && Readable(Match(b, a.entries[i].0))
    ensures forall j | 0 <= j < |b.entries| :: Readable(b.entries[j].1)
  {
    hide Readable;
    var x, y := a.entries, b.entries;
    forall j | 0 <= j < |y| ensures Readable(y[j].1) {
      KeyAtOwn(y, j);
      KeyFound(x, y[j].0);
    }
  }

  lemma ObjectsAgreeForward(a: Json, b: Json)
    requires a.ObjectValue? && b.ObjectValue? && DistinctKeys(a.entries) && DistinctKeys(b.entries)
    requires forall i | 0 <= i < |a.entries| && HasKey(b.entries, a.entries[i].0) ::
      Agree(a.entries[i].1, Match(b, a.entries[i].0))
    requires PyEq(a, b)
    ensures Readable(a) && Readable(b) && MeaningOf(a) == MeaningOf(b)
  {
    EqualObjectsMatch(a, b);
    EverySecondReads(a, b);
    hide PyEq, Readable, Agree, DistinctKeys;
    ReadableObject(a);
    ReadableObject(b);
    hide BothRead;
    SameLookups(a, b);
  }

  lemma SameLookups(a: Json, b: Json)
    requires a.ObjectValue? && b.ObjectValue? && KeySet(a.entries) == KeySet(b.entries)
    requires forall i | 0 <= i < |a.entries| ::
      HasKey(b.entries, a.entries[i].0) && BothRead(a.entries[i].1, Match(b, a.entries[i].0))
    ensures MeaningOf(a) == MeaningOf(b)
  {
    hide MeaningOf, Readable;
    ObjectMeaning(a);
    ObjectMeaning(b);
    forall key | key in KeySet(a.entries) ensures Lookup(a, a.entries, key) == Lookup(b, b.entries, key) {
      KeyFound(a.entries, key);
      KeyFound(b.entries, key);
    }
    hide KeySet, Lookup;
    assert MeaningOf(a).entries == MeaningOf(b).entries;
  }

  lemma SameEntries(a: Json, b: Json)
    requires a.ObjectValue? && b.ObjectValue?
    ensures PyEq(a, b) <==> |a.entries| == |b.entries| && forall i | 0 <= i < |a.entries| ::
      HasKey(b.entries, a.entries[i].0) && PyEq(a.entries[i].1, Match(b, a.entries[i].0))
  {
  }

  lemma ReadableObject(a: Json)
    requires a.ObjectValue?
    ensures Readable(a) <==> forall i | 0 <= i < |a.entries| :: Readable(a.entries[i].1)
  {
  }

  lemma ObjectMeaning(a: Json)
    requires a.ObjectValue?
    ensures MeaningOf(a).MMap? && MeaningOf(a).entries.Keys == KeySet(a.entries)
    ensures forall key | key in KeySet(a.entries) ::
      MeaningOf(a).entries[key] == Lookup(a, a.entries, key)
  {
  }

  lemma ObjectsAgreeBackward(a: Json, b: Json)
    requires a.ObjectValue? && b.ObjectValue? && DistinctKeys(a.entries) && DistinctKeys(b.entries)
    requires forall i | 0 <= i < |a.entries| && HasKey(b.entries, a.entries[i].0) ::
      Agree(a.entries[i].1, Match(b, a.entries[i].0))
    requires Readable(a) && Readable(b) && MeaningOf(a) == MeaningOf(b)
    ensures PyEq(a, b)
  {
    var x, y := a.entries, b.entries;
    hide PyEq, Readable, MeaningOf;
    ObjectMeaning(a);
    ObjectMeaning(b);
    KeyCount(x);
    KeyCount(y);
    ReadableObject(a);
    ReadableObject(b);
    forall i | 0 <= i < |x| ensures HasKey(y, x[i].0) && PyEq(x[i].1, Match(b, x[i].0)) {
      KeyAtOwn(x, i);
      KeyFound(y, x[i].0);
      assert Agree(x[i].1, Match(b, x[i].0));
      assert Lookup(a, x, x[i].0) == MeaningOf(x[i].1);
      assert Lookup(b, y, x[i].0) == MeaningOf(Match(b, x[i].0));
    }
    SameEntries(a, b);
  }

  /** Two values are equal exactly when every number in both can be read and both mean the same. */
  lemma {:induction false} EqualIsSameMeaning(a: Json, b: Json)
    requires Keyed(a) && Keyed(b)
    ensures PyEq(a, b) <==> Readable(a) && Readable(b) && MeaningOf(a) == MeaningOf(b)
  {
    if AsNum(a).Some? && AsNum(b).Some? {
      NumbersAgree(a, b);
    } else if a.ArrayValue? && b.ArrayValue? {
      if |a.items| == |b.items| {
        forall i | 0 <= i < |a.items| ensures Agree(a.items[i], b.items[i]) {
          EqualIsSameMeaning(a.items[i], b.items[i]);
        }
      }
      ListsAgree(a, b);
    } else if a.ObjectValue? && b.ObjectValue? {
      forall i | 0 <= i < |a.entries| && HasKey(b.entries, a.entries[i].0)
        ensures Agree(a.entries[i].1, Match(b, a.entries[i].0))
      {
        EqualIsSameMeaning(a.entries[i].1, Match(b, a.entries[i].0));
      }
      if PyEq(a, b) {
        ObjectsAgreeForward(a, b);
      } else if Readable(a) && Readable(b) && MeaningOf(a) == MeaningOf(b) {
        ObjectsAgreeBackward(a, b);
      }
    }
  }

  /** So equality is symmetric and transitive on all values, and a value equals itself exactly when it can be read. */
  lemma EqualityLaws(a: Json, b: Json, c: Json)
    requires Keyed(a) && Keyed(b) && Keyed(c)
    ensures PyEq(a, a) <==> Readable(a)
    ensures PyEq(a, b) <==> PyEq(b, a)
    ensures PyEq(a, b) && PyEq(b, c) ==> PyEq(a, c)
  {
    EqualIsSameMeaning(a, a);
    EqualIsSameMeaning(a, b);
    EqualIsSameMeaning(b, a);
    EqualIsSameMeaning(b, c);
    EqualIsSameMeaning(a, c);
  }

  // The shortcut for small integers.

  predicate SlowEq(a: Json, b: Json) {
    match (AsNum(a), AsNum(b))
    case (Some(x), Some(y)) => CmpNums(x, y) == Some(Equal)
    case (None, None) =>
      (match (a, b)
       case (StringValue(x), StringValue(y)) => x == y
       case (NullValue, NullValue) => true
       case (ArrayValue(x), ArrayValue(y)) => |x| == |y| && forall i | 0 <= i < |x| :: SlowEq(x[i], y[i])
       case (ObjectValue(x), ObjectValue(y)) =>
         |x| == |y| && forall i | 0 <= i < |x| :: HasKey(y, x[i].0) && SlowEq(x[i].1, y[KeyAt(y, x[i].0)].1)
       case _ => false)
    case _ => false
  }

  /** Leaving the shortcut out, at every level, changes no answer. */
  lemma {:induction false} ShortcutAgrees(a: Json, b: Json)
    ensures PyEq(a, b) <==> SlowEq(a, b)
  {
    if a.ArrayValue? && b.ArrayValue? && |a.items| == |b.items| {
      forall i | 0 <= i < |a.items| ensures PyEq(a.items[i], b.items[i]) <==> SlowEq(a.items[i], b.items[i]) {
        ShortcutAgrees(a.items[i], b.items[i]);
      }
    } else if a.ObjectValue? && b.ObjectValue? && |a.entries| == |b.entries| {
      var x, y := a.entries, b.entries;
      forall i | 0 <= i < |x| && HasKey(y, x[i].0)
        ensures PyEq(x[i].1, y[KeyAt(y, x[i].0)].1) <==> SlowEq(x[i].1, y[KeyAt(y, x[i].0)].1)
      {
        ShortcutAgrees(x[i].1, y[KeyAt(y, x[i].0)].1);
      }
    }
  }
}
