/** The ordering that `max` and `min` use: reversing, composing, and what it calls equal. */
module PyOrdering {
  import opened Common
  import opened TextOrder
  import opened PyValue

  function Reversed(o: Option<Ordering>): Option<Ordering> {
    match o
    case None => None
    case Some(v) => Some(Reverse(v))
  }

  predicate AtMost(o: Option<Ordering>) {
    o == Some(Less) || o == Some(Equal)
  }

  /** Two steps up, of which at least one is strict, make a strict step. */
  function Joined(p: Ordering, q: Ordering): Ordering {
    if p == Equal && q == Equal then Equal else Less
  }

  /** What can be ordered against itself: numbers that read, texts, and lists of such. */
  predicate Orderable(v: Json) {
    match v
    case NullValue => false
    case BoolValue(_) => true
    case NumberValue(number) => !number.OutOfRange?
    case StringValue(_) => true
    case ArrayValue(items) => forall i | 0 <= i < |items| :: Orderable(items[i])
    case ObjectValue(_) => false
  }

  lemma TextSwap(a: Text, b: Text)
    ensures CmpText(b, a) == Reverse(CmpText(a, b))
  {
    LexTotal(a, b);
    if LexLe(a, b) && LexLe(b, a) {
      LexAntisymmetric(a, b);
    }
  }

  lemma TextCompose(a: Text, b: Text, c: Text)
    requires CmpText(a, b) != Greater && CmpText(b, c) != Greater
    ensures CmpText(a, c) == Joined(CmpText(a, b), CmpText(b, c))
  {
    if a != b && b != c {
      LexTransitive(a, b, c);
      if a == c {
        LexAntisymmetric(a, b);
      }
    }
  }

  /** Swapping the operands reverses the answer, and refuses the same pairs. */
  lemma {:induction false} CmpSwap(a: Json, b: Json)
    ensures PyCmp(b, a) == Reversed(PyCmp(a, b))
    decreases a, 1, 0
  {
    if AsNum(a).Some? && AsNum(b).Some? {
      CmpNumsExact(AsNum(a).value, AsNum(b).value);
      CmpNumsExact(AsNum(b).value, AsNum(a).value);
    } else if a.StringValue? && b.StringValue? {
      TextSwap(a.text, b.text);
    } else if a.ArrayValue? && b.ArrayValue? {
      ItemsSwap(a, b, 0);
    }
  }

  lemma {:induction false} ItemsSwap(a: Json, b: Json, i: nat)
    requires a.ArrayValue? && b.ArrayValue? && i <= |a.items| && i <= |b.items|
    ensures CmpItems(b, b.items, a.items, i) == Reversed(CmpItems(a, a.items, b.items, i))
    decreases a, 0, |a.items| - i
  {
    if i < |a.items| && i < |b.items| {
      CmpSwap(a.items[i], b.items[i]);
      ItemsSwap(a, b, i + 1);
    }
  }

  /** The ordering calls two values equal exactly when they are Python-equal and can be ordered at all. */
  lemma {:induction false} CmpEqualIsEq(a: Json, b: Json)
    ensures PyCmp(a, b) == Some(Equal) <==> PyEq(a, b) && Orderable(a)
    decreases a, 1, 0
  {
    if a.ArrayValue? && b.ArrayValue? {
      ItemsEqual(a, b, 0);
    }
  }

  lemma {:induction false} ItemsEqual(a: Json, b: Json, i: nat)
    requires a.ArrayValue? && b.ArrayValue? && i <= |a.items| && i <= |b.items|
    ensures CmpItems(a, a.items, b.items, i) == Some(Equal) <==>
      |a.items| == |b.items| && forall k | i <= k < |a.items| :: PyEq(a.items[k], b.items[k]) && Orderable(a.items[k])
    decreases a, 0, |a.items| - i
  {
    if i < |a.items| && i < |b.items| {
      CmpEqualIsEq(a.items[i], b.items[i]);
      ItemsEqual(a, b, i + 1);
    }
  }

  /** Steps up compose, across numbers, texts and nested lists. */
  lemma {:induction false} CmpCompose(a: Json, b: Json, c: Json)
    requires AtMost(PyCmp(a, b)) && AtMost(PyCmp(b, c))
    ensures PyCmp(a, c) == Some(Joined(PyCmp(a, b).value, PyCmp(b, c).value))
    decreases a, 1, 0
  {
    if AsNum(a).Some? && AsNum(b).Some? {
      CmpNumsTransitive(AsNum(a).value, AsNum(b).value, AsNum(c).value);
    } else if a.StringValue? {
      TextCompose(a.text, b.text, c.text);
    } else {
      ItemsCompose(a, b, c, 0);
    }
  }

  lemma {:induction false} ItemsCompose(a: Json, b: Json, c: Json, i: nat)
    requires a.ArrayValue? && b.ArrayValue? && c.ArrayValue?
    requires i <= |a.items| && i <= |b.items| && i <= |c.items|
    requires AtMost(CmpItems(a, a.items, b.items, i)) && AtMost(CmpItems(b, b.items, c.items, i))
    ensures CmpItems(a, a.items, c.items, i) ==
      Some(Joined(CmpItems(a, a.items, b.items, i).value, CmpItems(b, b.items, c.items, i).value))
    decreases a, 0, |a.items| - i
  {
    if i < |a.items| && i < |b.items| && i < |c.items| {
      CmpCompose(a.items[i], b.items[i], c.items[i]);
      if PyCmp(a.items[i], b.items[i]) == Some(Equal) && PyCmp(b.items[i], c.items[i]) == Some(Equal) {
        ItemsCompose(a, b, c, i + 1);
      }
    }
  }

}
