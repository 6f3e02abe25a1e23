/** What each operation answers on texts, lists and maps, told of the operation itself. */
module OpsContainers {
  import opened Common
  import opened Numerals
  import opened TextOrder
  import opened PyValue
  import opened PyEquality
  import opened PyOrdering
  import opened Utf8
  import opened Ops
  import opened OpsSequences

  /** The simplest operations: the argument, the current value, nothing known. */
  lemma SimpleAnswers(current: Json, arg: Json, name: Text, lib: Library)
    ensures Apply(Replace, current, arg, lib) == Ok(arg)
    ensures Apply(Default, current, arg, lib) == Ok(current)
    ensures Apply(Unknown(name), current, arg, lib) == Err(UnknownOperation(name))
  {
  }

  // add.

  /** Texts and lists are joined, first all of the current value and then all of the argument, up to 16 MiB. */
  lemma AddJoins(a: Text, b: Text, xs: seq<Json>, ys: seq<Json>, lib: Library)
    ensures Apply(Add, StringValue(a), StringValue(b), lib)
         == if |a| + |b| <= 16_777_216 then Ok(StringValue(a + b)) else Err(ResultTooLarge)
    ensures Apply(Add, ArrayValue(xs), ArrayValue(ys), lib)
         == if |xs| + |ys| <= 16_777_216 then Ok(ArrayValue(xs + ys)) else Err(ResultTooLarge)
  {
  }

  /** A text adds only to a text, a list only to a list, and a map to nothing. */
  lemma AddRefuses(current: Json, arg: Json, lib: Library)
    requires !(current.StringValue? && arg.StringValue?) && !(current.ArrayValue? && arg.ArrayValue?)
    requires AsNum(current).None? || AsNum(arg).None?
    ensures Apply(Add, current, arg, lib) == Err(TypeError)
  {
  }

  // mul.

  /** `t` is `s` over and over, `times` times. */
  predicate Repeats<T(==)>(s: seq<T>, t: seq<T>, times: nat) {
    |t| == |s| * times && forall k | 0 <= k < |t| :: t[k] == s[k % |s|]
  }

  lemma CopiesAreRepeats<T>(s: seq<T>, n: nat)
    ensures Repeats(s, Copies(s, n), n)
  {
    CopiesLength(s, n);
    if s != [] {
      forall k | 0 <= k < |Copies(s, n)| ensures Copies(s, n)[k] == s[k % |s|] {
        CopiesRepeat(s, n, k);
      }
    }
  }

  /** A sequence and an integer, in either order. */
  function Product(s: Json, count: Json, swapped: bool, lib: Library): OpResult {
    if swapped then Apply(Mul, count, s, lib) else Apply(Mul, s, count, lib)
  }

  /** What a text of `size` bytes or list of `size` items answers before anything is repeated. */
  function RepeatRefusal(size: nat, n: int): Option<OpError> {
    if n < -0x8000_0000_0000_0000 || n > 0x7fff_ffff_ffff_ffff then Some(Overflow)
    else if n > 0 && size * n > 16_777_216 then Some(ResultTooLarge)
    else None
  }

  /** A text times an integer, whichever comes first: repeated that often, not at all for a negative count. */
  lemma MulRepeatsText(s: Text, count: Json, n: int, swapped: bool, lib: Library)
    requires AsNum(count) == Some(IntNum(n))
    ensures var r := Product(StringValue(s), count, swapped, lib);
      match RepeatRefusal(|s|, n)
      case Some(e) => r == Err(e)
      case None => r.Ok? && r.value.StringValue? && Repeats(s, r.value.text, if n < 0 then 0 else n)
  {
    CopiesAreRepeats(s, if n < 0 then 0 else n);
    hide Copies, Repeats;
    RepeatOnce(StringValue(s), count, swapped, lib);
  }

  lemma RepeatOnce(s: Json, count: Json, swapped: bool, lib: Library)
    requires s.StringValue? || s.ArrayValue?
    requires AsNum(count).Some? && AsNum(count).value.IntNum?
    ensures Repeat(s, count).Some? && Product(s, count, swapped, lib) == Repeat(s, count).value
  {
    hide Copies;
  }

  /** So a list. */
  lemma MulRepeatsList(s: seq<Json>, count: Json, n: int, swapped: bool, lib: Library)
    requires AsNum(count) == Some(IntNum(n))
    ensures var r := Product(ArrayValue(s), count, swapped, lib);
      match RepeatRefusal(|s|, n)
      case Some(e) => r == Err(e)
      case None => r.Ok? && r.value.ArrayValue? && Repeats(s, r.value.items, if n < 0 then 0 else n)
  {
    CopiesAreRepeats(s, if n < 0 then 0 else n);
    NothingRepeats(s, if n < 0 then 0 else n);
    hide Copies, Repeats;
    RepeatOnce(ArrayValue(s), count, swapped, lib);
  }

  lemma NothingRepeats<T>(s: seq<T>, n: nat)
    ensures |s| * n == 0 ==> Repeats(s, [], n)
  {
  }

  /** Two sequences, a map, or a sequence and something that is no integer have no product. */
  lemma MulRefuses(current: Json, arg: Json, lib: Library)
    requires AsNum(current).None? || AsNum(arg).None?
    requires current.StringValue? || current.ArrayValue? ==> AsNum(arg).None? || AsNum(arg).value.FloatNum?
    requires arg.StringValue? || arg.ArrayValue? ==> AsNum(current).None? || AsNum(current).value.FloatNum?
    ensures Apply(Mul, current, arg, lib) == Err(TypeError)
  {
    hide Copies;
  }

  // remove and pop.

  /** The first element equal to the argument goes; without one nothing does. */
  lemma RemoveAnswers(items: seq<Json>, arg: Json, lib: Library)
    ensures Contains(items, arg) ==>
      exists i: nat :: IsFirstEqual(items, arg, i) && Apply(Remove, ArrayValue(items), arg, lib)
                                                   == Ok(ArrayValue(items[..i] + items[i + 1..]))
    ensures !Contains(items, arg) ==> Apply(Remove, ArrayValue(items), arg, lib) == Ok(ArrayValue(items))
  {
    var i := FirstEqual(items, arg);
    if Contains(items, arg) {
      assert IsFirstEqual(items, arg, i);
    }
  }

  /**
   * An index from the end pops what the same place counted from the start pops; past the end is nothing, before the
   * start an error.
   */
  lemma PopAnswers(items: seq<Json>, arg: Json, i: int, lib: Library)
    requires AsNum(arg) == Some(IntNum(i))
    ensures var r, n := Apply(Pop, ArrayValue(items), arg, lib), |items|;
      && (i >= n ==> r == Ok(ArrayValue(items)))
      && (i < -n ==> r == Err(IndexError))
      && (0 <= i < n ==> r == Ok(ArrayValue(items[..i] + items[i + 1..])))
      && (-n <= i < 0 ==> r == Ok(ArrayValue(items[..n + i] + items[n + i + 1..])))
  {
  }

  lemma PopIsShift(entries: Entries, arg: Json, lib: Library)
    ensures var r := Apply(Pop, ObjectValue(entries), arg, lib);
      && (arg.ArrayValue? || arg.ObjectValue? ==> r == Err(TypeError))
      && (arg.StringValue? && HasKey(entries, arg.text) ==> r == Ok(ObjectValue(ShiftRemove(entries, arg.text))))
      && (Hashable(arg) && !(arg.StringValue? && HasKey(entries, arg.text)) ==> r == Ok(ObjectValue(entries)))
  {
    hide KeyAt;
  }

  lemma ShiftedOut(entries: Entries, key: Text, other: Text)
    requires DistinctKeys(entries) && HasKey(entries, key)
    ensures var r := ShiftRemove(entries, key);
      && |r| == |entries| - 1 && !HasKey(r, key) && (other != key ==> SameAt(entries, r, other))
  {
    PopMeans(entries, key, other);
    hide KeyAt;
  }

  /** A key of a map is popped alone; any other plain value pops nothing, and a list or map cannot be a key. */
  lemma PopKeyAnswers(entries: Entries, arg: Json, other: Text, lib: Library)
    requires DistinctKeys(entries)
    ensures var r := Apply(Pop, ObjectValue(entries), arg, lib);
      && (arg.ArrayValue? || arg.ObjectValue? ==> r == Err(TypeError))
      && (arg.StringValue? && HasKey(entries, arg.text) ==>
            && r.Ok? && r.value.ObjectValue?
            && |r.value.entries| == |entries| - 1 && !HasKey(r.value.entries, arg.text)
            && (other != arg.text ==> SameAt(entries, r.value.entries, other)))
      && (Hashable(arg) && !(arg.StringValue? && HasKey(entries, arg.text)) ==> r == Ok(ObjectValue(entries)))
  {
    hide Apply, HasKey, ShiftRemove, SameAt, DistinctKeys;
    PopIsShift(entries, arg, lib);
    if arg.StringValue? && HasKey(entries, arg.text) {
      ShiftedOut(entries, arg.text, other);
    }
  }

  /** Two maps hold the same under a key. */
  ghost predicate SameAt(a: Entries, b: Entries, key: Text) {
    (HasKey(a, key) <==> HasKey(b, key)) && (HasKey(a, key) ==> At(a, key) == At(b, key))
  }

  /** Only lists and maps can be popped, and only a list removed from. */
  lemma PopRefuses(current: Json, arg: Json, lib: Library)
    ensures !current.ArrayValue? ==> Apply(Remove, current, arg, lib) == Err(TypeError)
    ensures !current.ArrayValue? && !current.ObjectValue? ==> Apply(Pop, current, arg, lib) == Err(TypeError)
    ensures current.ArrayValue? && !(AsNum(arg).Some? && AsNum(arg).value.IntNum?) ==>
      Apply(Pop, current, arg, lib) == Err(TypeError)
  {
  }

  // update and or.

  /** `or` and `update` merge two maps: the argument wins, everything else stays, keys keep their places. */
  lemma MergeAnswers(op: Op, a: Entries, b: Entries, key: Text, lib: Library)
    requires (op.Or? || op.Update?) && DistinctKeys(a) && DistinctKeys(b)
    ensures var r := Apply(op, ObjectValue(a), ObjectValue(b), lib);
      && r.Ok? && r.value.ObjectValue?
      && var m := r.value.entries;
         && DistinctKeys(m) && |m| >= |a|
         && (forall i | 0 <= i < |a| :: m[i].0 == a[i].0)
         && (HasKey(m, key) <==> HasKey(a, key) || HasKey(b, key))
         && (HasKey(b, key) ==> At(m, key) == At(b, key))
         && (HasKey(a, key) && !HasKey(b, key) ==> At(m, key) == At(a, key))
  {
    MergeMeans(a, b, key);
    MergeKeepsPlaces(a, b);
    hide Merge;
  }

  /** Every character of a text, each as a text of its own. */
  lemma {:induction false} CharsAreScalars(cs: seq<int>)
    requires AllScalars(cs)
    ensures |Chars(AllEncoded(cs))| == |cs|
    ensures forall i | 0 <= i < |cs| :: Chars(AllEncoded(cs))[i] == StringValue(Encoded(cs[i]))
  {
    if cs != [] {
      var head, rest := Encoded(cs[0]), AllEncoded(cs[1..]);
      var all := AllEncoded(cs);
      assert all == head + rest;
      StartsCharacter(cs[1..]);
      HeadLength(cs[0], rest);
      assert all[..|head|] == head && all[|head|..] == rest;
      CharsAreScalars(cs[1..]);
      hide AllEncoded, Encoded, Scalar;
      forall i | 0 <= i < |cs| ensures Chars(all)[i] == StringValue(Encoded(cs[i])) {
        if i > 0 {
          assert Chars(all)[i] == Chars(rest)[i - 1] && cs[1..][i - 1] == cs[i];
        }
      }
    }
  }

  lemma StartsCharacter(cs: seq<int>)
    requires AllScalars(cs)
    ensures AllEncoded(cs) == [] || !Continues(AllEncoded(cs)[0])
  {
    if cs != [] {
      EncodedRanges(cs[0]);
      assert AllEncoded(cs)[0] == Encoded(cs[0])[0];
    }
  }

  lemma HeadLength(c: int, rest: Text)
    requires Scalar(c) && (rest == [] || !Continues(rest[0]))
    ensures CharLength(Encoded(c) + rest) == |Encoded(c)|
  {
    EncodedRanges(c);
    CountedLength(Encoded(c), rest, 1);
  }

  lemma {:induction false} CountedLength(head: Text, rest: Text, k: nat)
    requires 1 <= k <= |head| && (forall i | 1 <= i < |head| :: Continues(head[i]))
    requires rest == [] || !Continues(rest[0])
    ensures CharLength(head[k - 1..] + rest) == |head| - k + 1
    decreases |head| - k
  {
    var s := head[k - 1..] + rest;
    if k < |head| {
      assert s[1] == head[k];
      assert s[1..] == head[k..] + rest;
      CountedLength(head, rest, k + 1);
    } else if rest != [] {
      assert s[1] == rest[0];
    }
  }

  /** Updating a list with anything that can be gone through appends what it did not hold, or refuses. */
  lemma UpdateAnswers(items: seq<Json>, arg: Json, news: seq<Json>, lib: Library)
    requires Iterate(arg) == Some(news)
    ensures var r := Apply(Update, ArrayValue(items), arg, lib);
      && (!AllHashable(items) ==> r == Err(Unhashable))
      && (AllHashable(items) && AllHashable(news) ==>
            r == if Missing(items, news) == [] || |items + Missing(items, news)| <= 16_777_216
                 then Ok(ArrayValue(items + Missing(items, news))) else Err(ResultTooLarge))
      && (r.Ok? ==> AllHashable(items) && AllHashable(news))
  {
    if AllHashable(news) {
      UpdateSucceeds(items, items, news);
    }
    if Appended(items, items, news).Ok? {
      UpdateAppends(items, items, news);
    }
  }

  /** What a value yields when gone through: items, characters, keys; a number, truth value or null nothing. */
  lemma Yields(v: Json, cs: seq<int>)
    requires AllScalars(cs)
    ensures var kids := Iterate(v);
      match v
      case ArrayValue(items) => kids == Some(items)
      case StringValue(text) => text == AllEncoded(cs) ==> kids.Some? && TextsOf(kids.value, cs)
      case ObjectValue(entries) =>
        && kids.Some? && |kids.value| == |entries|
        && forall i | 0 <= i < |entries| :: kids.value[i] == StringValue(entries[i].0)
      case _ => kids.None?
  {
    CharsAreScalars(cs);
    hide AllEncoded, Chars;
  }

  /** Each the text of one character. */
  predicate TextsOf(vs: seq<Json>, cs: seq<int>)
    requires AllScalars(cs)
  {
    |vs| == |cs| && forall i | 0 <= i < |cs| :: vs[i] == StringValue(Encoded(cs[i]))
  }

  /** Only lists and maps can be updated, and only with something that can be gone through. */
  lemma UpdateRefuses(current: Json, arg: Json, lib: Library)
    requires (!current.ArrayValue? && !current.ObjectValue?) || Iterate(arg).None?
    ensures Apply(Update, current, arg, lib) == Err(TypeError)
  {
    hide Chars;
  }

  /** Repeating an update of a list appends again just the numbers no double can hold, or is refused for length. */
  lemma UpdateAgain(items: seq<Json>, arg: Json, news: seq<Json>, lib: Library)
    requires Iterate(arg) == Some(news) && Apply(Update, ArrayValue(items), arg, lib).Ok?
    ensures var once := Apply(Update, ArrayValue(items), arg, lib).value;
      && once.ArrayValue?
      && (Apply(Update, once, arg, lib) == Ok(once) <==> forall i | 0 <= i < |news| :: Readable(news[i]))
  {
    UpdateAnswers(items, arg, news, lib);
    UpdateTwice(items, news);
    UpdateAppends(items, items, news);
    MissingHashable(items, news);
    hide Readable;
  }

  lemma {:induction false} MissingHashable(items: seq<Json>, news: seq<Json>)
    requires AllHashable(news)
    ensures AllHashable(Missing(items, news))
  {
    if news != [] {
      assert Hashable(news[0]) && AllHashable(news[1..]);
      MissingHashable(items, news[1..]);
    }
  }

  /** Why an element is no pair: it cannot be gone through, yields other than two values, or its key is no text. */
  predicate BadPair(element: Json, e: OpError) {
    match Iterate(element)
    case None => e == TypeError
    case Some(kv) => if |kv| != 2 then e == ValueError else !kv[0].StringValue? && e == TypeError
  }

  predicate FirstBadPair(elements: seq<Json>, i: nat, e: OpError) {
    i < |elements| && BadPair(elements[i], e) && forall j | 0 <= j < i :: !BadPair(elements[j], TypeError)
                                                                      && !BadPair(elements[j], ValueError)
  }

  /** Updating a map with elements that are pairs of a text and a value merges them; the first bad one is the error. */
  lemma UpdatePairsAnswers(entries: Entries, arg: Json, elements: seq<Json>, lib: Library)
    requires !arg.ObjectValue? && Iterate(arg) == Some(elements)
    ensures var r := Apply(Update, ObjectValue(entries), arg, lib);
      match PairsOf(elements)
      case Ok(pairs) =>
        && |pairs| == |elements|
        && (forall i | 0 <= i < |pairs| ::
              Iterate(elements[i]) == Some([StringValue(pairs[i].0), pairs[i].1]))
        && r == Apply(Or, ObjectValue(entries), ObjectValue(pairs), lib)
      case Err(e) => r == Err(e) && exists i: nat :: FirstBadPair(elements, i, e)
  {
    UpdateIsMerge(entries, arg, elements, lib);
    hide Apply;
    if PairsOf(elements).Ok? {
      PairsAreRead(elements);
    } else {
      var i := FirstBad(elements);
    }
  }

  lemma {:induction false} FirstBad(elements: seq<Json>) returns (i: nat)
    requires PairsOf(elements).Err?
    ensures FirstBadPair(elements, i, PairsOf(elements).error)
  {
    hide Iterate;
    var front := elements[..|elements| - 1];
    if PairsOf(front).Err? {
      i := FirstBad(front);
    } else {
      i := |front|;
      PairsAreRead(front);
      forall j | 0 <= j < i ensures !BadPair(elements[j], TypeError) && !BadPair(elements[j], ValueError) {
        assert front[j] == elements[j];
      }
    }
  }

  lemma UpdateIsMerge(entries: Entries, arg: Json, elements: seq<Json>, lib: Library)
    requires !arg.ObjectValue? && Iterate(arg) == Some(elements)
    ensures var r, read := Apply(Update, ObjectValue(entries), arg, lib), PairsOf(elements);
      && (read.Ok? ==> r == Apply(Or, ObjectValue(entries), ObjectValue(read.value), lib))
      && (read.Err? ==> r == Err(read.error))
  {
    hide PairsOf, Merge, Iterate;
  }

  lemma {:induction false} PairsAreRead(elements: seq<Json>)
    requires PairsOf(elements).Ok?
    ensures var pairs := PairsOf(elements).value;
      && |pairs| == |elements|
      && forall i | 0 <= i < |pairs| :: Iterate(elements[i]) == Some([StringValue(pairs[i].0), pairs[i].1])
  {
    if elements != [] {
      PairsAreRead(elements[..|elements| - 1]);
      var kv := Iterate(Last(elements)).value;
      assert kv == [kv[0], kv[1]];
    }
  }
}
