/** No operation, and so no run of operations, ever builds an object that holds a key twice. */
module OpsKeyed {
  import opened Common
  import opened TextOrder
  import opened PyValue
  import opened PyEquality
  import opened Widths
  import opened Ops
  import opened OpsSequences

  /** Double arithmetic answers numbers. */
  ghost predicate Numeric(lib: Library) {
    forall op, x, y :: lib.float(op, x, y).Ok? ==> lib.float(op, x, y).value.NumberValue?
  }

  predicate AllKeyed(items: seq<Json>) {
    forall i | 0 <= i < |items| :: Keyed(items[i])
  }

  predicate EntriesKeyed(entries: Entries) {
    DistinctKeys(entries) && forall i | 0 <= i < |entries| :: Keyed(entries[i].1)
  }

  lemma {:induction false} CopiesKeyed(items: seq<Json>, n: nat)
    requires AllKeyed(items)
    ensures AllKeyed(Copies(items, n))
  {
    if n > 0 {
      CopiesKeyed(items, n - 1);
    }
  }

  lemma {:induction false} CharsKeyed(s: Text)
    ensures AllKeyed(Chars(s))
  {
    if s != [] {
      CharsKeyed(s[CharLength(s)..]);
    }
  }

  lemma IterateKeyed(v: Json)
    requires Keyed(v) && Iterate(v).Some?
    ensures AllKeyed(Iterate(v).value)
  {
    if v.StringValue? {
      CharsKeyed(v.text);
    }
  }

  lemma PutKeyed(entries: Entries, key: Text, value: Json)
    requires EntriesKeyed(entries) && Keyed(value)
    ensures EntriesKeyed(Put(entries, key, value))
  {
    PutOne(entries, key, value, key);
    hide KeyAt;
  }

  lemma {:induction false} MergeKeyed(a: Entries, b: Entries)
    requires EntriesKeyed(a) && forall i | 0 <= i < |b| :: Keyed(b[i].1)
    ensures EntriesKeyed(Merge(a, b))
  {
    if b != [] {
      MergeKeyed(a, b[..|b| - 1]);
      PutKeyed(Merge(a, b[..|b| - 1]), Last(b).0, Last(b).1);
    }
  }

  lemma {:induction false} PairsKeyed(elements: seq<Json>)
    requires AllKeyed(elements) && PairsOf(elements).Ok?
    ensures forall i | 0 <= i < |PairsOf(elements).value| :: Keyed(PairsOf(elements).value[i].1)
  {
    if elements != [] {
      var front := elements[..|elements| - 1];
      assert Keyed(Last(elements));
      PairsKeyed(front);
      IterateKeyed(Last(elements));
      hide Iterate;
    }
  }

  lemma {:induction false} AppendedKeyed(original: seq<Json>, items: seq<Json>, news: seq<Json>)
    requires AllKeyed(items) && AllKeyed(news) && Appended(original, items, news).Ok?
    ensures AllKeyed(Appended(original, items, news).value)
    decreases |news|
  {
    if news != [] {
      if Contains(original, news[0]) {
        AppendedKeyed(original, items, news[1..]);
      } else {
        AppendedKeyed(original, items + [news[0]], news[1..]);
      }
    }
  }

  lemma UpdateKeyed(current: Json, arg: Json)
    requires Keyed(current) && Keyed(arg) && UpdateOf(current, arg).Ok?
    ensures Keyed(UpdateOf(current, arg).value)
  {
    if current.ArrayValue? {
      IterateKeyed(arg);
      AppendedKeyed(current.items, current.items, Iterate(arg).value);
    } else if arg.ObjectValue? {
      MergeKeyed(current.entries, arg.entries);
    } else {
      IterateKeyed(arg);
      PairsKeyed(Iterate(arg).value);
      MergeKeyed(current.entries, PairsOf(Iterate(arg).value).value);
    }
  }

  lemma RepeatKeyed(s: Json, count: Json)
    requires Keyed(s) && Repeat(s, count).Some? && Repeat(s, count).value.Ok?
    ensures Keyed(Repeat(s, count).value.value)
  {
    if s.ArrayValue? && AsNum(count).value.i >= 0 {
      CopiesKeyed(s.items, AsNum(count).value.i);
    }
  }

  lemma PopKeyed(current: Json, arg: Json)
    requires Keyed(current) && PopOf(current, arg).Ok?
    ensures Keyed(PopOf(current, arg).value)
  {
    if current.ObjectValue? && arg.StringValue? {
      if HasKey(current.entries, arg.text) {
        PopThenPut(current.entries, arg.text, arg.text);
      }
      hide KeyAt;
    }
  }

  lemma NumbersKeyed(op: Op, current: Json, arg: Json, lib: Library)
    requires Numeric(lib) && Keyed(current) && Keyed(arg) && Apply(op, current, arg, lib).Ok?
    requires
      || op.Add? || op.Mul? || op.Pow? || op.Mod? || op.Floor? || op.Ceil?
      || op.Xor? || op.And? || op.LeftShift? || op.RightShift?
    ensures Keyed(Apply(op, current, arg, lib).value)
  {
    hide Pow2, Copies, Bits, IntPower, FloorMod;
    if op.Mul? {
      if Repeat(current, arg).Some? {
        RepeatKeyed(current, arg);
      } else if Repeat(arg, current).Some? {
        RepeatKeyed(arg, current);
      }
    }
    hide Repeat;
  }

  lemma ApplyKeepsKeyed(op: Op, current: Json, arg: Json, lib: Library)
    requires Numeric(lib) && Keyed(current) && Keyed(arg) && Apply(op, current, arg, lib).Ok?
    ensures Keyed(Apply(op, current, arg, lib).value)
  {
    hide Pow2, Copies, Repeat, Put, KeyAt;
    match op
    case Update => UpdateKeyed(current, arg);
    case Pop => PopKeyed(current, arg);
    case Or =>
      if current.ObjectValue? && arg.ObjectValue? {
        MergeKeyed(current.entries, arg.entries);
      }
    case Remove =>
    case Max =>
    case Min =>
    case Replace =>
    case Default =>
    case Unknown(_) =>
    case _ => NumbersKeyed(op, current, arg, lib);
  }

  /** Starting from values read from JSON, equality stays an equivalence on everything a run of operations computes. */
  lemma {:induction false} RunsKeepKeyed(value: Json, ops: seq<(Op, Json)>, k: nat, lib: Library)
    requires k <= |ops| && Numeric(lib) && Keyed(value) && ApplyFirst(value, ops, k, lib).Ok?
    requires forall i | 0 <= i < k :: Keyed(ops[i].1)
    ensures Keyed(ApplyFirst(value, ops, k, lib).value)
  {
    if k > 0 {
      hide Keyed, Apply;
      RunsKeepKeyed(value, ops, k - 1, lib);
      ApplyKeepsKeyed(ops[k - 1].0, ApplyFirst(value, ops, k - 1, lib).value, ops[k - 1].1, lib);
    }
  }
}
