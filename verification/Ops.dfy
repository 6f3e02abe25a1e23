/** The eighteen data-storage operations (`crates/pahoa-datastore/src/ops.rs`). */
module Ops {
  import opened Common
  import opened TextOrder
  import opened PyValue
  import opened Widths

  const MAX_RESULT_LEN: nat := 16 * 1024 * 1024
  const MAX_INT_BITS: nat := 65536

  const U32_LIMIT: nat := 0x1_0000_0000
  const U64_LIMIT: nat := 0x1_0000_0000_0000_0000

  datatype OpError =
    | TypeError
    | ValueError
    | IndexError
    | ZeroDivisionError
    | Unhashable
    | UnknownOperation(name: Text)
    | Overflow
    | IntegerTooWide
    | ResultTooLarge
    | NotFinite
    | StringFormatting

  datatype Op =
    | Replace | Default | Add | Mul | Pow | Mod | Floor | Ceil | Max | Min
    | Xor | Or | And | LeftShift | RightShift | Remove | Pop | Update
    | Unknown(name: Text)

  type OpResult = Result<Json, OpError>

  /** What rests on library code: double arithmetic, and bitwise operations on integers. */
  datatype Library = Library(float: (Op, PyNum, PyNum) -> OpResult, bit: (Op, int, int) -> int)

  // Numbers.

  function IntValue(v: int): OpResult {
    if Bits(v) > MAX_INT_BITS then Err(IntegerTooWide) else Ok(NumberValue(Integer(v)))
  }

  predicate TooWide(x: PyNum) {
    x.IntNum? && Bits(x.i) > MAX_INT_BITS
  }

  function NeedNums(a: Json, b: Json): Result<(PyNum, PyNum), OpError> {
    if AsNum(a).None? || AsNum(b).None? then Err(TypeError)
    else if TooWide(AsNum(a).value) || TooWide(AsNum(b).value) then Err(IntegerTooWide)
    else Ok((AsNum(a).value, AsNum(b).value))
  }

  function AddOf(current: Json, arg: Json, lib: Library): OpResult {
    match (current, arg)
    case (StringValue(a), StringValue(b)) =>
      if |a| + |b| > MAX_RESULT_LEN then Err(ResultTooLarge) else Ok(StringValue(a + b))
    case (ArrayValue(a), ArrayValue(b)) =>
      if |a| + |b| > MAX_RESULT_LEN then Err(ResultTooLarge) else Ok(ArrayValue(a + b))
    case _ =>
      var (x, y) :- NeedNums(current, arg);
      if x.IntNum? && y.IntNum? then IntValue(x.i + y.i) else lib.float(Add, x, y)
  }

  function Copies<T>(s: seq<T>, n: nat): seq<T> {
    if n == 0 then [] else s + Copies(s, n - 1)
  }

  /** Sequence repetition, if this pair is a sequence and an integer. */
  function Repeat(s: Json, count: Json): Option<OpResult> {
    if !(s.StringValue? || s.ArrayValue?) then None
    else
      match AsNum(count)
      case Some(IntNum(n)) =>
        if !FitsI64(n) then Some(Err(Overflow))
        else
          var times := if n < 0 then 0 else n;
          Some(match s
               case StringValue(text) =>
                 if |text| * times > MAX_RESULT_LEN then Err(ResultTooLarge) else Ok(StringValue(Copies(text, times)))
               case ArrayValue(items) =>
                 if |items| * times > MAX_RESULT_LEN then Err(ResultTooLarge)
                 else if |items| * times == 0 then Ok(ArrayValue([]))
                 else Ok(ArrayValue(Copies(items, times))))
      case _ => None
  }

  function MulOf(current: Json, arg: Json, lib: Library): OpResult {
    if Repeat(current, arg).Some? then Repeat(current, arg).value
    else if Repeat(arg, current).Some? then Repeat(arg, current).value
    else
      var (x, y) :- NeedNums(current, arg);
      if x.IntNum? && y.IntNum? then
        if Bits(x.i) + Bits(y.i) > MAX_INT_BITS then Err(IntegerTooWide) else IntValue(x.i * y.i)
      else lib.float(Mul, x, y)
  }

  /** A power with a non-negative exponent, its width projected before it is built. */
  function IntPow(a: int, e: nat): OpResult {
    if e >= U32_LIMIT then
      if Bits(a) == 0 then IntValue(0)
      else if Bits(a) == 1 && a < 0 && e % 2 == 1 then IntValue(-1)
      else if Bits(a) == 1 then IntValue(1)
      else Err(IntegerTooWide)
    else
      var projected := if Bits(a) <= 1 then 1 else Bits(a) * e;
      if projected > MAX_INT_BITS then Err(IntegerTooWide) else IntValue(IntPower(a, e))
  }

  function PowOf(current: Json, arg: Json, lib: Library): OpResult {
    var (x, y) :- NeedNums(current, arg);
    if x.IntNum? && y.IntNum? && y.i >= 0 then IntPow(x.i, y.i) else lib.float(Pow, x, y)
  }

  function ModOf(current: Json, arg: Json, lib: Library): OpResult {
    if current.StringValue? then Err(StringFormatting)
    else
      var (x, y) :- NeedNums(current, arg);
      if x.IntNum? && y.IntNum? then
        match FloorMod(x.i, y.i)
        case None => Err(ZeroDivisionError)
        case Some(m) => IntValue(m)
      else lib.float(Mod, x, y)
  }

  function RoundOf(current: Json, up: bool): OpResult {
    match AsNum(current)
    case Some(IntNum(i)) => IntValue(i)
    case Some(FloatNum(Fin(x))) => IntValue(if up then -((-x).Floor) else x.Floor)
    case Some(_) => Err(NotFinite)
    case None => Err(TypeError)
  }

  /** `max` and `min`: `worse` is the ordering that means the argument is taken instead. */
  function PickOf(current: Json, arg: Json, worse: Ordering): OpResult {
    match PyCmp(current, arg)
    case None => Err(TypeError)
    case Some(o) => if o == worse then Ok(arg) else Ok(current)
  }

  function BitwiseOf(op: Op, current: Json, arg: Json, lib: Library): OpResult {
    match (current, arg)
    case (BoolValue(a), BoolValue(b)) => Ok(BoolValue(lib.bit(op, if a then 1 else 0, if b then 1 else 0) != 0))
    case _ =>
      var (x, y) :- NeedNums(current, arg);
      if x.IntNum? && y.IntNum? then IntValue(lib.bit(op, x.i, y.i)) else Err(TypeError)
  }

  function OrOf(current: Json, arg: Json, lib: Library): OpResult {
    match (current, arg)
    case (ObjectValue(a), ObjectValue(b)) => Ok(ObjectValue(Merge(a, b)))
    case _ => BitwiseOf(Or, current, arg, lib)
  }

  function ShiftOf(current: Json, arg: Json, left: bool): OpResult {
    var (x, y) :- NeedNums(current, arg);
    if !(x.IntNum? && y.IntNum?) then Err(TypeError)
    else if y.i < 0 then Err(ValueError)
    else if left then
      if y.i >= U64_LIMIT || Bits(x.i) + y.i > MAX_INT_BITS then Err(IntegerTooWide)
      else IntValue(x.i * Pow2(y.i))
    else if y.i >= U64_LIMIT then IntValue(if x.i < 0 then -1 else 0)
    else IntValue(x.i / Pow2(y.i))
  }

  // Containers.

  type Entries = seq<(Text, Json)>

  /** An ordered map's insertion: in place if the key is there, at the end if not. */
  function Put(entries: Entries, key: Text, value: Json): Entries {
    var i := KeyAt(entries, key);
    if i < |entries| then entries[i := (key, value)] else entries + [(key, value)]
  }

  function Merge(a: Entries, b: Entries): Entries {
    if b == [] then a else
      var rest := Merge(a, b[..|b| - 1]);
      Put(rest, Last(b).0, Last(b).1)
  }

  /** Removal that keeps the order of the rest. */
  function ShiftRemove(entries: Entries, key: Text): Entries {
    var i := KeyAt(entries, key);
    if i < |entries| then entries[..i] + entries[i + 1..] else entries
  }

  function FirstEqual(items: seq<Json>, arg: Json): (i: nat)
    ensures i <= |items|
    ensures i < |items| ==> PyEq(items[i], arg)
    ensures forall j | 0 <= j < i :: !PyEq(items[j], arg)
  {
    if items == [] || PyEq(items[0], arg) then 0
    else
      var i := FirstEqual(items[1..], arg) + 1;
      assert forall j | 0 < j < i :: items[j] == items[1..][j - 1];
      i
  }

  predicate Contains(items: seq<Json>, v: Json) {
    exists i | 0 <= i < |items| :: PyEq(items[i], v)
  }

  function DropAt<T>(s: seq<T>, i: nat): seq<T>
    requires i < |s|
  {
    s[..i] + s[i + 1..]
  }

  function RemoveOf(current: Json, arg: Json): OpResult {
    match current
    case ArrayValue(items) =>
      var i := FirstEqual(items, arg);
      Ok(ArrayValue(if i < |items| then DropAt(items, i) else items))
    case _ => Err(TypeError)
  }

  /** Past the end is nothing to do; before the start is an error. */
  function PopIndex(items: seq<Json>, i: int): OpResult {
    if i >= |items| then Ok(ArrayValue(items))
    else if i < -|items| then Err(IndexError)
    else Ok(ArrayValue(DropAt(items, if i < 0 then |items| + i else i)))
  }

  function PopOf(current: Json, arg: Json): OpResult {
    match current
    case ArrayValue(items) =>
      (match AsNum(arg)
       case Some(IntNum(i)) => PopIndex(items, i)
       case _ => Err(TypeError))
    case ObjectValue(entries) =>
      (match arg
       case StringValue(key) => Ok(ObjectValue(ShiftRemove(entries, key)))
       case ArrayValue(_) => Err(TypeError)
       case ObjectValue(_) => Err(TypeError)
       case _ => Ok(current))
    case _ => Err(TypeError)
  }

  predicate Hashable(v: Json) {
    !v.ArrayValue? && !v.ObjectValue?
  }

  predicate Continues(b: Byte) {
    0x80 <= b < 0xC0
  }

  /** The length of the character a text begins with, from its UTF-8 bytes. */
  function CharLength(s: Text): (n: nat)
    requires s != []
    ensures 0 < n <= |s|
  {
    if |s| == 1 || !Continues(s[1]) then 1 else 1 + CharLength(s[1..])
  }

  function Chars(s: Text): seq<Json> {
    if s == [] then [] else [StringValue(s[..CharLength(s)])] + Chars(s[CharLength(s)..])
  }

  /** What a value yields when iterated. */
  function Iterate(v: Json): Option<seq<Json>> {
    match v
    case ArrayValue(items) => Some(items)
    case StringValue(s) => Some(Chars(s))
    case ObjectValue(entries) => Some(seq(|entries|, i requires 0 <= i < |entries| => StringValue(entries[i].0)))
    case _ => None
  }

  /** Append each of `news` that was not in `original`. */
  function Appended(original: seq<Json>, items: seq<Json>, news: seq<Json>): Result<seq<Json>, OpError>
    decreases |news|
  {
    if news == [] then Ok(items)
    else if !Hashable(news[0]) then Err(Unhashable)
    else if Contains(original, news[0]) then Appended(original, items, news[1..])
    else if |items| >= MAX_RESULT_LEN then Err(ResultTooLarge)
    else Appended(original, items + [news[0]], news[1..])
  }

  /** The pair one element stands for: it must yield exactly two values, the first a text. */
  function PairOf(element: Json): Result<(Text, Json), OpError> {
    match Iterate(element)
    case None => Err(TypeError)
    case Some(kv) =>
      if |kv| != 2 then Err(ValueError)
      else if !kv[0].StringValue? then Err(TypeError)
      else Ok((kv[0].text, kv[1]))
  }

  /** The pairs a sequence stands for, or the error of the first element that is none. */
  function PairsOf(elements: seq<Json>): Result<Entries, OpError> {
    if elements == [] then Ok([])
    else
      var before :- PairsOf(elements[..|elements| - 1]);
      var pair :- PairOf(Last(elements));
      Ok(before + [pair])
  }

  function UpdateOf(current: Json, arg: Json): OpResult {
    match current
    case ArrayValue(items) =>
      (match Iterate(arg)
       case None => Err(TypeError)
       case Some(news) =>
         if !(forall i | 0 <= i < |items| :: Hashable(items[i])) then Err(Unhashable)
         else
           var r :- Appended(items, items, news);
           Ok(ArrayValue(r)))
    case ObjectValue(entries) =>
      if arg.ObjectValue? then Ok(ObjectValue(Merge(entries, arg.entries)))
      else
        (match Iterate(arg)
         case None => Err(TypeError)
         case Some(pairs) =>
           var read :- PairsOf(pairs);
           Ok(ObjectValue(Merge(entries, read))))
    case _ => Err(TypeError)
  }

  // Operations.

  function Apply(op: Op, current: Json, arg: Json, lib: Library): OpResult {
    match op
    case Replace => Ok(arg)
    case Default => Ok(current)
    case Add => AddOf(current, arg, lib)
    case Mul => MulOf(current, arg, lib)
    case Pow => PowOf(current, arg, lib)
    case Mod => ModOf(current, arg, lib)
    case Floor => RoundOf(current, false)
    case Ceil => RoundOf(current, true)
    case Max => PickOf(current, arg, Less)
    case Min => PickOf(current, arg, Greater)
    case Xor => BitwiseOf(Xor, current, arg, lib)
    case Or => OrOf(current, arg, lib)
    case And => BitwiseOf(And, current, arg, lib)
    case LeftShift => ShiftOf(current, arg, true)
    case RightShift => ShiftOf(current, arg, false)
    case Remove => RemoveOf(current, arg)
    case Pop => PopOf(current, arg)
    case Update => UpdateOf(current, arg)
    case Unknown(name) => Err(UnknownOperation(name))
  }

  /** The value after the first `k` operations, or which of them failed and how. */
  function ApplyFirst(value: Json, ops: seq<(Op, Json)>, k: nat, lib: Library): Result<Json, (nat, OpError)>
    requires k <= |ops|
  {
    if k == 0 then Ok(value)
    else
      match ApplyFirst(value, ops, k - 1, lib)
      case Err(e) => Err(e)
      case Ok(v) =>
        match Apply(ops[k - 1].0, v, ops[k - 1].1, lib)
        case Ok(w) => Ok(w)
        case Err(e) => Err((k - 1, e))
  }

  // The operations that loop or change a container, as they run.

  predicate IsFirstEqual(items: seq<Json>, arg: Json, i: int) {
    0 <= i < |items| && PyEq(items[i], arg) && forall j | 0 <= j < i :: !PyEq(items[j], arg)
  }

  /** Take out the first element equal to `arg`. */
  method RemoveFrom(items: seq<Json>, arg: Json) returns (r: seq<Json>)
    ensures Ok(ArrayValue(r)) == RemoveOf(ArrayValue(items), arg)
    ensures Contains(items, arg) <==> |r| < |items|
    ensures |r| < |items| ==> exists i :: IsFirstEqual(items, arg, i) && r == DropAt(items, i)
    ensures |r| >= |items| ==> r == items
  {
    var i := 0;
    while i < |items| && !PyEq(items[i], arg)
      invariant 0 <= i <= |items|
      invariant forall j | 0 <= j < i :: !PyEq(items[j], arg)
    {
      i := i + 1;
    }
    r := if i < |items| then DropAt(items, i) else items;
    assert i == FirstEqual(items, arg);
    assert i < |items| ==> IsFirstEqual(items, arg, i);
  }

  /** Append each entry that was not there to begin with. */
  method UpdateList(items: seq<Json>, news: seq<Json>) returns (r: Result<seq<Json>, OpError>)
    ensures r == Appended(items, items, news)
  {
    var grown := items;
    var i := 0;
    while i < |news|
      invariant 0 <= i <= |news|
      invariant Appended(items, items, news) == Appended(items, grown, news[i..])
    {
      if !Hashable(news[i]) {
        return Err(Unhashable);
      }
      var found := false;
      var j := 0;
      while j < |items|
        invariant 0 <= j <= |items|
        invariant found <==> exists k | 0 <= k < j :: PyEq(items[k], news[i])
      {
        found := found || PyEq(items[j], news[i]);
        j := j + 1;
      }
      assert found == Contains(items, news[i]);
      if !found {
        if |grown| >= MAX_RESULT_LEN {
          return Err(ResultTooLarge);
        }
        grown := grown + [news[i]];
      }
      assert news[i..][1..] == news[i + 1..];
      i := i + 1;
    }
    r := Ok(grown);
  }

  /** Insert every entry of `b` into `a`. */
  method MergeInto(a: Entries, b: Entries) returns (r: Entries)
    ensures r == Merge(a, b)
  {
    r := a;
    var i := 0;
    while i < |b|
      invariant 0 <= i <= |b|
      invariant r == Merge(a, b[..i])
    {
      r := Put(r, b[i].0, b[i].1);
      assert b[..i + 1][..i] == b[..i];
      i := i + 1;
    }
    assert b[..i] == b;
  }

  /** The element at `i` is no pair, failing with `e`, and those before it are pairs. */
  predicate FailsFirstAt(elements: seq<Json>, i: int, e: OpError) {
    0 <= i < |elements| && PairOf(elements[i]) == Err(e) && forall j | 0 <= j < i :: PairOf(elements[j]).Ok?
  }

  /** Reading pairs reads every element in order, or fails with the error of the first that is no pair. */
  lemma {:induction false} PairsRead(elements: seq<Json>)
    ensures PairsOf(elements).Ok? ==> |PairsOf(elements).value| == |elements|
    ensures PairsOf(elements).Ok? ==> forall i | 0 <= i < |elements| ::
      PairOf(elements[i]) == Ok(PairsOf(elements).value[i])
    ensures PairsOf(elements).Err? ==> exists i :: FailsFirstAt(elements, i, PairsOf(elements).error)
  {
    hide PairOf;
    if elements != [] {
      var front := elements[..|elements| - 1];
      var before, last := PairsOf(front), PairOf(Last(elements));
      PairsRead(front);
      assert forall j | 0 <= j < |front| :: front[j] == elements[j];
      if before.Err? {
        assert PairsOf(elements) == Err(before.error);
        var i :| FailsFirstAt(front, i, before.error);
        assert FailsFirstAt(elements, i, before.error);
      } else if last.Err? {
        assert FailsFirstAt(elements, |front|, last.error);
      } else {
        assert PairsOf(elements) == Ok(before.value + [last.value]);
      }
    }
  }

  lemma {:induction false} UnreadStays(elements: seq<Json>, i: nat)
    requires i <= |elements| && PairsOf(elements[..i]).Err?
    ensures PairsOf(elements) == PairsOf(elements[..i])
    decreases |elements|
  {
    if i == |elements| {
      assert elements[..i] == elements;
    } else {
      var front := elements[..|elements| - 1];
      assert front[..i] == elements[..i];
      UnreadStays(front, i);
    }
  }

  /**
   * Insert every pair a sequence stands for: the merge of the pairs, or the error of the first element that is none.
   */
  method UpdatePairs(entries: Entries, elements: seq<Json>) returns (r: Result<Entries, OpError>)
    ensures r.Ok? ==> PairsOf(elements).Ok? && r.value == Merge(entries, PairsOf(elements).value)
    ensures r.Err? ==> PairsOf(elements) == Err(r.error) && exists i :: FailsFirstAt(elements, i, r.error)
  {
    var grown := entries;
    ghost var read: Entries := [];
    var i := 0;
    hide Put, Iterate;
    while i < |elements|
      invariant 0 <= i <= |elements|
      invariant PairsOf(elements[..i]) == Ok(read) && grown == Merge(entries, read)
    {
      assert elements[..i + 1][..i] == elements[..i];
      var kv := Iterate(elements[i]);
      if kv.None? || |kv.value| != 2 || !kv.value[0].StringValue? {
        UnreadStays(elements, i + 1);
        PairsRead(elements);
        return Err(if kv.Some? && |kv.value| != 2 then ValueError else TypeError);
      }
      grown := Put(grown, kv.value[0].text, kv.value[1]);
      var pair := (kv.value[0].text, kv.value[1]);
      assert (read + [pair])[..|read|] == read;
      read := read + [pair];
      i := i + 1;
    }
    assert elements[..i] == elements;
    r := Ok(grown);
  }

  /** The operations before the `k`-th succeed and that one fails with `e`. */
  predicate FailsAt(value: Json, ops: seq<(Op, Json)>, k: nat, e: OpError, lib: Library) {
    k < |ops| && ApplyFirst(value, ops, k, lib).Ok?
    && Apply(ops[k].0, ApplyFirst(value, ops, k, lib).value, ops[k].1, lib) == Err(e)
  }

  /** Run a whole sequence: the last value, or the first failure and where it was. */
  method ApplyEach(value: Json, ops: seq<(Op, Json)>, lib: Library) returns (r: Result<Json, (nat, OpError)>)
    ensures r == ApplyFirst(value, ops, |ops|, lib)
    ensures r.Err? ==> FailsAt(value, ops, r.error.0, r.error.1, lib)
  {
    var current := value;
    var i := 0;
    while i < |ops|
      invariant 0 <= i <= |ops|
      invariant ApplyFirst(value, ops, i, lib) == Ok(current)
    {
      match Apply(ops[i].0, current, ops[i].1, lib) {
        case Ok(next) =>
          current := next;
        case Err(e) =>
          FailureStays(value, ops, i + 1, |ops|, lib);
          return Err((i, e));
      }
      i := i + 1;
    }
    r := Ok(current);
  }

  /** Nothing runs after a failure. */
  lemma {:induction false} FailureStays(value: Json, ops: seq<(Op, Json)>, j: nat, k: nat, lib: Library)
    requires j <= k <= |ops| && ApplyFirst(value, ops, j, lib).Err?
    ensures ApplyFirst(value, ops, k, lib) == ApplyFirst(value, ops, j, lib)
  {
    if j < k {
      FailureStays(value, ops, j, k - 1, lib);
    }
  }
}
