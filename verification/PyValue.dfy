/** Python's equality and ordering over JSON (`crates/pahoa-datastore/src/pyvalue.rs`). */
module PyValue {
  import opened Common
  import opened TextOrder

  /**
   * A number as its text reads: an integer of any width, a decimal within the range of a double, rounded to that
   * double's exact value, or a decimal outside it.
   */
  datatype Number = Integer(n: int) | Decimal(x: real) | OutOfRange(text: Text)

  datatype Json =
    | NullValue
    | BoolValue(b: bool)
    | NumberValue(number: Number)
    | StringValue(text: Text)
    | ArrayValue(items: seq<Json>)
    | ObjectValue(entries: seq<(Text, Json)>)

  /** A double: a finite one by its exact value. */
  datatype F64 = Fin(x: real) | PosInf | NegInf | NaN

  datatype PyNum = IntNum(i: int) | FloatNum(f: F64)

  datatype Ordering = Less | Equal | Greater

  function Reverse(o: Ordering): Ordering {
    match o
    case Less => Greater
    case Equal => Equal
    case Greater => Less
  }

  function CmpInt(a: int, b: int): Ordering {
    if a < b then Less else if a == b then Equal else Greater
  }

  function CmpReal(a: real, b: real): Ordering {
    if a < b then Less else if a == b then Equal else Greater
  }

  // Numbers.

  /** Toward zero. */
  function Trunc(x: real): int {
    if x >= 0.0 then x.Floor else -((-x).Floor)
  }

  function CmpIntF64(a: int, f: F64): Option<Ordering> {
    match f
    case NaN => None
    case PosInf => Some(Less)
    case NegInf => Some(Greater)
    case Fin(x) =>
      var whole := Trunc(x);
      if CmpInt(a, whole) == Equal then
        var fraction := x - whole as real;
        Some(if fraction > 0.0 then Less else if fraction < 0.0 then Greater else Equal)
      else Some(CmpInt(a, whole))
  }

  function PartialCmp(a: F64, b: F64): Option<Ordering> {
    match (a, b)
    case (NaN, _) => None
    case (_, NaN) => None
    case (Fin(x), Fin(y)) => Some(CmpReal(x, y))
    case (PosInf, PosInf) => Some(Equal)
    case (NegInf, NegInf) => Some(Equal)
    case (PosInf, _) => Some(Greater)
    case (_, PosInf) => Some(Less)
    case (NegInf, _) => Some(Less)
    case (_, NegInf) => Some(Greater)
  }

  function CmpNums(x: PyNum, y: PyNum): Option<Ordering> {
    match (x, y)
    case (IntNum(a), IntNum(b)) => Some(CmpInt(a, b))
    case (FloatNum(a), FloatNum(b)) => PartialCmp(a, b)
    case (IntNum(a), FloatNum(f)) => CmpIntF64(a, f)
    case (FloatNum(f), IntNum(b)) =>
      match CmpIntF64(b, f)
      case None => None
      case Some(o) => Some(Reverse(o))
  }

  predicate Finite(x: PyNum) {
    x.IntNum? || x.f.Fin?
  }

  /** The number a finite `PyNum` exactly is. */
  function Exact(x: PyNum): real
    requires Finite(x)
  {
    match x
    case IntNum(i) => i as real
    case FloatNum(f) => f.x
  }

  lemma TruncTowardZero(x: real)
    ensures x >= 0.0 ==> Trunc(x) as real <= x < Trunc(x) as real + 1.0
    ensures x < 0.0 ==> Trunc(x) as real - 1.0 < x <= Trunc(x) as real
  {
  }

  /** Comparing an integer with a double loses nothing, however wide the integer. */
  lemma CmpIntF64Exact(a: int, x: real)
    ensures CmpIntF64(a, Fin(x)) == Some(CmpReal(a as real, x))
  {
    TruncTowardZero(x);
    var whole := Trunc(x);
    if a < whole {
      assert a as real + 1.0 <= whole as real;
    } else if a > whole {
      assert a as real >= whole as real + 1.0;
    }
  }

  /** Where on the extended line a number lies: below, on, or above the finite ones. */
  function Zone(x: PyNum): int {
    if Finite(x) then 0 else if x.f.PosInf? then 1 else -1
  }

  /** Across integers and doubles, the order is that of the exact values, infinities outermost; only NaN has none. */
  lemma CmpNumsExact(x: PyNum, y: PyNum)
    ensures CmpNums(x, y) ==
      if x == FloatNum(NaN) || y == FloatNum(NaN) then None
      else if Finite(x) && Finite(y) then Some(CmpReal(Exact(x), Exact(y)))
      else Some(CmpInt(Zone(x), Zone(y)))
  {
    if x.IntNum? && Finite(y) && y.FloatNum? {
      CmpIntF64Exact(x.i, y.f.x);
    }
    if y.IntNum? && Finite(x) && x.FloatNum? {
      CmpIntF64Exact(y.i, x.f.x);
    }
  }

  /** Hence the order is transitive across the two kinds. */
  lemma CmpNumsTransitive(x: PyNum, y: PyNum, z: PyNum)
    requires CmpNums(x, y) == Some(Less) || CmpNums(x, y) == Some(Equal)
    requires CmpNums(y, z) == Some(Less) || CmpNums(y, z) == Some(Equal)
    ensures CmpNums(x, z) ==
      if CmpNums(x, y) == Some(Equal) && CmpNums(y, z) == Some(Equal) then Some(Equal) else Some(Less)
  {
    CmpNumsExact(x, y);
    CmpNumsExact(y, z);
    CmpNumsExact(x, z);
  }

  /** Truncating remainder: the sign of the dividend. */
  function RemTrunc(a: int, b: int): int
    requires b != 0
  {
    var m := Magnitude(a) % Magnitude(b);
    if a < 0 then -m else m
  }

  function Magnitude(a: int): nat {
    if a < 0 then -a else a
  }

  function FloorMod(a: int, b: int): Option<int> {
    if b == 0 then None
    else
      var m := RemTrunc(a, b);
      Some(if m != 0 && ((m < 0) != (b < 0)) then m + b else m)
  }

  /**
   * The remainder takes the divisor's sign and leaves a multiple of it, so it is the floored remainder and no other.
   */
  lemma FloorModIsFloored(a: int, b: int)
    requires b != 0
    ensures FloorMod(a, b).Some?
    ensures var m := FloorMod(a, b).value; (b > 0 ==> 0 <= m < b) && (b < 0 ==> b < m <= 0)
    ensures (a - FloorMod(a, b).value) % b == 0
  {
    var d := Magnitude(b);
    var q := Magnitude(a) / d;
    var r := Magnitude(a) % d;
    assert Magnitude(a) == d * q + r;
    var m := FloorMod(a, b).value;
    var k := if a < 0 then (if b < 0 then q else if r == 0 then -q else -q - 1)
             else if b < 0 then (if r == 0 then -q else -q - 1) else q;
    assert a - m == b * k by {
      SignedProducts(d, q);
      assert b == d || b == -d;
    }
    MultipleHasNoRemainder(b, k);
  }

  lemma SignedProducts(d: int, q: int)
    ensures (-d) * q == -(d * q) && d * (-q) == -(d * q) && (-d) * (-q) == d * q
    ensures d * (-q - 1) == -(d * q) - d && (-d) * (-q - 1) == d * q + d
  {
  }

  lemma MultipleHasNoRemainder(b: int, k: int)
    requires b != 0
    ensures (b * k) % b == 0
  {
    var r := (b * k) % b;
    var q := (b * k) / b;
    assert b * k == b * q + r;
    assert b * (k - q) == r;
    if k - q >= 1 {
      ProductAtLeast(Magnitude(b), k - q);
    } else if k - q <= -1 {
      ProductAtLeast(Magnitude(b), q - k);
    }
  }

  lemma ProductAtLeast(b: int, k: int)
    requires b >= 0 && k >= 1
    ensures b * k >= b
  {
  }

  // Values.

  function AsNum(v: Json): Option<PyNum> {
    match v
    case BoolValue(b) => Some(IntNum(if b then 1 else 0))
    case NumberValue(Integer(n)) => Some(IntNum(n))
    case NumberValue(Decimal(x)) => Some(FloatNum(Fin(x)))
    case _ => None
  }

  /** Both values as machine integers, if both are numbers that small. */
  function SmallInts(a: Json, b: Json): Option<(int, int)> {
    match (a, b)
    case (NumberValue(Integer(x)), NumberValue(Integer(y))) =>
      if FitsI64(x) && FitsI64(y) then Some((x, y)) else None
    case _ => None
  }

  function KeyAt(entries: seq<(Text, Json)>, key: Text): (i: nat)
    ensures i <= |entries|
    ensures i < |entries| ==> entries[i].0 == key
    ensures forall j | 0 <= j < i :: entries[j].0 != key
  {
    if entries == [] then 0
    else if entries[0].0 == key then 0
    else
      var i := KeyAt(entries[1..], key) + 1;
      assert forall j | 0 < j < i :: entries[j].0 == entries[1..][j - 1].0;
      i
  }

  predicate HasKey(entries: seq<(Text, Json)>, key: Text) {
    KeyAt(entries, key) < |entries|
  }

  predicate PyEq(a: Json, b: Json) {
    if SmallInts(a, b).Some? then SmallInts(a, b).value.0 == SmallInts(a, b).value.1
    else
      match (AsNum(a), AsNum(b))
      case (Some(x), Some(y)) => CmpNums(x, y) == Some(Equal)
      case (None, None) =>
        (match (a, b)
         case (StringValue(x), StringValue(y)) => x == y
         case (NullValue, NullValue) => true
         case (ArrayValue(x), ArrayValue(y)) => |x| == |y| && forall i | 0 <= i < |x| :: PyEq(x[i], y[i])
         case (ObjectValue(x), ObjectValue(y)) =>
           |x| == |y| && forall i | 0 <= i < |x| :: HasKey(y, x[i].0) && PyEq(x[i].1, y[KeyAt(y, x[i].0)].1)
         case _ => false)
      case _ => false
  }

  function CmpText(a: Text, b: Text): Ordering {
    if a == b then Equal else if LexLe(a, b) then Less else Greater
  }

  function PyCmp(a: Json, b: Json): Option<Ordering>
    decreases a, 1, 0
  {
    if SmallInts(a, b).Some? then Some(CmpInt(SmallInts(a, b).value.0, SmallInts(a, b).value.1))
    else if AsNum(a).Some? && AsNum(b).Some? then CmpNums(AsNum(a).value, AsNum(b).value)
    else
      match (a, b)
      case (StringValue(x), StringValue(y)) => Some(CmpText(x, y))
      case (ArrayValue(x), ArrayValue(y)) => CmpItems(a, x, y, 0)
      case _ => None
  }

  /** Lexicographic from place `i` on. */
  function CmpItems(ghost whole: Json, x: seq<Json>, y: seq<Json>, i: nat): Option<Ordering>
    requires whole == ArrayValue(x) && i <= |x| && i <= |y|
    decreases whole, 0, |x| - i
  {
    if i == |x| || i == |y| then Some(CmpInt(|x|, |y|))
    else
      match PyCmp(x[i], y[i])
      case None => None
      case Some(Equal) => CmpItems(whole, x, y, i + 1)
      case Some(o) => Some(o)
  }
}
