/** The decoded value tree (`crates/pahoa-pickle/src/value.rs`) and the class allowlist. */
module PyObjects {
  import opened Common

  /** Sign and magnitude, base 2^32, least significant limb first. */
  datatype BigInt = BigInt(negative: bool, magnitude: seq<Word>)

  /** A dotted class reference. Strings are their UTF-8 bytes throughout. */
  datatype ClassId = ClassId(moduleName: seq<Byte>, name: seq<Byte>)

  datatype PyObj =
    | NoneObj
    | Bool(b: bool)
    | Int(i: int)
    | Big(big: BigInt)
    | Float(bits: nat)
    | Str(text: seq<Byte>)
    | List(items: seq<PyObj>)
    | Tuple(items: seq<PyObj>)
    | Dict(pairs: seq<(PyObj, PyObj)>)
    | Set(items: seq<PyObj>)
    | Global(class_: ClassId)
    | Instance(class_: ClassId, items: seq<PyObj>)

  function TypeName(v: PyObj): string {
    match v
    case NoneObj => "None"
    case Bool(_) => "bool"
    case Int(_) | Big(_) => "int"
    case Float(_) => "float"
    case Str(_) => "str"
    case List(_) => "list"
    case Tuple(_) => "tuple"
    case Dict(_) => "dict"
    case Set(_) => "set"
    case Global(_) => "global"
    case Instance(_, _) => "instance"
  }

  /** The three kinds of container that a stream fills after creating them. */
  datatype Kind = KList | KSet | KDict

  predicate IsContainer(v: PyObj) {
    v.List? || v.Dict? || v.Set?
  }

  /** What a value is, apart from the values inside it. */
  datatype Head = Leaf(v: PyObj) | Cell(kind: Kind) | TupleHead | InstanceHead(class_: ClassId)

  function HeadOf(v: PyObj): Head {
    match v
    case List(_) => Cell(KList)
    case Set(_) => Cell(KSet)
    case Dict(_) => Cell(KDict)
    case Tuple(_) => TupleHead
    case Instance(c, _) => InstanceHead(c)
    case _ => Leaf(v)
  }

  /** The values directly inside `v`, a dictionary giving key, value, key, value. */
  function Kids(v: PyObj): (kids: seq<PyObj>)
    ensures forall i | 0 <= i < |kids| :: kids[i] < v
  {
    match v
    case List(items) => items
    case Set(items) => items
    case Tuple(items) => items
    case Instance(_, items) => items
    case Dict(pairs) =>
      seq(2 * |pairs|, i requires 0 <= i < 2 * |pairs| => if i % 2 == 0 then pairs[i / 2].0 else pairs[i / 2].1)
    case _ => []
  }

  /** Consecutive items as key/value pairs; an odd last item would be dropped, as the source's iterator drops it. */
  function PairUp(items: seq<PyObj>): seq<(PyObj, PyObj)> {
    seq(|items| / 2, i requires 0 <= i < |items| / 2 => (items[2 * i], items[2 * i + 1]))
  }

  /** A value is determined by its head and the values inside it. */
  lemma HeadAndKidsDetermine(v: PyObj, w: PyObj)
    requires HeadOf(v) == HeadOf(w) && Kids(v) == Kids(w)
    ensures v == w
  {
    match v
    case Dict(pairs) =>
      assert |Kids(v)| == |Kids(w)|;
      forall i | 0 <= i < |pairs| ensures pairs[i] == w.pairs[i] {
        assert Kids(v)[2 * i] == Kids(w)[2 * i] && Kids(v)[2 * i + 1] == Kids(w)[2 * i + 1];
      }
    case _ =>
  }

  datatype Allowlist = Allowlist(entries: seq<(seq<Byte>, seq<Byte>)>)

  predicate Permits(allow: Allowlist, c: ClassId) {
    exists i :: 0 <= i < |allow.entries| && allow.entries[i].0 == c.moduleName && allow.entries[i].1 == c.name
  }
}
