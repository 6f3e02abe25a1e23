/**
 * Protocol 4 as a writer spells it, from the opcode bytes of the format (`crates/pahoa-pickle/src/reader.rs`, the
 * table of opcodes): a language of ways to write a value, the bytes of each, and the value it stands for.
 */
module PickleWriting {
  import opened Common
  import opened Numerals
  import opened PyObjects
  import opened BigInts
  import opened PickleStream
  import opened PickleReader

  datatype Width = OneByte | TwoBytes | FourBytes | Long(size: nat)

  /** What is made of values already written: a tuple by its arity or between a mark, a class, a call. */
  datatype How = TupleOf | MarkedTuple | ClassOf | Reduced | NewObject

  /** A way to write a value: `Added` puts values into the container written first, `Kept` stores it in the memo. */
  datatype Code =
    | NoneCode
    | Flag(b: bool)
    | Number(n: int, width: Width)
    | Real(bits: nat)
    | Text(bytes: seq<Byte>, short: bool)
    | Empty(kind: Kind)
    | Built(how: How, parts: seq<Code>)
    | Added(base: Code, kind: Kind, parts: seq<Code>, marked: bool)
    | Kept(c: Code)
    | Again(index: nat, short: bool)
    | Framed(size: nat, c: Code)

  // The bytes.

  function LowFirst(n: nat, width: nat): (bytes: seq<Byte>)
    ensures |bytes| == width
  {
    if width == 0 then [] else [n % 256] + LowFirst(n / 256, width - 1)
  }

  function HighFirst(n: nat, width: nat): (bytes: seq<Byte>)
    ensures |bytes| == width
  {
    if width == 0 then [] else HighFirst(n / 256, width - 1) + [n % 256]
  }

  /** A signed number reduced to as many bytes. */
  ghost function Unsigned(n: int, width: nat): (u: nat)
  {
    PowerPositive(256, width);
    n % Power(256, width)
  }

  ghost function NumberBytes(n: int, width: Width): seq<Byte> {
    match width
    case OneByte => [0x4B] + LowFirst(Unsigned(n, 1), 1)
    case TwoBytes => [0x4D] + LowFirst(Unsigned(n, 2), 2)
    case FourBytes => [0x4A] + LowFirst(Unsigned(n, 4), 4)
    case Long(size) => [0x8A] + LowFirst(size, 1) + LowFirst(Unsigned(n, size), size)
  }

  /** What stands before the parts. */
  ghost function Opening(marked: bool): seq<Byte> {
    if marked then [0x28] else []
  }

  ghost function BuiltByte(how: How, count: nat): Byte {
    match how
    case TupleOf => if count == 0 then 0x29 else if count == 1 then 0x85 else if count == 2 then 0x86 else 0x87
    case MarkedTuple => 0x74
    case ClassOf => 0x93
    case Reduced => 0x52
    case NewObject => 0x81
  }

  ghost function EmptyByte(kind: Kind): Byte {
    match kind
    case KList => 0x5D
    case KDict => 0x7D
    case KSet => 0x8F
  }

  ghost function AddedByte(kind: Kind, marked: bool): Byte {
    match kind
    case KList => if marked then 0x65 else 0x61
    case KDict => if marked then 0x75 else 0x73
    case KSet => 0x90
  }

  ghost function Write(c: Code): seq<Byte>
    decreases c, 0
  {
    match c
    case NoneCode => [0x4E]
    case Flag(b) => [if b then 0x88 else 0x89]
    case Number(n, width) => NumberBytes(n, width)
    case Real(bits) => [0x47] + HighFirst(bits, 8)
    case Text(bytes, short) => (if short then [0x8C] + LowFirst(|bytes|, 1) else [0x58] + LowFirst(|bytes|, 4)) + bytes
    case Empty(kind) => [EmptyByte(kind)]
    case Built(how, parts) => Opening(how.MarkedTuple?) + WriteAll(parts) + [BuiltByte(how, |parts|)]
    case Added(base, kind, parts, marked) =>
      Write(base) + (Opening(marked) + WriteAll(parts) + [AddedByte(kind, marked)])
    case Kept(inner) => Write(inner) + [0x94]
    case Again(index, short) => if short then [0x68] + LowFirst(index, 1) else [0x6A] + LowFirst(index, 4)
    case Framed(size, inner) => [0x95] + LowFirst(size, 8) + Write(inner)
  }

  ghost function WriteAll(cs: seq<Code>): seq<Byte>
    decreases cs, 0
  {
    if cs == [] then [] else Write(cs[0]) + WriteAll(cs[1..])
  }

  // What they stand for.

  /** The value written, the memo afterwards, and the places of the memo that hold this very container. */
  datatype Meant = Meant(value: PyObj, memo: seq<PyObj>, held: set<nat>)

  predicate NumberFits(n: int, width: Width) {
    match width
    case OneByte => 0 <= n < 0x100
    case TwoBytes => 0 <= n < 0x1_0000
    case FourBytes => -0x8000_0000 <= n < 0x8000_0000
    case Long(size) => size < 0x100 && (if size == 0 then n == 0 else 0 - PowerOf256(size) <= 2 * n < PowerOf256(size))
  }

  function IntegerOf(n: int): PyObj {
    if -0x8000_0000_0000_0000 <= n < 0x8000_0000_0000_0000 then Int(n) else Big(BigOf(n))
  }

  /** What the parts together make, if they can. */
  ghost function BuiltOf(how: How, vs: seq<PyObj>, allow: Allowlist): Option<PyObj> {
    match how
    case TupleOf => if |vs| <= 3 then Some(Tuple(vs)) else None
    case MarkedTuple => Some(Tuple(vs))
    case ClassOf =>
      if |vs| == 2 && vs[0].Str? && vs[1].Str? && Permits(allow, ClassId(vs[0].text, vs[1].text))
      then Some(Global(ClassId(vs[0].text, vs[1].text)))
      else None
    case _ =>
      if |vs| == 2 && vs[0].Global? && vs[1].Tuple? then Some(Instance(vs[0].class_, vs[1].items)) else None
  }

  /** A container with the values added: one or two without a mark, any number after one, pairs for a dictionary. */
  ghost function AddedTo(v: PyObj, kind: Kind, vs: seq<PyObj>, marked: bool): Option<PyObj> {
    match kind
    case KList => if v.List? && (marked || |vs| == 1) then Some(List(v.items + vs)) else None
    case KSet => if v.Set? && marked then Some(Set(v.items + vs)) else None
    case KDict =>
      if v.Dict? && (if marked then |vs| % 2 == 0 else |vs| == 2) then
        Some(Dict(v.pairs + seq(|vs| / 2, k requires 0 <= k < |vs| / 2 => (vs[2 * k], vs[2 * k + 1]))))
      else None
  }

  /** The memo with `v` in the places that hold it. */
  ghost function Refreshed(memo: seq<PyObj>, held: set<nat>, v: PyObj): seq<PyObj> {
    seq(|memo|, i requires 0 <= i < |memo| => if i in held then v else memo[i])
  }

  ghost function EmptyOf(kind: Kind): PyObj {
    match kind
    case KList => List([])
    case KDict => Dict([])
    case KSet => Set([])
  }

  /** The meaning of a code after `memo`, or `None` when it writes nothing that can be read. */
  ghost function Denoted(c: Code, memo: seq<PyObj>, allow: Allowlist): Option<Meant>
    decreases c, 1
  {
    match c
    case NoneCode => Some(Meant(NoneObj, memo, {}))
    case Flag(b) => Some(Meant(Bool(b), memo, {}))
    case Number(n, width) => if NumberFits(n, width) then Some(Meant(IntegerOf(n), memo, {})) else None
    case Real(bits) => if bits < 0x1_0000_0000_0000_0000 then Some(Meant(Float(bits), memo, {})) else None
    case Text(bytes, short) =>
      if ValidUtf8(bytes) && |bytes| < (if short then 0x100 else 0x1_0000_0000) then Some(Meant(Str(bytes), memo, {}))
      else None
    case Empty(kind) => Some(Meant(EmptyOf(kind), memo, {}))
    case Built(how, parts) => DenotedBuilt(c, memo, allow)
    case Added(_, _, _, _) => DenotedAdded(c, memo, allow)
    case Kept(inner) =>
      (match Denoted(inner, memo, allow)
       case None => None
       case Some(Meant(v, m, held)) => Some(Meant(v, m + [v], if IsContainer(v) then held + {|m|} else {})))
    case Again(index, short) =>
      if index < |memo| && index < (if short then 0x100 else 0x1_0000_0000) then Some(Meant(memo[index], memo, {}))
      else None
    case Framed(_, inner) => Denoted(inner, memo, allow)
  }

  ghost function DenotedBuilt(c: Code, memo: seq<PyObj>, allow: Allowlist): Option<Meant>
    requires c.Built?
    decreases c, 0
  {
    match DenotedAll(c.parts, memo, allow)
    case None => None
    case Some((vs, m)) =>
      match BuiltOf(c.how, vs, allow)
      case None => None
      case Some(v) => Some(Meant(v, m, {}))
  }

  ghost function DenotedAdded(c: Code, memo: seq<PyObj>, allow: Allowlist): Option<Meant>
    requires c.Added?
    decreases c, 0
  {
    match Denoted(c.base, memo, allow)
    case None => None
    case Some(Meant(v, m, held)) =>
      match DenotedAll(c.parts, m, allow)
      case None => None
      case Some((vs, n)) =>
        match AddedTo(v, c.kind, vs, c.marked)
        case None => None
        case Some(w) => Some(Meant(w, Refreshed(n, held, w), held))
  }

  ghost function DenotedAll(cs: seq<Code>, memo: seq<PyObj>, allow: Allowlist): Option<(seq<PyObj>, seq<PyObj>)>
    decreases cs, 1
  {
    if cs == [] then Some(([], memo))
    else
      match Denoted(cs[0], memo, allow)
      case None => None
      case Some(Meant(v, m, _)) =>
        match DenotedAll(cs[1..], m, allow)
        case None => None
        case Some((vs, n)) => Some(([v] + vs, n))
  }

  // What they cost the reader.

  /** How many values are pushed. */
  ghost function Cost(c: Code): nat
    decreases c, 0
  {
    match c
    case Built(_, parts) => CostAll(parts) + 1
    case Added(base, _, parts, _) => Cost(base) + CostAll(parts)
    case Kept(inner) => Cost(inner)
    case Framed(_, inner) => Cost(inner)
    case _ => 1
  }

  ghost function CostAll(cs: seq<Code>): nat
    decreases cs, 0
  {
    if cs == [] then 0 else Cost(cs[0]) + CostAll(cs[1..])
  }

  ghost function Max(a: nat, b: nat): nat {
    if a < b then b else a
  }

  /** How far the stack grows meanwhile. */
  ghost function Height(c: Code): nat
    decreases c, 0
  {
    match c
    case Built(_, parts) => Max(1, HeightAll(parts))
    case Added(base, _, parts, _) => Max(Height(base), 1 + HeightAll(parts))
    case Kept(inner) => Height(inner)
    case Framed(_, inner) => Height(inner)
    case _ => 1
  }

  ghost function HeightAll(cs: seq<Code>): nat
    decreases cs, 0
  {
    if cs == [] then 0 else Max(Height(cs[0]), 1 + HeightAll(cs[1..]))
  }
}
