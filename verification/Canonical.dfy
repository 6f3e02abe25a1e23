/** The canonical text of a decoded value (`crates/pahoa-pickle/src/canonical.rs`). */
module Canonical {
  import opened Common
  import opened PyObjects
  import opened BigInts
  import opened TextOrder

  const NONE: Text := [78, 111, 110, 101]
  const TRUE: Text := [84, 114, 117, 101]
  const FALSE: Text := [70, 97, 108, 115, 101]
  const COMMA: Byte := 44
  const COLON: Byte := 58
  const DOT: Byte := 46
  const ROUND: Byte := 40
  const ROUND_CLOSE: Byte := 41
  const SQUARE: Byte := 91
  const SQUARE_CLOSE: Byte := 93
  const CURLY: Byte := 123
  const CURLY_CLOSE: Byte := 125
  const LESS: Byte := 60
  const GREATER: Byte := 62

  function HexDigit(d: int): Byte
    requires 0 <= d < 16
  {
    if d < 10 then 48 + d else 87 + d
  }

  /** `width` hexadecimal digits, most significant first. */
  function Hex(n: nat, width: nat): (text: Text)
    ensures |text| == width
  {
    if width == 0 then [] else Hex(n / 16, width - 1) + [HexDigit(n % 16)]
  }

  function ClassText(c: ClassId): Text {
    c.moduleName + [DOT] + c.name
  }

  /** Parts with alternating separators: equal ones in a sequence, colon and comma in a dictionary. */
  function Join(parts: seq<Text>, sep: Byte, other: Byte): Text {
    if parts == [] then []
    else if |parts| == 1 then parts[0]
    else parts[0] + [sep] + Join(parts[1..], other, sep)
  }

  function Renders(vs: seq<PyObj>): (parts: seq<Text>)
    ensures |parts| == |vs| && forall i | 0 <= i < |vs| :: parts[i] == Render(vs[i])
    decreases vs
  {
    seq(|vs|, i requires 0 <= i < |vs| => Render(vs[i]))
  }

  function KidTexts(v: PyObj): (parts: seq<Text>)
    ensures |parts| == |Kids(v)|
    ensures forall i | 0 <= i < |Kids(v)| :: parts[i] == Render(Kids(v)[i])
    decreases v, 0
  {
    seq(|Kids(v)|, i requires 0 <= i < |Kids(v)| => Render(Kids(v)[i]))
  }

  function Render(v: PyObj): Text
    decreases v, 1
  {
    match v
    case NoneObj => NONE
    case Bool(b) => if b then TRUE else FALSE
    case Int(i) => Decimal(i)
    case Big(b) => Decimal(BigValue(b))
    case Float(bits) => [102, COLON] + Hex(bits, 16)
    case Str(s) => [115] + Decimal(|s|) + [COLON] + s
    case Tuple(_) => [ROUND] + Join(KidTexts(v), COMMA, COMMA) + [ROUND_CLOSE]
    case List(_) => [SQUARE] + Join(KidTexts(v), COMMA, COMMA) + [SQUARE_CLOSE]
    case Set(_) => [CURLY] + Join(Sort(KidTexts(v)), COMMA, COMMA) + [CURLY_CLOSE]
    case Dict(_) => [100, CURLY] + Join(KidTexts(v), COLON, COMMA) + [CURLY_CLOSE]
    case Global(c) => [LESS] + ClassText(c) + [GREATER]
    case Instance(c, _) => [LESS] + ClassText(c) + [GREATER, ROUND] + Join(KidTexts(v), COMMA, COMMA) + [ROUND_CLOSE]
  }

  // The renderer as it runs: one buffer, appended to.

  class TextBuffer {
    var text: Text

    constructor ()
      ensures text == []
    {
      text := [];
    }

    method Put(t: Text)
      modifies this
      ensures text == old(text) + t
    {
      text := text + t;
    }
  }

  lemma {:induction false} JoinSnoc(parts: seq<Text>, last: Text, sep: Byte, other: Byte)
    requires parts != []
    ensures Join(parts + [last], sep, other)
         == Join(parts, sep, other) + [if |parts| % 2 == 1 then sep else other] + last
  {
    if |parts| == 1 {
      assert (parts + [last])[1..] == [last];
    } else {
      assert (parts + [last])[1..] == parts[1..] + [last];
      JoinSnoc(parts[1..], last, other, sep);
    }
  }

  method RenderInto(v: PyObj, out: TextBuffer)
    modifies out
    ensures out.text == old(out.text) + Render(v)
    decreases v, 2
  {
    match v
    case Tuple(_) => Enclose(v, [ROUND], COMMA, ROUND_CLOSE, out);
    case List(_) => Enclose(v, [SQUARE], COMMA, SQUARE_CLOSE, out);
    case Dict(_) => Enclose(v, [100, CURLY], COLON, CURLY_CLOSE, out);
    case Instance(c, _) => Enclose(v, [LESS] + ClassText(c) + [GREATER, ROUND], COMMA, ROUND_CLOSE, out);
    case Set(_) =>
      var parts := PartsOf(v);
      out.Put([CURLY]);
      out.Put(Join(Sort(parts), COMMA, COMMA));
      out.Put([CURLY_CLOSE]);
    case NoneObj => out.Put(NONE);
    case Bool(b) => out.Put(if b then TRUE else FALSE);
    case Int(i) => out.Put(Decimal(i));
    case Big(b) => out.Put(Decimal(BigValue(b)));
    case Float(bits) => out.Put([102, COLON] + Hex(bits, 16));
    case Str(s) => out.Put([115] + Decimal(|s|) + [COLON] + s);
    case Global(c) => out.Put([LESS] + ClassText(c) + [GREATER]);
  }

  method Enclose(v: PyObj, open: Text, sep: Byte, close: Byte, out: TextBuffer)
    modifies out
    ensures out.text == old(out.text) + (open + Join(KidTexts(v), sep, COMMA) + [close])
    decreases v, 1
  {
    hide Render, Join;
    ghost var start, inside := out.text, Join(KidTexts(v), sep, COMMA);
    out.Put(open);
    JoinInto(v, sep, COMMA, out);
    out.Put([close]);
    assert start + open + inside + [close] == start + (open + inside + [close]);
  }

  /** What is inside `v`, separators between, straight into the shared buffer. */
  method JoinInto(v: PyObj, sep: Byte, other: Byte, out: TextBuffer)
    modifies out
    ensures out.text == old(out.text) + Join(KidTexts(v), sep, other)
    decreases v, 0
  {
    hide Render;
    ghost var start := out.text;
    ghost var parts := KidTexts(v);
    for i := 0 to |Kids(v)|
      invariant out.text == start + Join(parts[..i], sep, other)
    {
      assert parts[..i + 1] == parts[..i] + [parts[i]];
      if i > 0 {
        JoinSnoc(parts[..i], parts[i], sep, other);
        out.Put([if i % 2 == 1 then sep else other]);
      }
      RenderInto(Kids(v)[i], out);
    }
    assert parts[..|Kids(v)|] == parts;
  }

  /** Each element of a set rendered on its own, to be sorted as text. */
  method PartsOf(v: PyObj) returns (parts: seq<Text>)
    ensures parts == KidTexts(v)
    decreases v, 1
  {
    hide Render;
    parts := [];
    for i := 0 to |Kids(v)|
      invariant parts == KidTexts(v)[..i]
    {
      assert KidTexts(v)[..i + 1] == KidTexts(v)[..i] + [KidTexts(v)[i]];
      var one := new TextBuffer();
      RenderInto(Kids(v)[i], one);
      assert [] + KidTexts(v)[i] == KidTexts(v)[i];
      parts := parts + [one.text];
    }
  }

  method CanonicalText(v: PyObj) returns (t: Text)
    ensures t == Render(v)
  {
    var out := new TextBuffer();
    RenderInto(v, out);
    t := out.text;
  }
}
