/** The characters of a canonical text: hexadecimal digits that read back, and the punctuation as it is written. */
module CanonicalTexts {
  import opened Common
  import opened Numerals
  import opened PyObjects
  import opened BigInts
  import opened TextOrder
  import opened Canonical
  import CanonicalReading
  import opened CanonicalDecoding

  predicate IsHexDigit(c: Byte) {
    '0' as int <= c <= '9' as int || 'a' as int <= c <= 'f' as int
  }

  function HexValue(c: Byte): nat
    requires IsHexDigit(c)
  {
    if c <= '9' as int then c - '0' as int else 10 + (c - 'a' as int)
  }

  predicate AllHex(text: Text) {
    forall i | 0 <= i < |text| :: IsHexDigit(text[i])
  }

  function ReadHex(text: Text): nat
    requires AllHex(text)
  {
    if text == [] then 0 else 16 * ReadHex(text[..|text| - 1]) + HexValue(Last(text))
  }

  /** The digits of a number are 0 to 9 and a to f, and read back as the number. */
  lemma {:induction false} HexReadsBack(n: nat, width: nat)
    requires n < Power(16, width)
    ensures AllHex(Hex(n, width)) && ReadHex(Hex(n, width)) == n
  {
    if width > 0 {
      DivMod(n, 16);
      DivBelow(n, 16, Power(16, width - 1));
      HexReadsBack(n / 16, width - 1);
      var text := Hex(n, width);
      assert text[..|text| - 1] == Hex(n / 16, width - 1);
    }
  }

  /** A string of 7-bit characters as its bytes. */
  function Ascii(s: string): Text
    requires forall i | 0 <= i < |s| :: s[i] < 128 as char
  {
    seq(|s|, i requires 0 <= i < |s| => s[i] as int)
  }

  /** A float is its 64 bits in sixteen hexadecimal digits after `f:`. */
  lemma FloatReadsBack(bits: nat)
    requires bits < 0x1_0000_0000_0000_0000
    ensures var text := Render(Float(bits));
            && |text| == 18 && text[..2] == Ascii("f:")
            && AllHex(text[2..]) && ReadHex(text[2..]) == bits
  {
    CanonicalReading.HexPower();
    HexReadsBack(bits, 16);
    assert Render(Float(bits))[2..] == Hex(bits, 16);
  }

  /** Words and numbers. */
  lemma PlainTexts(n: int, big: BigInt, text: Text)
    ensures Render(NoneObj) == Ascii("None")
    ensures Render(Bool(true)) == Ascii("True") && Render(Bool(false)) == Ascii("False")
    ensures Render(Int(n)) == Decimal(n) && Render(Big(big)) == Decimal(BigValue(big))
    ensures Render(Str(text)) == Ascii("s") + Decimal(|text|) + Ascii(":") + text
  {
    Words();
    hide Ascii, Decimal;
  }

  lemma Words()
    ensures Ascii("None") == NONE && Ascii("True") == TRUE && Ascii("False") == FALSE
    ensures Ascii("s") == [115] && Ascii(":") == [COLON]
  {
  }

  /** What opens and closes a value with others inside. */
  function Brackets(v: PyObj): (string, string)
    requires v.Tuple? || v.List? || v.Set? || v.Dict?
  {
    match v
    case Tuple(_) => ("(", ")")
    case List(_) => ("[", "]")
    case Set(_) => ("{", "}")
    case Dict(_) => ("d{", "}")
  }

  /** A class prints as its dotted name in angle brackets, an instance with its arguments after that. */
  lemma ClassTexts(c: ClassId, items: seq<PyObj>)
    ensures var name := Ascii("<") + (c.moduleName + Ascii(".") + c.name) + Ascii(">");
            && Render(Global(c)) == name
            && Render(Instance(c, items))
            == name + Ascii("(") + Join(KidTexts(Instance(c, items)), ',' as int, ',' as int) + Ascii(")")
  {
    var name := Ascii("<") + (c.moduleName + Ascii(".") + c.name) + Ascii(">");
    assert Ascii("<") == [LESS] && Ascii(">") == [GREATER] && Ascii(".") == [DOT];
    assert name + Ascii("(") == [LESS] + ClassText(c) + [GREATER, ROUND];
  }

  /** The texts of the elements stand between the brackets, sorted in a set, with a comma between two of them; in a
   * dictionary a colon comes after each key. */
  lemma EnclosedTexts(v: PyObj)
    requires v.Tuple? || v.List? || v.Set? || v.Dict?
    ensures var parts := if v.Set? then Sort(KidTexts(v)) else KidTexts(v);
            Render(v) == Ascii(Brackets(v).0) + Join(parts, if v.Dict? then ':' as int else ',' as int, ',' as int)
                         + Ascii(Brackets(v).1)
  {
    assert Ascii("(") == [ROUND] && Ascii("[") == [SQUARE] && Ascii("{") == [CURLY] && Ascii("d{") == [100, CURLY];
    assert Ascii(")") == [ROUND_CLOSE] && Ascii("]") == [SQUARE_CLOSE] && Ascii("}") == [CURLY_CLOSE];
  }

  lemma ModuleNames()
    ensures NET_UTILS == Ascii("NetUtils") && COLLECTIONS == Ascii("collections")
  {
  }

  lemma ItemNames()
    ensures NETWORK_ITEM == Ascii("NetworkItem") && NETWORK_SLOT == Ascii("NetworkSlot")
  {
  }

  lemma ShortNames()
    ensures HINT == Ascii("Hint") && SLOT_TYPE == Ascii("SlotType") && COUNTER == Ascii("Counter")
  {
  }

  lemma StatusNames()
    ensures HINT_STATUS == Ascii("HintStatus") && CLIENT_STATUS == Ascii("ClientStatus")
  {
  }

  /** The shipped list by name. */
  lemma ShippedNames()
    ensures ARCHIPELAGO.entries == [
      (Ascii("NetUtils"), Ascii("NetworkItem")), (Ascii("NetUtils"), Ascii("NetworkSlot")),
      (Ascii("NetUtils"), Ascii("Hint")), (Ascii("NetUtils"), Ascii("SlotType")),
      (Ascii("NetUtils"), Ascii("HintStatus")), (Ascii("NetUtils"), Ascii("ClientStatus")),
      (Ascii("collections"), Ascii("Counter"))]
  {
    ModuleNames();
    ItemNames();
    ShortNames();
    StatusNames();
    hide Ascii;
  }

  /** The classes that may be named are these seven and no other. */
  lemma ShippedExactly(c: ClassId)
    ensures Permits(ARCHIPELAGO, c) <==>
            || (c.moduleName == Ascii("NetUtils")
                && (c.name == Ascii("NetworkItem") || c.name == Ascii("NetworkSlot") || c.name == Ascii("Hint")
                    || c.name == Ascii("SlotType") || c.name == Ascii("HintStatus") || c.name == Ascii("ClientStatus")))
            || (c.moduleName == Ascii("collections") && c.name == Ascii("Counter"))
  {
    ShippedNames();
    ListedIsPermitted(ARCHIPELAGO, c);
    hide Ascii, Permits, ARCHIPELAGO;
  }

  lemma ListedIsPermitted(allow: Allowlist, c: ClassId)
    ensures Permits(allow, c) <==> (c.moduleName, c.name) in allow.entries
  {
    if (c.moduleName, c.name) in allow.entries {
      var i :| 0 <= i < |allow.entries| && allow.entries[i] == (c.moduleName, c.name);
    }
  }
}
