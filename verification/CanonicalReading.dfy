/**
 * The canonical text has one reading: two values print alike exactly when they are equal up to the order of set
 * elements at every level.
 */
module CanonicalReading {
  import opened Common
  import opened Numerals
  import opened PyObjects
  import opened BigInts
  import opened PickleStream
  import opened TextOrder
  import opened Canonical

  /** No name holds the closing bracket, so a printed reference ends at the first one. */
  ghost predicate BracketFree(allow: Allowlist) {
    forall c | Permits(allow, c) :: GREATER !in c.moduleName && GREATER !in c.name
  }

  /** No two classes of the list print the same dotted name. */
  ghost predicate NamesDiffer(allow: Allowlist) {
    forall c, d | Permits(allow, c) && Permits(allow, d) && ClassText(c) == ClassText(d) :: c == d
  }

  /** No printed reference begins with another: the closing bracket always tells where the name ends. */
  ghost predicate PrefixFree(allow: Allowlist) {
    forall c, d | Permits(allow, c) && Permits(allow, d) && ClassText(c) + [GREATER] <= ClassText(d) + [GREATER] ::
      c == d
  }

  /** What the reader produces: integers narrowed whenever they fit, 64-bit floats, UTF-8 texts, classes of the list. */
  ghost predicate Fine(v: PyObj, allow: Allowlist)
    decreases v
  {
    && (match v
        case Int(i) => FitsI64(i)
        case Big(b) => WellFormed(b) && !FitsI64(BigValue(b))
        case Float(bits) => bits < 0x1_0000_0000_0000_0000
        case Str(text) => ValidUtf8(text)
        case Global(c) => Permits(allow, c)
        case Instance(c, _) => Permits(allow, c)
        case _ => true)
    && forall k | 0 <= k < |Kids(v)| :: Fine(Kids(v)[k], allow)
  }

  /** Equal, except that the elements of a set may be listed in any order. */
  ghost predicate Same(v: PyObj, w: PyObj)
    decreases v, 1
  {
    if v.Set? && w.Set? then exists es, fs :: Paired(v, w, es, fs)
    else
      && HeadOf(v) == HeadOf(w) && |Kids(v)| == |Kids(w)|
      && forall k | 0 <= k < |Kids(v)| :: Same(Kids(v)[k], Kids(w)[k])
  }

  /** Listings of two sets that agree element by element. */
  ghost predicate Paired(v: PyObj, w: PyObj, es: seq<PyObj>, fs: seq<PyObj>)
    requires v.Set? && w.Set?
    decreases v, 0
  {
    && multiset(es) == multiset(v.items) && multiset(fs) == multiset(w.items) && |es| == |fs|
    && forall k | 0 <= k < |es| :: es[k] < v && Same(es[k], fs[k])
  }

  // Taking texts apart.

  lemma Split(a: Text, x: Text, b: Text, y: Text)
    requires a + x == b + y && |a| == |b|
    ensures a == b && x == y
  {
    assert a == (a + x)[..|a|] && b == (b + y)[..|b|];
    assert x == (a + x)[|a|..] && y == (b + y)[|b|..];
  }

  predicate IsDigit(b: Byte) {
    48 <= b < 58
  }

  predicate AllDigits(t: Text) {
    forall i | 0 <= i < |t| :: IsDigit(t[i])
  }

  predicate NoDigitNext(x: Text) {
    x == [] || !IsDigit(x[0])
  }

  /** What may follow a value: nothing, a separator or a closing bracket. */
  predicate Ends(x: Text) {
    x == [] || x[0] == COMMA || x[0] == COLON || x[0] == ROUND_CLOSE || x[0] == SQUARE_CLOSE || x[0] == CURLY_CLOSE
  }

  lemma RunsDiffer(d: Text, x: Text, e: Text, y: Text)
    requires AllDigits(e) && NoDigitNext(x) && |d| < |e|
    ensures d + x != e + y
  {
    assert (e + y)[|d|] == e[|d|];
    if x != [] {
      assert (d + x)[|d|] == x[0];
    }
  }

  lemma DigitsReading(d: Text, x: Text, e: Text, y: Text)
    requires AllDigits(d) && AllDigits(e) && NoDigitNext(x) && NoDigitNext(y) && d + x == e + y
    ensures d == e && x == y
  {
    if |d| < |e| {
      RunsDiffer(d, x, e, y);
    } else if |e| < |d| {
      RunsDiffer(e, y, d, x);
    } else {
      Split(d, x, e, y);
    }
  }

  lemma DecimalReading(n: int, x: Text, m: int, y: Text)
    requires NoDigitNext(x) && NoDigitNext(y) && Decimal(n) + x == Decimal(m) + y
    ensures n == m && x == y
  {
    DecimalReadsBack(n);
    DecimalReadsBack(m);
    hide DecimalNat, ReadDecimal;
    assert (Decimal(n) + x)[0] == Decimal(n)[0] && (Decimal(m) + y)[0] == Decimal(m)[0];
    if n < 0 {
      assert (Decimal(n) + x)[1..] == Decimal(n)[1..] + x && (Decimal(m) + y)[1..] == Decimal(m)[1..] + y;
      DigitsReading(Decimal(n)[1..], x, Decimal(m)[1..], y);
      assert Decimal(n) == [MINUS] + Decimal(n)[1..] && Decimal(m) == [MINUS] + Decimal(m)[1..];
    } else {
      DigitsReading(Decimal(n), x, Decimal(m), y);
    }
  }

  lemma {:induction false} HexReading(n: nat, m: nat, width: nat)
    requires n < Power(16, width) && m < Power(16, width) && Hex(n, width) == Hex(m, width)
    ensures n == m
  {
    if width > 0 {
      assert Hex(n, width)[..width - 1] == Hex(n / 16, width - 1);
      assert Hex(m, width)[..width - 1] == Hex(m / 16, width - 1);
      assert Hex(n, width)[width - 1] == HexDigit(n % 16) && Hex(m, width)[width - 1] == HexDigit(m % 16);
      HexReading(n / 16, m / 16, width - 1);
    }
  }

  lemma HexPower()
    ensures Power(16, 16) == 0x1_0000_0000_0000_0000
  {
    assert Power(16, 2) == 256;
    PowerAdd(16, 2, 2);
    PowerAdd(16, 4, 4);
    PowerAdd(16, 8, 8);
  }

  lemma StopsDiffer(a: Text, x: Text, b: Text, y: Text, stop: Byte)
    requires stop !in b && |a| < |b|
    ensures a + [stop] + x != b + [stop] + y
  {
    assert (a + [stop] + x)[|a|] == stop;
    assert (b + [stop] + y)[|a|] == b[|a|];
  }

  /** Up to the first byte that occurs in neither part, texts are equal. */
  lemma UntilReading(a: Text, x: Text, b: Text, y: Text, stop: Byte)
    requires stop !in a && stop !in b && a + [stop] + x == b + [stop] + y
    ensures a == b && x == y
  {
    if |a| < |b| {
      StopsDiffer(a, x, b, y, stop);
    } else if |b| < |a| {
      StopsDiffer(b, y, a, x, stop);
    } else {
      Split(a + [stop], x, b + [stop], y);
      Split(a, [stop], b, [stop]);
    }
  }

  lemma DotsDiffer(m: Text, n: Text, p: Text, q: Text)
    requires DOT !in n && |m| < |p|
    ensures m + [DOT] + n != p + [DOT] + q
  {
    assert (p + [DOT] + q)[|p|] == DOT;
    if |p| < |m + [DOT] + n| {
      assert (m + [DOT] + n)[|p|] == n[|p| - |m| - 1];
    }
  }

  lemma LastDotReading(m: Text, n: Text, p: Text, q: Text)
    requires DOT !in n && DOT !in q && m + [DOT] + n == p + [DOT] + q
    ensures m == p && n == q
  {
    if |m| < |p| {
      DotsDiffer(m, n, p, q);
    } else if |p| < |m| {
      DotsDiffer(p, q, m, n);
    } else {
      Split(m + [DOT], n, p + [DOT], q);
      Split(m, [DOT], p, [DOT]);
    }
  }

  lemma ClassReading(c: ClassId, x: Text, d: ClassId, y: Text, allow: Allowlist)
    requires PrefixFree(allow) && Permits(allow, c) && Permits(allow, d)
    requires ClassText(c) + [GREATER] + x == ClassText(d) + [GREATER] + y
    ensures c == d && x == y
  {
    var a, b := ClassText(c) + [GREATER], ClassText(d) + [GREATER];
    PrefixOf(a, x, b, y);
    assert a <= b || b <= a;
    assert c == d;
    Split(a, x, b, y);
  }

  lemma PrefixOf(a: Text, x: Text, b: Text, y: Text)
    requires a + x == b + y
    ensures a <= b || b <= a
  {
    if |a| <= |b| {
      assert a == (a + x)[..|a|] && b == (b + y)[..|b|];
    } else {
      assert b == (b + y)[..|b|] && a == (a + x)[..|a|];
    }
  }

  /** Names without brackets that print differently are never one the beginning of another. */
  lemma DifferentNamesPrefixFree(allow: Allowlist)
    requires BracketFree(allow) && NamesDiffer(allow)
    ensures PrefixFree(allow)
  {
    forall c, d | Permits(allow, c) && Permits(allow, d) && ClassText(c) + [GREATER] <= ClassText(d) + [GREATER]
      ensures c == d
    {
      var a, b := ClassText(c), ClassText(d);
      var rest := (b + [GREATER])[|a| + 1..];
      assert b + [GREATER] == (a + [GREATER]) + rest;
      assert b + [GREATER] + [] == a + [GREATER] + rest;
      UntilReading(b, [], a, rest, GREATER);
    }
  }

  /** Names without a dot in the class part never print alike: the last dot is where the module ends. */
  lemma DotFreeNamesDiffer(allow: Allowlist)
    requires forall c | Permits(allow, c) :: DOT !in c.name
    ensures NamesDiffer(allow)
  {
    forall c, d | Permits(allow, c) && Permits(allow, d) && ClassText(c) == ClassText(d) ensures c == d {
      LastDotReading(c.moduleName, c.name, d.moduleName, d.name);
    }
  }

  // The first byte tells what kind of value follows.

  function Tag(v: PyObj): int {
    match v
    case NoneObj => 78
    case Bool(b) => if b then 84 else 70
    case Int(_) | Big(_) => 0
    case Float(_) => 102
    case Str(_) => 115
    case Tuple(_) => 40
    case List(_) => 91
    case Set(_) => 123
    case Dict(_) => 100
    case Global(_) | Instance(_, _) => 60
  }

  lemma FirstByte(v: PyObj)
    ensures Render(v) != []
    ensures if Tag(v) == 0 then Render(v)[0] == MINUS || IsDigit(Render(v)[0]) else Render(v)[0] == Tag(v)
  {
    match v
    case Int(i) => DecimalReadsBack(i);
    case Big(b) => DecimalReadsBack(BigValue(b));
    case _ =>
  }

  lemma SameTag(v: PyObj, x: Text, w: PyObj, y: Text)
    requires Render(v) + x == Render(w) + y
    ensures Tag(v) == Tag(w)
  {
    FirstByte(v);
    FirstByte(w);
    assert (Render(v) + x)[0] == Render(v)[0] && (Render(w) + y)[0] == Render(w)[0];
  }

  lemma NumberReading(v: PyObj, x: Text, w: PyObj, y: Text, allow: Allowlist)
    requires Tag(v) == 0 && Tag(w) == 0 && Fine(v, allow) && Fine(w, allow) && Ends(x) && Ends(y)
    requires Render(v) + x == Render(w) + y
    ensures v == w && x == y
  {
    var n := if v.Int? then v.i else BigValue(v.big);
    var m := if w.Int? then w.i else BigValue(w.big);
    DecimalReading(n, x, m, y);
    if v.Big? && w.Big? {
      BigUnique(v.big);
      BigUnique(w.big);
    }
  }

  lemma FloatReading(v: PyObj, x: Text, w: PyObj, y: Text, allow: Allowlist)
    requires v.Float? && w.Float? && Fine(v, allow) && Fine(w, allow) && Render(v) + x == Render(w) + y
    ensures v == w && x == y
  {
    Split(Render(v), x, Render(w), y);
    Split([102, COLON], Hex(v.bits, 16), [102, COLON], Hex(w.bits, 16));
    HexPower();
    HexReading(v.bits, w.bits, 16);
  }

  lemma StrReading(v: PyObj, x: Text, w: PyObj, y: Text)
    requires v.Str? && w.Str? && Render(v) + x == Render(w) + y
    ensures v == w && x == y
  {
    var s, t := v.text, w.text;
    StrText(s, x);
    StrText(t, y);
    hide Decimal, Render;
    Split([115], Decimal(|s|) + ([COLON] + s + x), [115], Decimal(|t|) + ([COLON] + t + y));
    DecimalReading(|s|, [COLON] + s + x, |t|, [COLON] + t + y);
    Split([COLON] + s, x, [COLON] + t, y);
    Split([COLON], s, [COLON], t);
  }

  lemma StrText(s: Text, x: Text)
    ensures Render(Str(s)) + x == [115] + (Decimal(|s|) + ([COLON] + s + x))
  {
    hide Decimal;
    var d := Decimal(|s|);
    assert [115] + d + [COLON] + s + x == [115] + (d + ([COLON] + s + x));
  }

  // Sequences of values between brackets.

  /** The text from the first part to the end, the closing bracket included. */
  function Listed(parts: seq<Text>, sep: Byte, other: Byte, close: Byte, x: Text): Text {
    Join(parts, sep, other) + [close] + x
  }

  /** What follows the first part. */
  function Rest(parts: seq<Text>, sep: Byte, other: Byte, close: Byte, x: Text): (r: Text)
    requires parts != []
  {
    if |parts| == 1 then [close] + x else [sep] + Listed(parts[1..], other, sep, close, x)
  }

  lemma ListedFirst(parts: seq<Text>, sep: Byte, other: Byte, close: Byte, x: Text)
    requires parts != []
    ensures Listed(parts, sep, other, close, x) == parts[0] + Rest(parts, sep, other, close, x)
  {
    if |parts| > 1 {
      var tail := Join(parts[1..], other, sep);
      assert parts[0] + [sep] + tail + [close] + x == parts[0] + ([sep] + (tail + [close] + x));
    } else {
      assert parts[0] + [close] + x == parts[0] + ([close] + x);
    }
  }

  predicate IsSeparator(b: Byte) {
    b == COMMA || b == COLON
  }

  predicate IsClose(b: Byte) {
    b == ROUND_CLOSE || b == SQUARE_CLOSE || b == CURLY_CLOSE
  }

  ghost predicate PartsFor(parts: seq<Text>, vs: seq<PyObj>) {
    |parts| == |vs| && forall i | 0 <= i < |vs| :: parts[i] == Render(vs[i])
  }

  ghost predicate AllFine(vs: seq<PyObj>, allow: Allowlist) {
    forall i | 0 <= i < |vs| :: Fine(vs[i], allow)
  }

  ghost predicate AllSame(vs: seq<PyObj>, ws: seq<PyObj>) {
    |vs| == |ws| && forall i | 0 <= i < |vs| :: Same(vs[i], ws[i])
  }

  lemma ClosedDiffers(ps: seq<Text>, ws: seq<PyObj>, sep: Byte, other: Byte, close: Byte, x: Text, y: Text)
    requires IsClose(close) && PartsFor(ps, ws) && ps != []
    ensures Listed([], sep, other, close, x) != Listed(ps, sep, other, close, y)
  {
    hide Render;
    ListedFirst(ps, sep, other, close, y);
    FirstByte(ws[0]);
    assert Listed(ps, sep, other, close, y)[0] == ps[0][0];
    assert Listed([], sep, other, close, x)[0] == close;
  }

  lemma EmptyOrNot(ps: seq<Text>, ws: seq<PyObj>, sep: Byte, other: Byte, close: Byte, x: Text, y: Text)
    requires IsClose(close) && PartsFor(ps, ws)
    requires Listed([], sep, other, close, x) == Listed(ps, sep, other, close, y)
    ensures ps == [] && x == y
  {
    hide Render;
    if ps != [] {
      ClosedDiffers(ps, ws, sep, other, close, x, y);
    } else {
      assert Join([], sep, other) + [close] + x == [close] + x;
      assert Join(ps, sep, other) + [close] + y == [close] + y;
      Split([close], x, [close], y);
    }
  }

  lemma {:induction false} ListReading(bound: PyObj, es: seq<PyObj>, ps: seq<Text>, fs: seq<PyObj>, qs: seq<Text>,
                                       sep: Byte, other: Byte, close: Byte, x: Text, y: Text, allow: Allowlist)
    requires PrefixFree(allow)
    requires (forall i | 0 <= i < |es| :: es[i] < bound) && PartsFor(ps, es) && PartsFor(qs, fs)
    requires AllFine(es, allow) && AllFine(fs, allow) && IsSeparator(sep) && IsSeparator(other) && IsClose(close)
    requires Listed(ps, sep, other, close, x) == Listed(qs, sep, other, close, y)
    ensures AllSame(es, fs) && x == y
    decreases bound, 0, |es|
  {
    hide Render, Fine, Same, Join, Listed;
    if es == [] {
      assert ps == [];
      EmptyOrNot(qs, fs, sep, other, close, x, y);
    } else if fs == [] {
      assert qs == [];
      EmptyOrNot(ps, es, sep, other, close, y, x);
    } else {
      ListedFirst(ps, sep, other, close, x);
      ListedFirst(qs, sep, other, close, y);
      var r, t := Rest(ps, sep, other, close, x), Rest(qs, sep, other, close, y);
      Reading(es[0], r, fs[0], t, allow);
      assert r == t && r[0] == t[0];
      if |es| == 1 {
        Split([close], x, [close], y);
      } else {
        var lr, lt := Listed(ps[1..], other, sep, close, x), Listed(qs[1..], other, sep, close, y);
        Split([sep], lr, [sep], lt);
        ListReading(bound, es[1..], ps[1..], fs[1..], qs[1..], other, sep, close, x, y, allow);
        AllSameCons(es, fs);
      }
    }
  }

  lemma AllSameCons(es: seq<PyObj>, fs: seq<PyObj>)
    requires es != [] && fs != [] && Same(es[0], fs[0]) && AllSame(es[1..], fs[1..])
    ensures AllSame(es, fs)
  {
    hide Same;
    forall i | 0 <= i < |es| ensures Same(es[i], fs[i]) {
      if i > 0 {
        assert es[i] == es[1..][i - 1] && fs[i] == fs[1..][i - 1];
      }
    }
  }

  /** Both values print as the same opening, what is inside them, and the same close. */
  lemma EnclosedReading(v: PyObj, x: Text, w: PyObj, y: Text, open: Text, sep: Byte, close: Byte, allow: Allowlist)
    requires PrefixFree(allow)
    requires HeadOf(v) == HeadOf(w) && !v.Set? && Fine(v, allow) && Fine(w, allow) && IsSeparator(sep) && IsClose(close)
    requires Render(v) == open + Join(KidTexts(v), sep, COMMA) + [close]
    requires Render(w) == open + Join(KidTexts(w), sep, COMMA) + [close]
    requires Render(v) + x == Render(w) + y
    ensures Same(v, w) && x == y
    decreases v, 1, 0
  {
    hide Render, Join;
    var lv, lw := Listed(KidTexts(v), sep, COMMA, close, x), Listed(KidTexts(w), sep, COMMA, close, y);
    assert Render(v) + x == open + lv;
    assert Render(w) + y == open + lw;
    Split(open, lv, open, lw);
    ListReading(v, Kids(v), KidTexts(v), Kids(w), KidTexts(w), sep, COMMA, close, x, y, allow);
  }

  /** A listing of the elements in the order of their sorted texts. */
  lemma {:induction false} Arrange(vs: seq<PyObj>, ps: seq<Text>) returns (es: seq<PyObj>)
    requires PartsFor(ps, vs)
    ensures PartsFor(Sort(ps), es) && multiset(es) == multiset(vs)
  {
    hide Render;
    if vs == [] {
      es := [];
    } else {
      var rest := Arrange(vs[1..], ps[1..]);
      es := ArrangeInsert(vs[0], ps[0], rest, Sort(ps[1..]));
      assert vs == [vs[0]] + vs[1..];
    }
  }

  lemma {:induction false} ArrangeInsert(v: PyObj, p: Text, vs: seq<PyObj>, ps: seq<Text>) returns (es: seq<PyObj>)
    requires p == Render(v) && PartsFor(ps, vs)
    ensures PartsFor(Insert(p, ps), es) && multiset(es) == multiset{v} + multiset(vs)
  {
    hide Render;
    if ps == [] || LexLe(p, ps[0]) {
      es := [v] + vs;
    } else {
      var rest := ArrangeInsert(v, p, vs[1..], ps[1..]);
      es := [vs[0]] + rest;
      assert vs == [vs[0]] + vs[1..];
    }
  }

  lemma Members(es: seq<PyObj>, v: PyObj, allow: Allowlist)
    requires v.Set? && multiset(es) == multiset(v.items) && Fine(v, allow)
    ensures AllFine(es, allow) && forall i | 0 <= i < |es| :: es[i] < v
  {
    forall i | 0 <= i < |es| ensures Fine(es[i], allow) && es[i] < v {
      assert es[i] in multiset(v.items);
      var k :| 0 <= k < |v.items| && v.items[k] == es[i];
      assert Kids(v)[k] == es[i];
    }
  }

  lemma SetReading(v: PyObj, x: Text, w: PyObj, y: Text, allow: Allowlist)
    requires PrefixFree(allow)
    requires v.Set? && w.Set? && Fine(v, allow) && Fine(w, allow) && Render(v) + x == Render(w) + y
    ensures Same(v, w) && x == y
    decreases v, 1, 0
  {
    var pv, pw := Sort(KidTexts(v)), Sort(KidTexts(w));
    var lv, lw := Listed(pv, COMMA, COMMA, CURLY_CLOSE, x), Listed(pw, COMMA, COMMA, CURLY_CLOSE, y);
    assert Render(v) + x == [CURLY] + lv;
    assert Render(w) + y == [CURLY] + lw;
    hide Render, Join, Sort, Listed, Fine;
    Split([CURLY], lv, [CURLY], lw);
    var es := Arrange(v.items, KidTexts(v));
    var fs := Arrange(w.items, KidTexts(w));
    Members(es, v, allow);
    Members(fs, w, allow);
    ListReading(v, es, pv, fs, pw, COMMA, COMMA, CURLY_CLOSE, x, y, allow);
    assert Paired(v, w, es, fs);
  }

  lemma ClassedReading(v: PyObj, x: Text, w: PyObj, y: Text, allow: Allowlist)
    requires PrefixFree(allow)
    requires Tag(v) == 60 && Tag(w) == 60 && Fine(v, allow) && Fine(w, allow) && Ends(x) && Ends(y)
    requires Render(v) + x == Render(w) + y
    ensures Same(v, w) && x == y
    decreases v, 2, 0
  {
    var c, d := v.class_, w.class_;
    var rv := if v.Global? then x else [ROUND] + Listed(KidTexts(v), COMMA, COMMA, ROUND_CLOSE, x);
    var rw := if w.Global? then y else [ROUND] + Listed(KidTexts(w), COMMA, COMMA, ROUND_CLOSE, y);
    assert Render(v) + x == [LESS] + (ClassText(c) + [GREATER] + rv) by { ClassedText(v, x); }
    assert Render(w) + y == [LESS] + (ClassText(d) + [GREATER] + rw) by { ClassedText(w, y); }
    Split([LESS], ClassText(c) + [GREATER] + rv, [LESS], ClassText(d) + [GREATER] + rw);
    assert v.Instance? ==> rv[0] == ROUND;
    assert w.Instance? ==> rw[0] == ROUND;
    ClassReading(c, rv, d, rw, allow);
    assert v.Instance? == w.Instance?;
    if v.Instance? {
      EnclosedReading(v, x, w, y, [LESS] + ClassText(c) + [GREATER, ROUND], COMMA, ROUND_CLOSE, allow);
    }
  }

  lemma ClassedText(v: PyObj, x: Text)
    requires v.Global? || v.Instance?
    ensures Render(v) + x == [LESS] + (ClassText(v.class_) + [GREATER]
              + if v.Global? then x else [ROUND] + Listed(KidTexts(v), COMMA, COMMA, ROUND_CLOSE, x))
  {
    if v.Instance? {
      var t, j := ClassText(v.class_), Join(KidTexts(v), COMMA, COMMA);
      assert [LESS] + t + [GREATER, ROUND] + j + [ROUND_CLOSE] + x
          == [LESS] + (t + [GREATER] + ([ROUND] + (j + [ROUND_CLOSE] + x)));
    } else {
      assert [LESS] + ClassText(v.class_) + [GREATER] + x == [LESS] + (ClassText(v.class_) + [GREATER] + x);
    }
  }

  /** A rendered value followed by an ending can be read back in one way only. */
  lemma {:induction false} Reading(v: PyObj, x: Text, w: PyObj, y: Text, allow: Allowlist)
    requires PrefixFree(allow)
    requires Fine(v, allow) && Fine(w, allow) && Ends(x) && Ends(y) && Render(v) + x == Render(w) + y
    ensures Same(v, w) && x == y
    decreases v, 3, 0
  {
    SameTag(v, x, w, y);
    hide Fine, KidTexts, Join, Decimal;
    match v
    case NoneObj => Split(NONE, x, NONE, y);
    case Bool(b) => Split(Render(v), x, Render(w), y);
    case Int(_) => NumberReading(v, x, w, y, allow);
    case Big(_) => NumberReading(v, x, w, y, allow);
    case Float(_) => FloatReading(v, x, w, y, allow);
    case Str(_) => StrReading(v, x, w, y);
    case Tuple(_) => EnclosedReading(v, x, w, y, [ROUND], COMMA, ROUND_CLOSE, allow);
    case List(_) => EnclosedReading(v, x, w, y, [SQUARE], COMMA, SQUARE_CLOSE, allow);
    case Dict(_) => EnclosedReading(v, x, w, y, [100, CURLY], COLON, CURLY_CLOSE, allow);
    case Set(_) => SetReading(v, x, w, y, allow);
    case Global(_) => ClassedReading(v, x, w, y, allow);
    case Instance(_, _) => ClassedReading(v, x, w, y, allow);
  }

  // The converse: equal up to order prints alike.

  ghost function Without<T>(s: seq<T>, k: nat): seq<T>
    requires k < |s|
  {
    s[..k] + s[k + 1..]
  }

  lemma RemoveAt<T>(s: seq<T>, k: nat)
    requires k < |s|
    ensures multiset(Without(s, k)) == multiset(s) - multiset{s[k]} && s[k] in multiset(s)
    ensures |Without(s, k)| == |s| - 1
  {
    assert s == s[..k] + [s[k]] + s[k + 1..];
  }

  lemma RemovePart(fs: seq<PyObj>, qs: seq<Text>, k: nat)
    requires PartsFor(qs, fs) && k < |fs|
    ensures PartsFor(Without(qs, k), Without(fs, k))
  {
    hide Render;
  }

  lemma RestoreOne<T>(a: multiset<T>, b: multiset<T>, p: T)
    requires p in a && p in b && a - multiset{p} == b - multiset{p}
    ensures a == b
  {
    assert a == (a - multiset{p}) + multiset{p} && b == (b - multiset{p}) + multiset{p};
  }

  lemma {:induction false} MapPermutes(es: seq<PyObj>, ps: seq<Text>, fs: seq<PyObj>, qs: seq<Text>)
    requires PartsFor(ps, es) && PartsFor(qs, fs) && multiset(es) == multiset(fs)
    ensures multiset(ps) == multiset(qs)
    decreases |es|
  {
    hide Without, Render;
    assert |multiset(es)| == |multiset(fs)|;
    if es != [] {
      assert es[0] in multiset(fs);
      var k :| 0 <= k < |fs| && fs[k] == es[0];
      MapPermutesStep(es, ps, fs, qs, k);
      RemoveAt(es, 0);
      MapPermutes(Without(es, 0), Without(ps, 0), Without(fs, k), Without(qs, k));
      RestoreOne(multiset(ps), multiset(qs), ps[0]);
    }
  }

  lemma MapPermutesStep(es: seq<PyObj>, ps: seq<Text>, fs: seq<PyObj>, qs: seq<Text>, k: nat)
    requires PartsFor(ps, es) && PartsFor(qs, fs) && multiset(es) == multiset(fs)
    requires es != [] && k < |fs| && fs[k] == es[0]
    ensures PartsFor(Without(ps, 0), Without(es, 0)) && PartsFor(Without(qs, k), Without(fs, k))
    ensures multiset(Without(es, 0)) == multiset(Without(fs, k))
    ensures multiset(Without(ps, 0)) == multiset(ps) - multiset{ps[0]}
    ensures multiset(Without(qs, k)) == multiset(qs) - multiset{ps[0]}
    ensures ps[0] in multiset(ps) && ps[0] in multiset(qs)
  {
    hide Render, Without;
    RemovePart(es, ps, 0);
    RemovePart(fs, qs, k);
    RemoveAt(fs, k);
    RemoveAt(qs, k);
    RemoveAt(es, 0);
    RemoveAt(ps, 0);
    assert qs[k] == ps[0];
  }

  lemma {:induction false} SameRenders(v: PyObj, w: PyObj)
    requires Same(v, w)
    ensures Render(v) == Render(w)
    decreases v
  {
    if v.Set? && w.Set? {
      var es, fs :| Paired(v, w, es, fs);
      SameSetRenders(v, w, es, fs);
    } else {
      forall k | 0 <= k < |Kids(v)| ensures KidTexts(v)[k] == KidTexts(w)[k] {
        SameRenders(Kids(v)[k], Kids(w)[k]);
      }
      assert KidTexts(v) == KidTexts(w);
      SameHeadRenders(v, w);
    }
  }

  lemma SameHeadRenders(v: PyObj, w: PyObj)
    requires HeadOf(v) == HeadOf(w) && KidTexts(v) == KidTexts(w)
    ensures Render(v) == Render(w)
  {
  }

  lemma SameSetRenders(v: PyObj, w: PyObj, es: seq<PyObj>, fs: seq<PyObj>)
    requires v.Set? && w.Set? && Paired(v, w, es, fs)
    ensures Render(v) == Render(w)
    decreases v, 0
  {
    var ps := Renders(es);
    forall k | 0 <= k < |es| ensures Render(es[k]) == Render(fs[k]) {
      SameRenders(es[k], fs[k]);
    }
    assert PartsFor(ps, fs);
    MapPermutes(es, ps, v.items, KidTexts(v));
    MapPermutes(fs, ps, w.items, KidTexts(w));
    SortCanonical(KidTexts(v), KidTexts(w));
  }

  /** Two values print the same canonical text exactly when they are equal up to the order of set elements. */
  lemma CanonicalDecides(v: PyObj, w: PyObj, allow: Allowlist)
    requires PrefixFree(allow) && Fine(v, allow) && Fine(w, allow)
    ensures Render(v) == Render(w) <==> Same(v, w)
  {
    if Render(v) == Render(w) {
      assert Render(v) + [] == Render(w) + [];
      Reading(v, [], w, [], allow);
    }
    if Same(v, w) {
      SameRenders(v, w);
    }
  }

  /** The canonical text tells all values over a list of classes apart. */
  ghost predicate TextDecides(allow: Allowlist) {
    forall v, w | Fine(v, allow) && Fine(w, allow) :: Render(v) == Render(w) <==> Same(v, w)
  }

  /** It does so exactly when no two classes of the list print the same dotted name. */
  lemma NamesDecide(allow: Allowlist)
    requires BracketFree(allow)
    ensures TextDecides(allow) <==> NamesDiffer(allow)
  {
    if NamesDiffer(allow) {
      DifferentNamesPrefixFree(allow);
      forall v, w | Fine(v, allow) && Fine(w, allow) ensures Render(v) == Render(w) <==> Same(v, w) {
        CanonicalDecides(v, w, allow);
      }
    }
    if TextDecides(allow) {
      forall c, d | Permits(allow, c) && Permits(allow, d) && ClassText(c) == ClassText(d) ensures c == d {
        assert Fine(Global(c), allow) && Fine(Global(d), allow);
        assert Render(Global(c)) == Render(Global(d));
        assert Same(Global(c), Global(d));
      }
    }
  }

  const SHORT: ClassId := ClassId([97], [98])
  const BRACKETED: ClassId := ClassId([97], [98, GREATER, ROUND, 115, 50, COLON])
  const ARGUMENT: PyObj := Str([GREATER, ROUND])

  lemma ArgumentText()
    ensures Render(ARGUMENT) == [115, 50, COLON, GREATER, ROUND]
  {
    assert DigitsOf(10, 0) == [] && DigitsOf(10, 2) == [2];
    assert Decimal(2) == [50];
  }

  lemma CalledText(c: ClassId, items: seq<PyObj>, inside: Text)
    requires if items == [] then inside == [] else |items| == 1 && Render(items[0]) == inside
    ensures Render(Instance(c, items))
         == [LESS] + (c.moduleName + [DOT] + c.name) + [GREATER, ROUND] + inside + [ROUND_CLOSE]
  {
    var texts := KidTexts(Instance(c, items));
    assert texts == if items == [] then [] else [inside];
    hide KidTexts, Decimal;
  }

  /** Brackets in names can do it too: `a.b` called with the string `>(`, and `a.b>(s2:` called with nothing. */
  lemma BracketedNamesCollide()
    ensures ClassText(SHORT) != ClassText(BRACKETED)
    ensures Render(Instance(SHORT, [ARGUMENT])) == Render(Instance(BRACKETED, []))
    ensures !Same(Instance(SHORT, [ARGUMENT]), Instance(BRACKETED, []))
  {
    ArgumentText();
    CalledText(SHORT, [ARGUMENT], [115, 50, COLON, GREATER, ROUND]);
    CalledText(BRACKETED, [], []);
    assert |Kids(Instance(SHORT, [ARGUMENT]))| == 1 && |Kids(Instance(BRACKETED, []))| == 0;
    hide Render;
  }

  /** Two ids that do: `a` with `b.c`, and `a.b` with `c`. */
  lemma DottedNamesCollide()
    ensures var c, d := ClassId([97], [98, DOT, 99]), ClassId([97, DOT, 98], [99]);
            Render(Global(c)) == Render(Global(d)) && !Same(Global(c), Global(d))
  {
    var c, d := ClassId([97], [98, DOT, 99]), ClassId([97, DOT, 98], [99]);
    assert ClassText(c) == [97, DOT, 98, DOT, 99] == ClassText(d);
  }
}
