/**
 * The nesting guard for inbound JSON (`crates/pahoa-proto/src/depth.rs`): one pass over the bytes, before any parsing,
 * judged on all texts of the JSON grammar (sections 2 to 7 of RFC 8259).
 */
module Depth {
  import opened Common

  type Text = seq<Byte>

  const QUOTE: Byte := 0x22
  const BACKSLASH: Byte := 0x5C

  // JSON texts.

  /** One character of a string: as it is, a two-character escape, or a code unit in four hexadecimal digits. */
  datatype Char = Plain(b: Byte) | Escape(b: Byte) | Unicode(h0: Byte, h1: Byte, h2: Byte, h3: Byte)

  datatype Json =
    | Bare(text: Text)
    | Str(chars: seq<Char>)
    | Array(space: Text, elements: seq<Element>)
    | Object(space: Text, members: seq<Member>)

  /** A value with the white space around it. */
  datatype Element = Element(before: Text, value: Json, after: Text)

  datatype Member = Member(before: Text, key: seq<Char>, colonBefore: Text, colonAfter: Text, value: Json, after: Text)

  predicate IsSpace(t: Text) {
    forall i | 0 <= i < |t| :: t[i] == 0x20 || t[i] == 0x09 || t[i] == 0x0A || t[i] == 0x0D
  }

  predicate IsHex(b: Byte) {
    0x30 <= b <= 0x39 || 0x41 <= b <= 0x46 || 0x61 <= b <= 0x66
  }

  /** The characters of numbers and of the three literal names. */
  predicate IsBare(t: Text) {
    t != [] && forall i | 0 <= i < |t| ::
      0x30 <= t[i] <= 0x39 || 0x61 <= t[i] <= 0x7A || t[i] == 0x45 || t[i] == 0x2B || t[i] == 0x2D || t[i] == 0x2E
  }

  predicate ValidChar(c: Char) {
    match c
    case Plain(b) => b >= 0x20 && b != QUOTE && b != BACKSLASH
    case Escape(b) => b in [QUOTE, BACKSLASH, 0x2F, 0x62, 0x66, 0x6E, 0x72, 0x74]
    case Unicode(h0, h1, h2, h3) => IsHex(h0) && IsHex(h1) && IsHex(h2) && IsHex(h3)
  }

  predicate ValidChars(cs: seq<Char>) {
    forall i | 0 <= i < |cs| :: ValidChar(cs[i])
  }

  ghost predicate Valid(j: Json) {
    match j
    case Bare(text) => IsBare(text)
    case Str(chars) => ValidChars(chars)
    case Array(space, elements) =>
      IsSpace(space) && forall i | 0 <= i < |elements| ::
        IsSpace(elements[i].before) && IsSpace(elements[i].after) && Valid(elements[i].value)
    case Object(space, members) =>
      IsSpace(space) && forall i | 0 <= i < |members| ::
        && IsSpace(members[i].before) && ValidChars(members[i].key) && IsSpace(members[i].colonBefore)
        && IsSpace(members[i].colonAfter) && IsSpace(members[i].after) && Valid(members[i].value)
  }

  function CharText(c: Char): Text {
    match c
    case Plain(b) => [b]
    case Escape(b) => [BACKSLASH, b]
    case Unicode(h0, h1, h2, h3) => [BACKSLASH, 0x75, h0, h1, h2, h3]
  }

  function CharsText(cs: seq<Char>): Text {
    if cs == [] then [] else CharText(cs[0]) + CharsText(cs[1..])
  }

  function Quoted(cs: seq<Char>): Text {
    [QUOTE] + CharsText(cs) + [QUOTE]
  }

  function Print(j: Json): Text
    decreases j, 0
  {
    match j
    case Bare(text) => text
    case Str(chars) => Quoted(chars)
    case Array(space, elements) =>
      [0x5B] + (if elements == [] then space else PrintElements(j, elements)) + [0x5D]
    case Object(space, members) =>
      [0x7B] + (if members == [] then space else PrintMembers(j, members)) + [0x7D]
  }

  function PrintElements(ghost j: Json, es: seq<Element>): Text
    requires es != [] && forall i | 0 <= i < |es| :: es[i].value < j
    decreases j, 0, |es|
  {
    var first := es[0].before + Print(es[0].value) + es[0].after;
    if |es| == 1 then first else first + [0x2C] + PrintElements(j, es[1..])
  }

  function PrintMembers(ghost j: Json, ms: seq<Member>): Text
    requires ms != [] && forall i | 0 <= i < |ms| :: ms[i].value < j
    decreases j, 0, |ms|
  {
    var m := ms[0];
    var first := m.before + Quoted(m.key) + m.colonBefore + [0x3A] + m.colonAfter + Print(m.value) + m.after;
    if |ms| == 1 then first else first + [0x2C] + PrintMembers(j, ms[1..])
  }

  function Max(a: nat, b: nat): nat {
    if a < b then b else a
  }

  /** How many containers are open at the deepest point. */
  ghost function Nesting(j: Json): nat
    decreases j, 0
  {
    match j
    case Bare(_) => 0
    case Str(_) => 0
    case Array(_, elements) => 1 + DeepestElement(j, elements)
    case Object(_, members) => 1 + DeepestMember(j, members)
  }

  ghost function DeepestElement(j: Json, es: seq<Element>): nat
    requires forall i | 0 <= i < |es| :: es[i].value < j
    decreases j, 0, |es|
  {
    if es == [] then 0 else Max(Nesting(es[0].value), DeepestElement(j, es[1..]))
  }

  ghost function DeepestMember(j: Json, ms: seq<Member>): nat
    requires forall i | 0 <= i < |ms| :: ms[i].value < j
    decreases j, 0, |ms|
  {
    if ms == [] then 0 else Max(Nesting(ms[0].value), DeepestMember(j, ms[1..]))
  }

  // The scanner.

  datatype DepthResult = Accepted | TooDeep(limit: nat) | Malformed

  datatype Scanner = Scanner(depth: int, inQuotes: bool, escape: bool)

  const OUTSIDE: Scanner := Scanner(1, false, false)

  /** One byte; `None` when it opens one container too many. */
  function ScanByte(s: Scanner, c: Byte, limit: int): Option<Scanner> {
    if c == BACKSLASH && !s.escape then Some(s.(escape := true))
    else if c == QUOTE && !s.escape then Some(s.(inQuotes := !s.inQuotes))
    else if !s.inQuotes && (c == 0x5B || c == 0x7B) then
      if s.depth + 1 > limit then None else Some(s.(depth := s.depth + 1, escape := false))
    else if !s.inQuotes && (c == 0x5D || c == 0x7D) then Some(s.(depth := s.depth - 1, escape := false))
    else Some(s.(escape := false))
  }

  function Scan(s: Scanner, t: Text, limit: int): Option<Scanner>
    decreases |t|
  {
    if t == [] then Some(s)
    else
      match ScanByte(s, t[0], limit)
      case None => None
      case Some(n) => Scan(n, t[1..], limit)
  }

  function Verdict(t: Text, limit: nat): DepthResult {
    match Scan(OUTSIDE, t, AsI64(limit))
    case None => TooDeep(limit)
    case Some(s) => if s.depth != 1 then Malformed else Accepted
  }

  /** A 64-bit count reinterpreted as signed. */
  function AsI64(n: int): int {
    if n <= I64_MAX then n else n - 0x1_0000_0000_0000_0000
  }

  method CheckDepth(t: Text, limit: nat) returns (r: DepthResult)
    ensures r == Verdict(t, limit)
  {
    var depth := 1;
    var inQuotes := false;
    var escape := false;
    var limitI := AsI64(limit);
    var i := 0;
    while i < |t|
      invariant 0 <= i <= |t|
      invariant Scan(Scanner(depth, inQuotes, escape), t[i..], limitI) == Scan(OUTSIDE, t, limitI)
    {
      var c := t[i];
      assert t[i..][0] == c && t[i..][1..] == t[i + 1..];
      i := i + 1;
      if c == BACKSLASH && !escape {
        escape := true;
        continue;
      }
      if c == QUOTE && !escape {
        inQuotes := !inQuotes;
        continue;
      }
      if !inQuotes {
        if c == 0x5B || c == 0x7B {
          depth := depth + 1;
          if depth > limitI {
            return TooDeep(limit);
          }
        } else if c == 0x5D || c == 0x7D {
          depth := depth - 1;
        }
      }
      escape := false;
    }
    if depth != 1 {
      return Malformed;
    }
    return Accepted;
  }

  // What the scanner makes of each piece of a JSON text.

  lemma {:induction false} ScanConcat(s: Scanner, a: Text, b: Text, limit: int)
    ensures Scan(s, a + b, limit) == match Scan(s, a, limit) case None => None case Some(n) => Scan(n, b, limit)
    decreases |a|
  {
    if a == [] {
      assert a + b == b;
    } else {
      assert (a + b)[1..] == a[1..] + b;
      match ScanByte(s, a[0], limit)
      case None =>
      case Some(n) => ScanConcat(n, a[1..], b, limit);
    }
  }

  ghost predicate Neutral(b: Byte) {
    b !in [QUOTE, BACKSLASH, 0x5B, 0x5D, 0x7B, 0x7D]
  }

  lemma {:induction false} ScanNeutral(d: int, t: Text, limit: int)
    requires forall i | 0 <= i < |t| :: Neutral(t[i])
    ensures Scan(Scanner(d, false, false), t, limit) == Some(Scanner(d, false, false))
  {
    if t != [] {
      ScanNeutral(d, t[1..], limit);
    }
  }

  /** Inside a string every character leaves the scanner inside the string, ready for the next. */
  lemma ScanChar(d: int, c: Char, limit: int)
    requires ValidChar(c)
    ensures Scan(Scanner(d, true, false), CharText(c), limit) == Some(Scanner(d, true, false))
  {
    var s := Scanner(d, true, false);
    match c
    case Plain(b) => assert CharText(c)[1..] == [];
    case Escape(b) =>
      assert CharText(c)[1..] == [b] && [b][1..] == [];
      assert Scan(s.(escape := true), [b], limit) == Scan(s, [], limit);
    case Unicode(h0, h1, h2, h3) =>
      assert CharText(c) == [BACKSLASH, 0x75] + [h0, h1, h2, h3];
      assert [BACKSLASH, 0x75][1..] == [0x75] && [0x75][1..] == [];
      assert Scan(s.(escape := true), [0x75], limit) == Some(s);
      ScanConcat(s, [BACKSLASH, 0x75], [h0, h1, h2, h3], limit);
      ScanHex(s, [h0, h1, h2, h3], limit);
  }

  lemma {:induction false} ScanHex(s: Scanner, t: Text, limit: int)
    requires s.inQuotes && !s.escape && forall i | 0 <= i < |t| :: IsHex(t[i])
    ensures Scan(s, t, limit) == Some(s)
  {
    if t != [] {
      ScanHex(s, t[1..], limit);
    }
  }

  lemma {:induction false} ScanChars(d: int, cs: seq<Char>, limit: int)
    requires ValidChars(cs)
    ensures Scan(Scanner(d, true, false), CharsText(cs), limit) == Some(Scanner(d, true, false))
  {
    if cs != [] {
      ScanChar(d, cs[0], limit);
      ScanChars(d, cs[1..], limit);
      ScanConcat(Scanner(d, true, false), CharText(cs[0]), CharsText(cs[1..]), limit);
    }
  }

  lemma ScanOne(s: Scanner, b: Byte, limit: int)
    ensures Scan(s, [b], limit) == ScanByte(s, b, limit)
  {
    assert [b][1..] == [];
  }

  /** A string counts for nothing, whatever brackets, quotes and backslashes it holds. */
  lemma ScanQuoted(d: int, cs: seq<Char>, limit: int)
    requires ValidChars(cs)
    ensures Scan(Scanner(d, false, false), Quoted(cs), limit) == Some(Scanner(d, false, false))
  {
    var s := Scanner(d, false, false);
    ScanOne(s, QUOTE, limit);
    ScanOne(s.(inQuotes := true), QUOTE, limit);
    ScanChars(d, cs, limit);
    ScanConcat(s, [QUOTE], CharsText(cs), limit);
    ScanConcat(s, [QUOTE] + CharsText(cs), [QUOTE], limit);
  }

  /** What scanning a whole value from depth `d` must give, `nesting` levels deep. */
  ghost function Expected(d: int, nesting: nat, limit: int): Option<Scanner> {
    if nesting == 0 || d + nesting <= limit then Some(Scanner(d, false, false)) else None
  }

  lemma ScanBetween(d: int, before: Text, middle: Text, after: Text, nesting: nat, limit: int)
    requires forall i | 0 <= i < |before| :: Neutral(before[i])
    requires forall i | 0 <= i < |after| :: Neutral(after[i])
    requires Scan(Scanner(d, false, false), middle, limit) == Expected(d, nesting, limit)
    ensures Scan(Scanner(d, false, false), before + middle + after, limit) == Expected(d, nesting, limit)
  {
    var s := Scanner(d, false, false);
    ScanNeutral(d, before, limit);
    ScanNeutral(d, after, limit);
    ScanConcat(s, before, middle, limit);
    ScanConcat(s, before + middle, after, limit);
  }

  lemma ScanPair(d: int, a: Text, m: nat, b: Text, n: nat, limit: int)
    requires Scan(Scanner(d, false, false), a, limit) == Expected(d, m, limit)
    requires Scan(Scanner(d, false, false), b, limit) == Expected(d, n, limit)
    ensures Scan(Scanner(d, false, false), a + [0x2C] + b, limit) == Expected(d, Max(m, n), limit)
  {
    var s := Scanner(d, false, false);
    ScanOne(s, 0x2C, limit);
    ScanConcat(s, a, [0x2C], limit);
    ScanConcat(s, a + [0x2C], b, limit);
  }

  /** A container: one level more for what is inside it. */
  lemma ScanEnclosed(d: int, open: Byte, inside: Text, close: Byte, nesting: nat, limit: int)
    requires (open == 0x5B && close == 0x5D) || (open == 0x7B && close == 0x7D)
    requires Scan(Scanner(d + 1, false, false), inside, limit) == Expected(d + 1, nesting, limit)
    ensures Scan(Scanner(d, false, false), [open] + inside + [close], limit) == Expected(d, 1 + nesting, limit)
  {
    var s := Scanner(d, false, false);
    ScanOne(s, open, limit);
    ScanOne(Scanner(d + 1, false, false), close, limit);
    ScanConcat(s, [open], inside, limit);
    ScanConcat(s, [open] + inside, [close], limit);
  }

  lemma {:induction false} ScanElements(j: Json, es: seq<Element>, d: int, limit: int)
    requires es != [] && forall i | 0 <= i < |es| :: es[i].value < j
    requires forall i | 0 <= i < |es| :: IsSpace(es[i].before) && IsSpace(es[i].after) && Valid(es[i].value)
    ensures Scan(Scanner(d, false, false), PrintElements(j, es), limit) == Expected(d, DeepestElement(j, es), limit)
    decreases j, 0, |es|
  {
    hide Scan;
    var e := es[0];
    ScanValue(e.value, d, limit);
    ScanBetween(d, e.before, Print(e.value), e.after, Nesting(e.value), limit);
    if |es| > 1 {
      ScanElements(j, es[1..], d, limit);
      ScanPair(d, e.before + Print(e.value) + e.after, Nesting(e.value), PrintElements(j, es[1..]),
               DeepestElement(j, es[1..]), limit);
    } else {
      assert es[1..] == [];
    }
  }

  lemma ScanMember(d: int, m: Member, nesting: nat, limit: int)
    requires IsSpace(m.before) && ValidChars(m.key) && IsSpace(m.colonBefore) && IsSpace(m.colonAfter)
    requires IsSpace(m.after)
    requires Scan(Scanner(d, false, false), Print(m.value), limit) == Expected(d, nesting, limit)
    ensures Scan(Scanner(d, false, false),
                 m.before + Quoted(m.key) + m.colonBefore + [0x3A] + m.colonAfter + Print(m.value) + m.after, limit)
         == Expected(d, nesting, limit)
  {
    hide Scan, Print, Quoted;
    var s := Scanner(d, false, false);
    var colon := m.colonBefore + [0x3A] + m.colonAfter;
    var name := m.before + Quoted(m.key) + colon;
    ScanQuoted(d, m.key, limit);
    ScanBetween(d, m.before, Quoted(m.key), colon, 0, limit);
    ScanBetween(d, [], Print(m.value), m.after, nesting, limit);
    assert [] + Print(m.value) + m.after == Print(m.value) + m.after;
    ScanConcat(s, name, Print(m.value) + m.after, limit);
    assert name + (Print(m.value) + m.after)
        == m.before + Quoted(m.key) + m.colonBefore + [0x3A] + m.colonAfter + Print(m.value) + m.after;
  }

  lemma {:induction false} ScanMembers(j: Json, ms: seq<Member>, d: int, limit: int)
    requires ms != [] && forall i | 0 <= i < |ms| :: ms[i].value < j
    requires forall i | 0 <= i < |ms| ::
      && IsSpace(ms[i].before) && ValidChars(ms[i].key) && IsSpace(ms[i].colonBefore)
      && IsSpace(ms[i].colonAfter) && IsSpace(ms[i].after) && Valid(ms[i].value)
    ensures Scan(Scanner(d, false, false), PrintMembers(j, ms), limit) == Expected(d, DeepestMember(j, ms), limit)
    decreases j, 0, |ms|
  {
    hide Scan;
    var m := ms[0];
    ScanValue(m.value, d, limit);
    ScanMember(d, m, Nesting(m.value), limit);
    if |ms| > 1 {
      ScanMembers(j, ms[1..], d, limit);
      ScanPair(d, m.before + Quoted(m.key) + m.colonBefore + [0x3A] + m.colonAfter + Print(m.value) + m.after,
               Nesting(m.value), PrintMembers(j, ms[1..]), DeepestMember(j, ms[1..]), limit);
    } else {
      assert ms[1..] == [];
    }
  }

  lemma {:induction false} ScanValue(j: Json, d: int, limit: int)
    requires Valid(j)
    ensures Scan(Scanner(d, false, false), Print(j), limit) == Expected(d, Nesting(j), limit)
    decreases j, 1, 0
  {
    hide Scan;
    match j
    case Bare(text) => ScanNeutral(d, text, limit);
    case Str(chars) => ScanQuoted(d, chars, limit);
    case Array(space, elements) =>
      if elements == [] {
        ScanNeutral(d + 1, space, limit);
        ScanEnclosed(d, 0x5B, space, 0x5D, 0, limit);
      } else {
        ScanElements(j, elements, d + 1, limit);
        ScanEnclosed(d, 0x5B, PrintElements(j, elements), 0x5D, DeepestElement(j, elements), limit);
      }
    case Object(space, members) =>
      if members == [] {
        ScanNeutral(d + 1, space, limit);
        ScanEnclosed(d, 0x7B, space, 0x7D, 0, limit);
      } else {
        ScanMembers(j, members, d + 1, limit);
        ScanEnclosed(d, 0x7B, PrintMembers(j, members), 0x7D, DeepestMember(j, members), limit);
      }
  }

  /** A document with the white space the grammar allows around it. */
  lemma DocumentVerdict(before: Text, j: Json, after: Text, limit: nat)
    requires Valid(j) && IsSpace(before) && IsSpace(after)
    ensures Verdict(before + Print(j) + after, limit)
         == if Nesting(j) == 0 || 1 + Nesting(j) <= AsI64(limit) then Accepted else TooDeep(limit)
  {
    ScanValue(j, 1, AsI64(limit));
    ScanBetween(1, before, Print(j), after, Nesting(j), AsI64(limit));
  }

  /** The guard accepts exactly the documents with 1 plus the nesting within the limit, for every sensible limit. */
  lemma GuardIsExact(before: Text, j: Json, after: Text, limit: nat)
    requires Valid(j) && IsSpace(before) && IsSpace(after) && 1 <= limit <= I64_MAX
    ensures Verdict(before + Print(j) + after, limit) == if 1 + Nesting(j) <= limit then Accepted else TooDeep(limit)
  {
    DocumentVerdict(before, j, after, limit);
  }

  ghost predicate ExactFor(limit: nat) {
    forall j | Valid(j) :: Verdict(Print(j), limit) == if 1 + Nesting(j) <= limit then Accepted else TooDeep(limit)
  }

  /**
   * The limits for which that holds are exactly 1 up to the largest signed value: at 0 a bare number still passes, and
   * above the signed range the limit reads as negative, so `[]` is refused.
   */
  lemma SensibleLimits(limit: nat)
    requires limit <= 0xffff_ffff_ffff_ffff
    ensures ExactFor(limit) <==> 1 <= limit <= I64_MAX
  {
    if 1 <= limit <= I64_MAX {
      forall j | Valid(j)
        ensures Verdict(Print(j), limit) == if 1 + Nesting(j) <= limit then Accepted else TooDeep(limit)
      {
        PlainDocument(j, limit);
      }
    } else if limit == 0 {
      var j := Bare([0x30]);
      assert Valid(j) && Nesting(j) == 0;
      PlainDocument(j, limit);
    } else {
      var j := Array([], []);
      assert Valid(j) && Nesting(j) == 1;
      PlainDocument(j, limit);
    }
  }

  lemma PlainDocument(j: Json, limit: nat)
    requires Valid(j)
    ensures Verdict(Print(j), limit) ==
      if Nesting(j) == 0 || 1 + Nesting(j) <= AsI64(limit) then Accepted else TooDeep(limit)
  {
    DocumentVerdict([], j, [], limit);
    assert [] + Print(j) + [] == Print(j);
  }

  // Texts that are not JSON.

  predicate Opens(b: Byte) {
    b == 0x5B || b == 0x7B
  }

  predicate Closes(b: Byte) {
    b == 0x5D || b == 0x7D
  }

  /** Brackets and braces opened, less those closed; it may be negative. */
  function Balance(t: Text): int {
    if t == [] then 0
    else Balance(t[..|t| - 1]) + if Opens(Last(t)) then 1 else if Closes(Last(t)) then -1 else 0
  }

  /** The opener before place `k` is one too many. */
  predicate OneTooMany(t: Text, k: nat, limit: int) {
    0 < k <= |t| && Opens(t[k - 1]) && 1 + Balance(t[..k]) > limit
  }

  predicate Unquoted(t: Text) {
    QUOTE !in t && BACKSLASH !in t
  }

  lemma LastByte(t: Text, limit: int)
    requires t != [] && Unquoted(t)
    ensures Scan(Scanner(1 + Balance(t[..|t| - 1]), false, false), [Last(t)], limit)
         == if OneTooMany(t, |t|, limit) then None else Some(Scanner(1 + Balance(t), false, false))
  {
    assert t[..|t|] == t;
    assert [Last(t)][1..] == [];
    assert Last(t) in t;
  }

  lemma {:induction false} UnquotedScan(t: Text, limit: int)
    requires Unquoted(t)
    ensures (exists k: nat :: OneTooMany(t, k, limit)) ==> Scan(OUTSIDE, t, limit) == None
    ensures !(exists k: nat :: OneTooMany(t, k, limit)) ==>
              Scan(OUTSIDE, t, limit) == Some(Scanner(1 + Balance(t), false, false))
    decreases |t|
  {
    if t != [] {
      var front := t[..|t| - 1];
      assert t == front + [Last(t)];
      assert Unquoted(front);
      UnquotedScan(front, limit);
      ScanConcat(OUTSIDE, front, [Last(t)], limit);
      LastByte(t, limit);
      hide Scan, Balance;
      forall k: nat
        ensures OneTooMany(t, k, limit) <==> OneTooMany(front, k, limit) || (k == |t| && OneTooMany(t, k, limit))
      {
        if k <= |front| {
          assert front[..k] == t[..k];
        }
      }
    }
  }

  /**
   * Any text without quotes, well-formed or not: too deep if and only if some opener brings the balance past the limit,
   * otherwise accepted if and only if as many close as open, in whatever order.
   */
  lemma UnquotedVerdict(t: Text, limit: nat)
    requires Unquoted(t) && limit <= I64_MAX
    ensures Verdict(t, limit) == TooDeep(limit) <==> exists k: nat :: OneTooMany(t, k, limit)
    ensures Verdict(t, limit) == Accepted <==> !(exists k: nat :: OneTooMany(t, k, limit)) && Balance(t) == 0
  {
    UnquotedScan(t, limit);
  }
}
