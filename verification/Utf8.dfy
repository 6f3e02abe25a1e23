/** The byte ranges that the reader accepts as text are exactly the encodings of Unicode scalar values. */
module Utf8 {
  import opened Common
  import opened PickleStream

  /** Every code point but the surrogates. */
  predicate Scalar(c: int) {
    0 <= c < 0xD800 || 0xE000 <= c < 0x11_0000
  }

  /** Six bits to a continuation byte, the shortest form that holds the number. */
  function Encoded(c: int): (bytes: seq<Byte>)
    requires Scalar(c)
    ensures bytes != []
  {
    if c < 0x80 then [c]
    else if c < 0x800 then [0xC0 + c / 64, 0x80 + c % 64]
    else if c < 0x1_0000 then [0xE0 + c / 4096, 0x80 + c / 64 % 64, 0x80 + c % 64]
    else [0xF0 + c / 262144, 0x80 + c / 4096 % 64, 0x80 + c / 64 % 64, 0x80 + c % 64]
  }

  predicate AllScalars(cs: seq<int>) {
    forall i | 0 <= i < |cs| :: Scalar(cs[i])
  }

  function AllEncoded(cs: seq<int>): seq<Byte>
    requires AllScalars(cs)
  {
    if cs == [] then [] else Encoded(cs[0]) + AllEncoded(cs[1..])
  }

  /** The bytes of an encoded scalar lie in the ranges of the table. */
  lemma EncodedRanges(c: int)
    requires Scalar(c)
    ensures HeadOk(Encoded(c))
  {
  }

  /** One whole character by the table. */
  predicate HeadOk(h: seq<Byte>) {
    || (|h| == 1 && h[0] < 0x80)
    || (|h| == 2 && Within(h[0], 0xC2, 0xDF) && Continuation(h, 1))
    || (&& |h| == 3 && Within(h[0], 0xE0, 0xEF) && Continuation(h, 1) && Continuation(h, 2)
        && (h[0] == 0xE0 ==> h[1] >= 0xA0) && (h[0] == 0xED ==> h[1] <= 0x9F))
    || (&& |h| == 4 && Within(h[0], 0xF0, 0xF4)
        && Continuation(h, 1) && Continuation(h, 2) && Continuation(h, 3)
        && (h[0] == 0xF0 ==> h[1] >= 0x90) && (h[0] == 0xF4 ==> h[1] <= 0x8F))
  }

  lemma HeadThenRest(head: seq<Byte>, rest: seq<Byte>)
    requires HeadOk(head)
    ensures ValidUtf8(head + rest) == ValidUtf8(rest)
  {
    var all := head + rest;
    assert all[|head|..] == rest;
    assert forall i | 0 <= i < |head| :: all[i] == head[i];
  }

  /** An encoded scalar in front changes nothing about the rest. */
  lemma OneMore(c: int, rest: seq<Byte>)
    requires Scalar(c)
    ensures ValidUtf8(Encoded(c) + rest) == ValidUtf8(rest)
  {
    EncodedRanges(c);
    HeadThenRest(Encoded(c), rest);
  }

  lemma {:induction false} EncodedIsValid(cs: seq<int>)
    requires AllScalars(cs)
    ensures ValidUtf8(AllEncoded(cs))
  {
    if cs != [] {
      EncodedIsValid(cs[1..]);
      OneMore(cs[0], AllEncoded(cs[1..]));
    }
  }

  lemma TwoBytes(a: int, b: int)
    requires 0xC2 <= a <= 0xDF && 0x80 <= b <= 0xBF
    ensures var c := (a - 0xC0) * 64 + (b - 0x80); Scalar(c) && Encoded(c) == [a, b]
  {
  }

  lemma ThreeBytes(a: int, b: int, d: int)
    requires 0xE0 <= a <= 0xEF && 0x80 <= b <= 0xBF && 0x80 <= d <= 0xBF
    requires (a == 0xE0 ==> b >= 0xA0) && (a == 0xED ==> b <= 0x9F)
    ensures var c := (a - 0xE0) * 4096 + (b - 0x80) * 64 + (d - 0x80); Scalar(c) && Encoded(c) == [a, b, d]
  {
  }

  lemma Places(x: nat, y: nat, z: nat, w: nat)
    requires y < 64 && z < 64 && w < 64
    ensures var c := x * 262144 + y * 4096 + z * 64 + w;
            c / 262144 == x && c / 4096 % 64 == y && c / 64 % 64 == z && c % 64 == w
  {
    var c := x * 262144 + y * 4096 + z * 64 + w;
    assert c / 64 == x * 4096 + y * 64 + z;
    assert c / 4096 == x * 64 + y;
  }

  lemma FourBytes(a: int, b: int, d: int, e: int)
    requires 0xF0 <= a <= 0xF4 && 0x80 <= b <= 0xBF && 0x80 <= d <= 0xBF && 0x80 <= e <= 0xBF
    requires (a == 0xF0 ==> b >= 0x90) && (a == 0xF4 ==> b <= 0x8F)
    ensures var c := (a - 0xF0) * 262144 + (b - 0x80) * 4096 + (d - 0x80) * 64 + (e - 0x80);
            Scalar(c) && Encoded(c) == [a, b, d, e]
  {
    Places(a - 0xF0, b - 0x80, d - 0x80, e - 0x80);
  }

  /** The number in the first bytes of a well-formed text, and what follows. */
  lemma FirstScalar(s: seq<Byte>) returns (c: int, rest: seq<Byte>)
    requires s != [] && ValidUtf8(s)
    ensures Scalar(c) && s == Encoded(c) + rest && ValidUtf8(rest) && |rest| < |s|
  {
    hide Encoded, Scalar;
    var a: int := s[0];
    if a < 0x80 {
      c, rest := a, s[1..];
      OneByte(a);
    } else {
      var b: int := s[1];
      if a <= 0xDF {
        c, rest := (a - 0xC0) * 64 + (b - 0x80), s[2..];
        TwoBytes(a, b);
      } else {
        var d: int := s[2];
        if a <= 0xEF {
          c, rest := (a - 0xE0) * 4096 + (b - 0x80) * 64 + (d - 0x80), s[3..];
          ThreeBytes(a, b, d);
        } else {
          var e: int := s[3];
          c, rest := (a - 0xF0) * 262144 + (b - 0x80) * 4096 + (d - 0x80) * 64 + (e - 0x80), s[4..];
          FourBytes(a, b, d, e);
        }
      }
    }
  }

  lemma OneByte(a: int)
    requires 0 <= a < 0x80
    ensures Scalar(a) && Encoded(a) == [a]
  {
  }

  lemma {:induction false} ValidIsEncoded(s: seq<Byte>) returns (cs: seq<int>)
    requires ValidUtf8(s)
    ensures AllScalars(cs) && AllEncoded(cs) == s
  {
    if s == [] {
      cs := [];
    } else {
      var c, rest := FirstScalar(s);
      var more := ValidIsEncoded(rest);
      cs := [c] + more;
      assert cs[1..] == more;
    }
  }

  /** A text is accepted if and only if it is some scalar values encoded one after another. */
  lemma TextsAreEncodings(s: seq<Byte>)
    ensures ValidUtf8(s) <==> exists cs: seq<int> :: AllScalars(cs) && AllEncoded(cs) == s
  {
    if ValidUtf8(s) {
      var cs := ValidIsEncoded(s);
    }
    forall cs: seq<int> | AllScalars(cs) && AllEncoded(cs) == s ensures ValidUtf8(s) {
      EncodedIsValid(cs);
    }
  }
}
