/** What the order of texts and lists means: the first place that differs decides, and a proper prefix comes first. */
module PyLexical {
  import opened Common
  import opened TextOrder
  import opened PyValue
  import opened PyOrdering
  import opened Utf8

  /** `a` and `b` agree before place `k`, and there `a` ends or has the smaller byte. */
  predicate SmallerAt(a: Text, b: Text, k: nat) {
    k <= |a| && k < |b| && a[..k] == b[..k] && (k == |a| || a[k] < b[k])
  }

  lemma {:induction false} SmallerSomewhere(a: Text, b: Text) returns (k: nat)
    requires LexLe(a, b) && a != b
    ensures SmallerAt(a, b, k)
  {
    if a == [] || a[0] < b[0] {
      k := 0;
    } else {
      assert a == [a[0]] + a[1..] && b == [b[0]] + b[1..];
      var j := SmallerSomewhere(a[1..], b[1..]);
      k := j + 1;
      assert a[..k] == [a[0]] + a[1..][..j] && b[..k] == [b[0]] + b[1..][..j];
    }
  }

  lemma {:induction false} SmallerIsBelow(a: Text, b: Text, k: nat)
    requires SmallerAt(a, b, k)
    ensures LexLe(a, b) && a != b
  {
    if k == 0 {
      assert a != b;
    } else {
      assert a[0] == a[..k][0] && b[0] == b[..k][0];
      assert a[1..][..k - 1] == a[..k][1..] && b[1..][..k - 1] == b[..k][1..];
      SmallerIsBelow(a[1..], b[1..], k - 1);
    }
  }

  /** One text is less than another if and only if it is a proper prefix or the first byte that differs is smaller. */
  lemma TextLess(a: Text, b: Text)
    ensures PyCmp(StringValue(a), StringValue(b)).Some?
    ensures PyCmp(StringValue(a), StringValue(b)) == Some(Less) <==> exists k: nat :: SmallerAt(a, b, k)
    ensures PyCmp(StringValue(a), StringValue(b)) == Some(Greater) <==> exists k: nat :: SmallerAt(b, a, k)
    ensures PyCmp(StringValue(a), StringValue(b)) == Some(Equal) <==> a == b
  {
    LexTotal(a, b);
    if a != b {
      if LexLe(a, b) {
        var k := SmallerSomewhere(a, b);
      }
      if LexLe(b, a) {
        var k := SmallerSomewhere(b, a);
      }
      if LexLe(a, b) && LexLe(b, a) {
        LexAntisymmetric(a, b);
      }
    }
    forall k: nat | SmallerAt(a, b, k) ensures LexLe(a, b) && a != b {
      SmallerIsBelow(a, b, k);
    }
    forall k: nat | SmallerAt(b, a, k) ensures LexLe(b, a) && a != b {
      SmallerIsBelow(b, a, k);
    }
  }

  /** The lists hold equal items before place `k`, and there the first ends or has the smaller item. */
  predicate ItemSmallerAt(x: seq<Json>, y: seq<Json>, k: nat) {
    && k <= |x| && k <= |y|
    && (forall i | 0 <= i < k :: PyCmp(x[i], y[i]) == Some(Equal))
    && (if k < |x| && k < |y| then PyCmp(x[k], y[k]) == Some(Less) else |x| < |y|)
  }

  lemma {:induction false} ItemsFrom(x: seq<Json>, y: seq<Json>, i: nat) returns (k: nat)
    requires i <= |x| && i <= |y| && forall j | 0 <= j < i :: PyCmp(x[j], y[j]) == Some(Equal)
    requires CmpItems(ArrayValue(x), x, y, i) == Some(Less)
    ensures ItemSmallerAt(x, y, k)
    decreases |x| - i
  {
    if i < |x| && i < |y| && PyCmp(x[i], y[i]) == Some(Equal) {
      k := ItemsFrom(x, y, i + 1);
    } else {
      k := i;
    }
  }

  lemma {:induction false} ItemsUpTo(x: seq<Json>, y: seq<Json>, k: nat, i: nat)
    requires ItemSmallerAt(x, y, k) && i <= k
    ensures CmpItems(ArrayValue(x), x, y, i) == Some(Less)
    decreases k - i
  {
    if i < k {
      assert PyCmp(x[i], y[i]) == Some(Equal);
      ItemsUpTo(x, y, k, i + 1);
    }
  }

  /** So one list is less than another if and only if it is a proper prefix or the first item that differs is less. */
  lemma ListLess(x: seq<Json>, y: seq<Json>)
    ensures PyCmp(ArrayValue(x), ArrayValue(y)) == Some(Less) <==> exists k: nat :: ItemSmallerAt(x, y, k)
  {
    assert PyCmp(ArrayValue(x), ArrayValue(y)) == CmpItems(ArrayValue(x), x, y, 0);
    if PyCmp(ArrayValue(x), ArrayValue(y)) == Some(Less) {
      var k := ItemsFrom(x, y, 0);
    }
    forall k: nat | ItemSmallerAt(x, y, k) ensures PyCmp(ArrayValue(x), ArrayValue(y)) == Some(Less) {
      ItemsUpTo(x, y, k, 0);
    }
  }

  // Bytes and characters.

  /** The characters agree before place `k`, and there the first text ends or has the smaller one. */
  predicate EarlierAt(cs: seq<int>, ds: seq<int>, k: nat) {
    k <= |cs| && k < |ds| && cs[..k] == ds[..k] && (k == |cs| || cs[k] < ds[k])
  }

  lemma SmallerDigit(c: nat, d: nat)
    requires c <= d
    ensures 0 <= c / 64 <= d / 64 && (c / 64 == d / 64 ==> c % 64 <= d % 64)
    ensures c < d && c / 64 == d / 64 ==> c % 64 < d % 64
  {
  }

  lemma Quotients(c: nat)
    ensures c / 4096 == c / 64 / 64 && c / 262144 == c / 64 / 64 / 64
  {
  }

  /** The six-bit digits of a number, the highest first. */
  function Digits(c: nat): (digits: seq<int>)
    ensures |digits| == 4
  {
    [c / 262144, c / 4096 % 64, c / 64 % 64, c % 64]
  }

  lemma DigitsKeepOrder(c: nat, d: nat) returns (k: nat)
    requires c < d
    ensures k < 4 && Digits(c)[..k] == Digits(d)[..k] && Digits(c)[k] < Digits(d)[k]
  {
    Quotients(c);
    Quotients(d);
    SmallerDigit(c, d);
    SmallerDigit(c / 64, d / 64);
    SmallerDigit(c / 64 / 64, d / 64 / 64);
    if c / 262144 != d / 262144 {
      k := 0;
    } else if c / 4096 != d / 4096 {
      k := 1;
    } else if c / 64 != d / 64 {
      k := 2;
    } else {
      k := 3;
    }
  }

  /** An encoding is its last digits, each with the mark of its place. */
  predicate Marked(bytes: Text, digits: seq<int>, lead: int) {
    && 1 <= |bytes| <= 4 && |digits| == 4
    && bytes[0] == lead + digits[4 - |bytes|]
    && forall i | 1 <= i < |bytes| :: bytes[i] == 0x80 + digits[4 - |bytes| + i]
  }

  lemma EncodedMarked(c: int)
    requires Scalar(c) && 0x80 <= c
    ensures var bytes := Encoded(c);
      && 2 <= |bytes| <= 4
      && Marked(bytes, Digits(c), if |bytes| == 2 then 0xC0 else if |bytes| == 3 then 0xE0 else 0xF0)
      && forall i | 0 <= i < 4 - |bytes| :: Digits(c)[i] == 0
  {
  }

  lemma LengthsKeepOrder(c: int, d: int)
    requires Scalar(c) && Scalar(d) && c < d
    ensures |Encoded(c)| <= |Encoded(d)|
    ensures |Encoded(c)| < |Encoded(d)| ==> Encoded(c)[0] < Encoded(d)[0]
    ensures |Encoded(c)| == 1 ==> Encoded(c)[0] < Encoded(d)[0]
    ensures |Encoded(d)| > 1 ==> d >= 0x80
    ensures |Encoded(c)| > 1 ==> c >= 0x80
  {
  }

  /** A smaller character has an encoding that is smaller at some byte of both. */
  lemma EncodingsKeepOrder(c: int, d: int) returns (k: nat)
    requires Scalar(c) && Scalar(d) && c < d
    ensures k < |Encoded(c)| && k < |Encoded(d)|
    ensures Encoded(c)[..k] == Encoded(d)[..k] && Encoded(c)[k] < Encoded(d)[k]
  {
    hide Encoded, Scalar, Digits;
    LengthsKeepOrder(c, d);
    k := 0;
    if |Encoded(c)| == |Encoded(d)| > 1 {
      EncodedMarked(c);
      EncodedMarked(d);
      var j := DigitsKeepOrder(c, d);
      var n := 4 - |Encoded(c)|;
      assert j >= n;
      k := j - n;
      forall i | 0 <= i < k ensures Encoded(c)[i] == Encoded(d)[i] {
        assert Digits(c)[n + i] == Digits(c)[..j][n + i];
        assert Digits(d)[n + i] == Digits(d)[..j][n + i];
      }
    }
  }

  lemma {:induction false} SharedStart(cs: seq<int>, k: nat)
    requires AllScalars(cs) && k <= |cs|
    ensures AllEncoded(cs) == AllEncoded(cs[..k]) + AllEncoded(cs[k..])
  {
    if k == 0 {
      assert cs[..0] == [] && cs[0..] == cs;
    } else {
      assert cs[..k][1..] == cs[1..][..k - 1] && cs[1..][k - 1..] == cs[k..];
      SharedStart(cs[1..], k - 1);
    }
  }

  /** Comparing UTF-8 bytes compares characters: the order of texts is that of their code points. */
  lemma BytesOrderCharacters(cs: seq<int>, ds: seq<int>, k: nat)
    requires AllScalars(cs) && AllScalars(ds) && EarlierAt(cs, ds, k)
    ensures PyCmp(StringValue(AllEncoded(cs)), StringValue(AllEncoded(ds))) == Some(Less)
  {
    var a, b := AllEncoded(cs), AllEncoded(ds);
    SharedStart(cs, k);
    SharedStart(ds, k);
    var n := |AllEncoded(cs[..k])|;
    if k == |cs| {
      assert SmallerAt(a, b, n);
    } else {
      var j := EncodingsKeepOrder(cs[k], ds[k]);
      assert AllEncoded(cs[k..]) == Encoded(cs[k]) + AllEncoded(cs[k + 1..]) by {
        assert cs[k..][1..] == cs[k + 1..];
      }
      assert AllEncoded(ds[k..]) == Encoded(ds[k]) + AllEncoded(ds[k + 1..]) by {
        assert ds[k..][1..] == ds[k + 1..];
      }
      SmallerInside(AllEncoded(cs[..k]), Encoded(cs[k]), AllEncoded(cs[k + 1..]), Encoded(ds[k]),
                    AllEncoded(ds[k + 1..]), j);
    }
    TextLess(a, b);
  }

  lemma SmallerInside(front: Text, x: Text, s: Text, y: Text, t: Text, j: nat)
    requires j < |x| && j < |y| && x[..j] == y[..j] && x[j] < y[j]
    ensures SmallerAt(front + (x + s), front + (y + t), |front| + j)
  {
    var a, b := front + (x + s), front + (y + t);
    assert a[..|front| + j] == front + x[..j] && b[..|front| + j] == front + y[..j];
  }

  // Numbers.

  /** Any two finite numbers, whole or not, of any width, are ordered by what they exactly are; truth values as 1 and 0.
   */
  lemma NumberLess(a: Json, b: Json)
    requires AsNum(a).Some? && AsNum(b).Some? && Finite(AsNum(a).value) && Finite(AsNum(b).value)
    ensures var x, y := Exact(AsNum(a).value), Exact(AsNum(b).value);
      && PyCmp(a, b).Some?
      && (PyCmp(a, b) == Some(Less) <==> x < y)
      && (PyCmp(a, b) == Some(Equal) <==> x == y)
      && (PyCmp(a, b) == Some(Greater) <==> x > y)
  {
    CmpNumsExact(AsNum(a).value, AsNum(b).value);
  }
}
