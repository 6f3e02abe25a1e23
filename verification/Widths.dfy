/** How wide an integer is, and how wide products, powers and shifts are before they are built. */
module Widths {
  import opened Common
  import opened Numerals
  import opened PyValue

  /** The number of bits in the magnitude: none for zero. */
  function Bits(n: int): nat
    decreases Magnitude(n)
  {
    if n == 0 then 0 else 1 + Bits(Magnitude(n) / 2)
  }

  function IntPower(a: int, e: nat): int {
    if e == 0 then 1 else a * IntPower(a, e - 1)
  }

  lemma {:induction false} BitsBounds(n: int)
    requires n != 0
    ensures Bits(n) >= 1 && Pow2(Bits(n) - 1) <= Magnitude(n) < Pow2(Bits(n))
    decreases Magnitude(n)
  {
    if Magnitude(n) > 1 {
      BitsBounds(Magnitude(n) / 2);
    }
  }

  /** The width is the least power of two above the magnitude. */
  lemma BitsAtMost(n: int, k: nat)
    ensures Bits(n) <= k <==> Magnitude(n) < Pow2(k)
  {
    if n != 0 {
      BitsBounds(n);
      if Bits(n) <= k {
        Pow2Monotone(Bits(n), k);
      } else {
        Pow2Monotone(k, Bits(n) - 1);
      }
    }
  }

  /** A sum is at most one bit wider than its wider operand. */
  lemma BitsOfSum(a: int, b: int, k: nat)
    requires Bits(a) <= k && Bits(b) <= k
    ensures Bits(a + b) <= k + 1
  {
    BitsAtMost(a, k);
    BitsAtMost(b, k);
    BitsAtMost(a + b, k + 1);
  }

  lemma MagnitudeOfProduct(a: int, b: int)
    ensures Magnitude(a * b) == Magnitude(a) * Magnitude(b)
  {
  }

  lemma ProductsOrdered(a: nat, b: nat, c: nat, d: nat)
    requires a <= c && b <= d
    ensures a * b <= c * d
  {
    assert a * b <= c * b;
    assert c * b <= c * d;
  }

  /** A product is as wide as its factors together, or one bit less. */
  lemma BitsOfProduct(a: int, b: int)
    ensures Bits(a * b) <= Bits(a) + Bits(b)
    ensures a != 0 && b != 0 ==> Bits(a * b) >= Bits(a) + Bits(b) - 1
  {
    if a != 0 && b != 0 {
      var m, n := Bits(a), Bits(b);
      BitsBounds(a);
      BitsBounds(b);
      MagnitudeOfProduct(a, b);
      Pow2Add(m, n);
      Pow2Add(m - 1, n - 1);
      ProductsOrdered(Magnitude(a), Magnitude(b), Pow2(m) - 1, Pow2(n) - 1);
      StrictlyBelow(Pow2(m), Pow2(n));
      BitsAtMost(a * b, m + n);
      ProductsOrdered(Pow2(m - 1), Pow2(n - 1), Magnitude(a), Magnitude(b));
      BitsAtMost(a * b, m + n - 2);
    }
  }

  lemma StrictlyBelow(p: nat, q: nat)
    requires p > 0 && q > 0
    ensures (p - 1) * (q - 1) < p * q
  {
    assert (p - 1) * (q - 1) == p * q - p - q + 1;
  }

  /** A power of something wider than one bit lies between these widths. */
  lemma {:induction false} BitsOfPower(a: int, e: nat)
    requires Bits(a) >= 1
    ensures Bits(IntPower(a, e)) >= (Bits(a) - 1) * e + 1
    ensures e > 0 ==> Bits(IntPower(a, e)) <= Bits(a) * e
  {
    if e == 0 {
      assert Bits(1) == 1 + Bits(0);
    } else {
      BitsOfPower(a, e - 1);
      PowerStep(a, IntPower(a, e - 1), e);
    }
  }

  lemma PowerStep(a: int, p: int, e: nat)
    requires e > 0 && Bits(a) >= 1
    requires Bits(p) >= (Bits(a) - 1) * (e - 1) + 1
    requires e > 1 ==> Bits(p) <= Bits(a) * (e - 1)
    requires e == 1 ==> p == 1
    ensures Bits(a * p) >= (Bits(a) - 1) * e + 1
    ensures Bits(a * p) <= Bits(a) * e
  {
    var b := Bits(a);
    MulMonotone(b - 1, 0, e - 1);
    assert Bits(p) >= 1;
    assert p != 0 && a != 0;
    BitsOfProduct(a, p);
    if e == 1 {
      assert a * p == a;
    }
    hide Bits;
    OneMore(b, e);
    OneMore(b - 1, e);
  }

  lemma OneMore(b: nat, e: nat)
    requires e > 0
    ensures b * e == b * (e - 1) + b
  {
  }

  lemma NarrowBases(a: int)
    ensures Bits(a) == 0 <==> a == 0
    ensures Bits(a) == 1 <==> a == 1 || a == -1
  {
    if a != 0 {
      BitsBounds(a);
      if Bits(a) == 1 {
        assert Pow2(1) == 2 * Pow2(0);
      }
    }
  }

  /** The three bases whose powers never grow. */
  lemma {:induction false} NarrowPower(a: int, e: nat)
    requires Bits(a) <= 1
    ensures IntPower(a, e) ==
      if e == 0 then 1 else if a == 0 then 0 else if a == 1 then 1 else if e % 2 == 1 then -1 else 1
  {
    NarrowBases(a);
    if e > 0 {
      NarrowPower(a, e - 1);
    }
  }

  lemma {:induction false} BitsOfPow2(n: nat)
    ensures Bits(Pow2(n)) == n + 1
  {
    BitsAtMost(Pow2(n), n);
    BitsAtMost(Pow2(n), n + 1);
  }

  /** A left shift widens by exactly the count. */
  lemma BitsOfShift(a: int, n: nat)
    requires a != 0
    ensures Bits(a * Pow2(n)) == Bits(a) + n
  {
    var m := Bits(a);
    BitsBounds(a);
    MagnitudeOfProduct(a, Pow2(n));
    Pow2Add(m, n);
    Pow2Add(m - 1, n);
    assert Magnitude(a) * Pow2(n) < Pow2(m) * Pow2(n) by {
      ScaledBelow(Magnitude(a), Pow2(m), Pow2(n));
    }
    ProductsOrdered(Pow2(m - 1), Pow2(n), Magnitude(a), Pow2(n));
    BitsAtMost(a * Pow2(n), m + n);
    BitsAtMost(a * Pow2(n), m - 1 + n);
  }

  lemma ScaledBelow(a: nat, b: nat, c: nat)
    requires a < b && c > 0
    ensures a * c < b * c
  {
    assert b * c == a * c + (b - a) * c;
  }

  lemma FloorBounds(a: int, p: nat)
    requires p > 0
    ensures a >= 0 ==> 0 <= a / p <= a
    ensures a < 0 ==> a <= a / p <= -1
  {
    var q := a / p;
    DivMod(a, p);
    if a >= 0 {
      MulMonotone(q, 1, p);
    } else {
      if q >= 0 {
        MulMonotone(p, 0, q);
      }
      assert q + 1 <= 0;
      MulMonotone(p - 1, q + 1, 0);
      assert p * (q + 1) == (p - 1) * (q + 1) + (q + 1);
      assert p * (q + 1) == p * q + p;
    }
  }

  /** A right shift never widens, and past the width only the sign is left. */
  lemma RightShiftNarrows(a: int, n: nat)
    ensures Bits(a / Pow2(n)) <= Bits(a)
    ensures n >= Bits(a) ==> a / Pow2(n) == if a < 0 then -1 else 0
  {
    var q := a / Pow2(n);
    FloorBounds(a, Pow2(n));
    BitsAtMost(a, Bits(a));
    BitsAtMost(q, Bits(a));
    if n >= Bits(a) {
      BitsAtMost(a, n);
      DivModUnique(a, Pow2(n), if a < 0 then -1 else 0, if a < 0 then a + Pow2(n) else a);
    }
  }
}
