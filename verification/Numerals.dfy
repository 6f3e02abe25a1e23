/** Positional notation, least significant digit first, in any base: bytes, 32-bit limbs, decimal digits. */
module Numerals {

  ghost function Power(base: nat, n: nat): nat {
    if n == 0 then 1 else base * Power(base, n - 1)
  }

  function ValueIn(base: nat, ds: seq<int>): int {
    if ds == [] then 0 else ds[0] + base * ValueIn(base, ds[1..])
  }

  predicate InRange(base: nat, ds: seq<int>) {
    forall i | 0 <= i < |ds| :: 0 <= ds[i] < base
  }

  /** No zero in the most significant place. */
  predicate Normalized(ds: seq<int>) {
    ds != [] ==> ds[|ds| - 1] != 0
  }

  function DigitsOf(base: nat, n: nat): (ds: seq<int>)
    requires base >= 2
  {
    if n == 0 then [] else
      DivShrinks(n, base);
      [n % base] + DigitsOf(base, n / base)
  }

  lemma DivShrinks(n: nat, base: nat)
    requires n > 0 && base >= 2
    ensures 0 <= n / base < n
  {
    DivMod(n, base);
    if n / base >= n {
      MulMonotone(base, n, n / base);
      MulMonotone(n, 2, base);
      assert false;
    }
  }

  lemma DivMod(n: int, base: nat)
    requires base > 0
    ensures n == base * (n / base) + n % base && 0 <= n % base < base
    ensures n >= 0 ==> n / base >= 0
  {
  }

  lemma MulMonotone(k: nat, a: int, b: int)
    requires a <= b
    ensures k * a <= k * b
  {
  }

  lemma DivBelow(w: int, d: nat, m: nat)
    requires d > 0 && 0 <= w < d * m
    ensures 0 <= w / d < m
  {
    DivMod(w, d);
    if w / d >= m {
      MulMonotone(d, m, w / d);
    }
  }

  lemma DivModUnique(n: int, base: nat, q: int, r: int)
    requires base > 0 && n == base * q + r && 0 <= r < base
    ensures q == n / base && r == n % base
  {
    DivMod(n, base);
    if q < n / base {
      MulMonotone(base, q + 1, n / base);
    } else if q > n / base {
      MulMonotone(base, n / base + 1, q);
    }
  }

  lemma {:induction false} PowerAdd(base: nat, m: nat, n: nat)
    ensures Power(base, m + n) == Power(base, m) * Power(base, n)
  {
    if m > 0 {
      PowerAdd(base, m - 1, n);
      MulAssoc(base, Power(base, m - 1), Power(base, n));
    }
  }

  lemma MulAssoc(a: int, b: int, c: int)
    ensures a * (b * c) == (a * b) * c
  {
  }

  lemma MulDistributes(a: int, b: int, c: int)
    ensures a * (b + c) == a * b + a * c
  {
  }

  lemma {:induction false} PowerPositive(base: nat, n: nat)
    requires base > 0
    ensures Power(base, n) > 0
  {
    if n > 0 {
      PowerPositive(base, n - 1);
      MulMonotone(base, 1, Power(base, n - 1));
    }
  }

  lemma {:induction false} ValueAppend(base: nat, a: seq<int>, b: seq<int>)
    ensures ValueIn(base, a + b) == ValueIn(base, a) + Power(base, |a|) * ValueIn(base, b)
  {
    if a == [] {
      assert a + b == b;
    } else {
      assert (a + b)[1..] == a[1..] + b;
      ValueAppend(base, a[1..], b);
      MulDistributes(base, ValueIn(base, a[1..]), Power(base, |a| - 1) * ValueIn(base, b));
      MulAssoc(base, Power(base, |a| - 1), ValueIn(base, b));
    }
  }

  lemma {:induction false} ValueBound(base: nat, ds: seq<int>)
    requires InRange(base, ds)
    ensures 0 <= ValueIn(base, ds) < Power(base, |ds|)
  {
    if ds != [] {
      ValueBound(base, ds[1..]);
      MulMonotone(base, 0, ValueIn(base, ds[1..]));
      MulMonotone(base, ValueIn(base, ds[1..]) + 1, Power(base, |ds| - 1));
      MulDistributes(base, ValueIn(base, ds[1..]), 1);
    }
  }

  /** Digits read back give the number, lie in range and have no leading zero. */
  lemma {:induction false} DigitsRoundTrip(base: nat, n: nat)
    requires base >= 2
    ensures ValueIn(base, DigitsOf(base, n)) == n
    ensures InRange(base, DigitsOf(base, n))
    ensures Normalized(DigitsOf(base, n))
  {
    if n > 0 {
      DivMod(n, base);
      DivShrinks(n, base);
      DigitsRoundTrip(base, n / base);
      assert DigitsOf(base, n)[1..] == DigitsOf(base, n / base);
    }
  }

  lemma {:induction false} NormalizedPositive(base: nat, ds: seq<int>)
    requires base >= 2 && InRange(base, ds) && Normalized(ds) && ds != []
    ensures ValueIn(base, ds) > 0
  {
    if |ds| > 1 {
      NormalizedPositive(base, ds[1..]);
      MulMonotone(base, 1, ValueIn(base, ds[1..]));
    }
  }

  /** A number has exactly one spelling without leading zeros. */
  lemma {:induction false} DigitsUnique(base: nat, ds: seq<int>)
    requires base >= 2 && InRange(base, ds) && Normalized(ds)
    ensures ValueIn(base, ds) >= 0 && ds == DigitsOf(base, ValueIn(base, ds))
  {
    if ds != [] {
      NormalizedPositive(base, ds);
      ValueBound(base, ds[1..]);
      DivModUnique(ValueIn(base, ds), base, ValueIn(base, ds[1..]), ds[0]);
      DivShrinks(ValueIn(base, ds), base);
      DigitsUnique(base, ds[1..]);
      assert ds == [ds[0]] + ds[1..];
    }
  }

  /** High-order zeros do not change the value. */
  lemma {:induction false} DropLastZero(base: nat, ds: seq<int>)
    requires ds != [] && ds[|ds| - 1] == 0
    ensures ValueIn(base, ds) == ValueIn(base, ds[..|ds| - 1])
  {
    var front := ds[..|ds| - 1];
    assert ds == front + [0];
    ValueAppend(base, front, [0]);
    assert ValueIn(base, [0]) == 0;
  }

  /** Trims zeros from the most significant end, the loop `while last == 0 { pop }`. */
  method TrimZeros(ds: seq<int>, ghost base: nat) returns (r: seq<int>)
    requires base >= 2 && InRange(base, ds)
    ensures ValueIn(base, ds) >= 0
    ensures r == DigitsOf(base, ValueIn(base, ds))
  {
    r := ds;
    while r != [] && r[|r| - 1] == 0
      invariant r <= ds
      invariant ValueIn(base, r) == ValueIn(base, ds)
    {
      DropLastZero(base, r);
      r := r[..|r| - 1];
    }
    assert InRange(base, r);
    DigitsUnique(base, r);
  }
}
