/** The integer operations are exact, or refuse before building anything too wide. */
module OpsArithmetic {
  import opened Common
  import opened Numerals
  import opened PyValue
  import opened Widths
  import opened Ops

  /** A value read as this integer, and within the width the operations accept. */
  predicate Reads(v: Json, n: int) {
    AsNum(v) == Some(IntNum(n)) && Bits(n) <= MAX_INT_BITS
  }

  function Whole(n: int): OpResult {
    Ok(NumberValue(Integer(n)))
  }

  /** A sum is exact, or refused; what is refused is one bit past the bound. */
  lemma AddExact(current: Json, arg: Json, a: int, b: int, lib: Library)
    requires Reads(current, a) && Reads(arg, b)
    ensures var r := Apply(Add, current, arg, lib);
      || (r == Whole(a + b) && Bits(a + b) <= 65_536)
      || (r == Err(IntegerTooWide) && Bits(a + b) == 65_537)
  {
    hide Bits, Apply;
    AddIs(current, arg, a, b, lib);
    BitsOfSum(a, b, MAX_INT_BITS);
  }

  lemma AddIs(current: Json, arg: Json, a: int, b: int, lib: Library)
    requires Reads(current, a) && Reads(arg, b)
    ensures Apply(Add, current, arg, lib) == IntValue(a + b)
  {
    hide Bits, IntValue;
  }

  lemma MulIs(current: Json, arg: Json, a: int, b: int, lib: Library)
    requires Reads(current, a) && Reads(arg, b)
    ensures MulOf(current, arg, lib) ==
      if Bits(a) + Bits(b) > MAX_INT_BITS then Err(IntegerTooWide) else IntValue(a * b)
  {
    hide Bits, IntValue;
    assert Repeat(current, arg).None? && Repeat(arg, current).None?;
  }

  /** A product is exact, or refused; nothing under the bound is refused, and what is refused would reach the bound. */
  lemma MulExact(current: Json, arg: Json, a: int, b: int, lib: Library)
    requires Reads(current, a) && Reads(arg, b)
    ensures var r := Apply(Mul, current, arg, lib);
      || (r == Whole(a * b) && Bits(a * b) <= 65_536)
      || (r == Err(IntegerTooWide) && Bits(a * b) >= 65_536)
    ensures Apply(Mul, current, arg, lib).Ok? <==> Bits(a) + Bits(b) <= 65_536
  {
    MulIs(current, arg, a, b, lib);
    BitsOfProduct(a, b);
    assert Bits(0) == 0;
    assert a == 0 || b == 0 ==> a * b == 0;
    hide Bits, MulOf;
  }

  /** One bit is lost to the check: this product would fit exactly, and is refused. */
  lemma MulRefusesOneThatFits(k: nat, lib: Library)
    requires k < MAX_INT_BITS
    ensures var a := NumberValue(Integer(Pow2(k)));
      var b := NumberValue(Integer(Pow2(MAX_INT_BITS - 1 - k)));
      Apply(Mul, a, b, lib) == Err(IntegerTooWide) && Bits(Pow2(k) * Pow2(MAX_INT_BITS - 1 - k)) == MAX_INT_BITS
  {
    var j := MAX_INT_BITS - 1 - k;
    BitsOfPow2(k);
    BitsOfPow2(j);
    Pow2Add(k, j);
    BitsOfPow2(k + j);
    hide Pow2, Bits;
    var a := NumberValue(Integer(Pow2(k)));
    var b := NumberValue(Integer(Pow2(j)));
    assert Repeat(a, b).None? && Repeat(b, a).None?;
  }

  /**
   * A power with a non-negative exponent is exact, or refused; what is refused is more than half as wide as the bound.
   */
  lemma PowExact(current: Json, arg: Json, a: int, e: nat, lib: Library)
    requires Reads(current, a) && Reads(arg, e)
    ensures var r := Apply(Pow, current, arg, lib);
      || (r == Whole(IntPower(a, e)) && Bits(IntPower(a, e)) <= 65_536)
      || (r == Err(IntegerTooWide) && 2 * Bits(IntPower(a, e)) > 65_536)
    ensures Apply(Pow, current, arg, lib).Ok? <==> Bits(a) <= 1 || Bits(a) * e <= 65_536
  {
    hide Apply, IntPower, Bits, IntPow;
    PowIs(current, arg, a, e, lib);
    if Bits(a) <= 1 {
      NarrowPowExact(a, e);
    } else {
      WidePowExact(a, e);
    }
  }

  lemma NarrowPowExact(a: int, e: nat)
    requires Bits(a) <= 1
    ensures IntPow(a, e) == Whole(IntPower(a, e)) && Bits(IntPower(a, e)) <= 1
  {
    NarrowWidths();
    NarrowPower(a, e);
    NarrowBases(a);
    hide IntPower, Bits;
  }

  lemma WidePowExact(a: int, e: nat)
    requires Bits(a) >= 2
    ensures Bits(a) * e <= 65_536 ==> IntPow(a, e) == Whole(IntPower(a, e)) && Bits(IntPower(a, e)) <= 65_536
    ensures Bits(a) * e > 65_536 ==> IntPow(a, e) == Err(IntegerTooWide) && 2 * Bits(IntPower(a, e)) > 65_536
  {
    hide IntPower, Bits;
    BitsOfPower(a, e);
    WideEnough(Bits(a), e);
    if e == 0 {
      NothingPower(a);
    } else if e >= U32_LIMIT {
      MulMonotone(e, 1, Bits(a));
    }
  }

  lemma NothingPower(a: int)
    ensures IntPower(a, 0) == 1 && Bits(1) == 1 && Bits(a) * 0 == 0
  {
    NarrowWidths();
  }

  lemma PowIs(current: Json, arg: Json, a: int, e: nat, lib: Library)
    requires Reads(current, a) && Reads(arg, e)
    ensures Apply(Pow, current, arg, lib) == IntPow(a, e)
  {
    hide Bits, IntPow;
  }

  lemma NarrowWidths()
    ensures Bits(0) == 0 && Bits(1) == 1 && Bits(-1) == 1
  {
    assert Bits(1) == 1 + Bits(0);
    assert Bits(-1) == 1 + Bits(0);
  }

  lemma WideEnough(b: nat, e: nat)
    requires b >= 2
    ensures 2 * ((b - 1) * e) >= b * e
  {
    MulMonotone(e, b, 2 * (b - 1));
  }

  /** A left shift of anything but zero is refused exactly when the answer itself would be too wide. */
  lemma LeftShiftExact(current: Json, arg: Json, a: int, n: nat, lib: Library)
    requires Reads(current, a) && Reads(arg, n) && a != 0
    ensures Apply(LeftShift, current, arg, lib)
         == if Bits(a * Pow2(n)) <= 65_536 then Whole(a * Pow2(n)) else Err(IntegerTooWide)
  {
    hide Bits, Pow2;
    BitsOfShift(a, n);
    var y := AsNum(arg).value.i;
    assert y == n && a * Pow2(y) == a * Pow2(n);
    assert n >= U64_LIMIT ==> Bits(a) + n > MAX_INT_BITS;
  }

  /** Zero shifted by more than the bound is refused although the answer is zero, and by no less. */
  lemma LeftShiftOfZero(current: Json, arg: Json, n: nat, lib: Library)
    requires Reads(current, 0) && Reads(arg, n)
    ensures Apply(LeftShift, current, arg, lib)
         == if n > 65_536 then Err(IntegerTooWide) else Whole(0 * Pow2(n))
    ensures Bits(0 * Pow2(n)) == 0
  {
    assert Bits(0) == 0;
    assert 0 * Pow2(n) == 0;
    hide Pow2;
  }

  /** A right shift is the floored quotient, whatever the count. */
  lemma RightShiftExact(current: Json, arg: Json, a: int, n: nat, lib: Library)
    requires Reads(current, a) && Reads(arg, n)
    ensures Apply(RightShift, current, arg, lib) == Whole(a / Pow2(n))
  {
    RightShiftNarrows(a, n);
    NarrowWidths();
    hide Pow2, Bits;
  }

  lemma NegativeShift(current: Json, arg: Json, a: int, n: int, left: bool, lib: Library)
    requires Reads(current, a) && Reads(arg, n)
    ensures Apply(if left then LeftShift else RightShift, current, arg, lib) == Err(ValueError) <==> n < 0
  {
    hide Pow2, Bits;
  }

  lemma MagnitudeNarrows(m: int, b: int)
    requires Magnitude(m) <= Magnitude(b)
    ensures Bits(m) <= Bits(b)
  {
    BitsAtMost(b, Bits(b));
    BitsAtMost(m, Bits(b));
  }

  /** The floored remainder, never refused for width; by zero is the only failure. */
  lemma ModExact(current: Json, arg: Json, a: int, b: int, lib: Library)
    requires Reads(current, a) && Reads(arg, b)
    ensures Apply(Mod, current, arg, lib) == Err(ZeroDivisionError) <==> b == 0
    ensures b != 0 ==> exists m :: Apply(Mod, current, arg, lib) == Whole(m) && IsFlooredRemainder(a, b, m)
  {
    hide Apply, Bits, FloorMod;
    ModIs(current, arg, a, b, lib);
    ByZero(a);
    if b != 0 {
      var m := RemainderFits(a, b);
      assert IsFlooredRemainder(a, b, m);
    }
  }

  lemma ModIs(current: Json, arg: Json, a: int, b: int, lib: Library)
    requires Reads(current, a) && Reads(arg, b)
    ensures var m := FloorMod(a, b);
      Apply(Mod, current, arg, lib) == if m.None? then Err(ZeroDivisionError) else IntValue(m.value)
  {
    hide Bits, IntValue, FloorMod;
  }

  lemma ByZero(a: int)
    ensures FloorMod(a, 0) == None
  {
  }

  lemma RemainderFits(a: int, b: int) returns (m: int)
    requires b != 0 && Bits(b) <= 65_536
    ensures FloorMod(a, b) == Some(m) && IsFlooredRemainder(a, b, m) && Bits(m) <= 65_536
  {
    FloorModIsFloored(a, b);
    m := FloorMod(a, b).value;
    hide FloorMod, Bits;
    MagnitudeNarrows(m, b);
  }

  predicate IsFlooredRemainder(a: int, b: int, m: int)
    requires b != 0
  {
    (a - m) % b == 0 && (if b > 0 then 0 <= m < b else b < m <= 0)
  }

  /** The integer `floor` or `ceil` of a number. */
  predicate IsRounded(x: real, up: bool, n: int) {
    if up then n as real - 1.0 < x <= n as real else n as real <= x < n as real + 1.0
  }

  /**
   * `floor` of a double is the greatest integer not above it, exactly, and `ceil` the least not below; refused exactly
   * when too wide.
   */
  lemma RoundExact(current: Json, arg: Json, x: real, up: bool, n: int, lib: Library)
    requires AsNum(current) == Some(FloatNum(Fin(x))) && IsRounded(x, up, n)
    ensures Apply(if up then Ceil else Floor, current, arg, lib)
         == if Bits(n) <= 65_536 then Whole(n) else Err(IntegerTooWide)
  {
    hide Bits;
    if up {
      FloorIs(-x, -n);
    } else {
      FloorIs(x, n);
    }
  }

  lemma FloorIs(x: real, n: int)
    requires n as real <= x < n as real + 1.0
    ensures x.Floor == n
  {
    var f := x.Floor;
    assert f as real <= x < f as real + 1.0;
    assert (n as real) < (f + 1) as real && (f as real) < (n + 1) as real;
  }

  /** Every number has one rounding each way, so the lemma above speaks of every double. */
  lemma RoundingExists(x: real, up: bool)
    ensures exists n :: IsRounded(x, up, n)
  {
    if up {
      assert IsRounded(x, up, -((-x).Floor));
    } else {
      assert IsRounded(x, up, x.Floor);
    }
  }

  /** Rounding a whole number leaves it, whatever the argument; what is no number is refused. */
  lemma RoundOthers(current: Json, arg: Json, up: bool, lib: Library)
    ensures var r, x := Apply(if up then Ceil else Floor, current, arg, lib), AsNum(current);
      && (x.None? ==> r == Err(TypeError))
      && (x.Some? && x.value.IntNum? ==>
            r == if Bits(x.value.i) <= 65_536 then Whole(x.value.i) else Err(IntegerTooWide))
  {
    hide Bits;
  }

  predicate Numeric(op: Op) {
    op.Add? || op.Mul? || op.Pow? || op.Mod? || op.Xor? || op.And? || op.Or? || op.LeftShift? || op.RightShift?
  }

  predicate NoSequence(v: Json) {
    !v.StringValue? && !v.ArrayValue? && !v.ObjectValue?
  }

  /** Numeric operations on scalars: one that is no number is a type error, one too wide is refused before anything. */
  lemma ScalarsChecked(op: Op, current: Json, arg: Json, lib: Library)
    requires Numeric(op) && NoSequence(current) && NoSequence(arg)
    ensures AsNum(current).None? || AsNum(arg).None? ==> Apply(op, current, arg, lib) == Err(TypeError)
    ensures AsNum(current).Some? && AsNum(arg).Some? && (TooWide(AsNum(current).value) || TooWide(AsNum(arg).value)) ==>
      Apply(op, current, arg, lib) == Err(IntegerTooWide)
  {
    NarrowWidths();
    hide Bits;
  }

  /** Bitwise operations: truth values give a truth value, whole numbers a whole number. */
  lemma BitwiseExact(op: Op, current: Json, arg: Json, a: int, b: int, lib: Library)
    requires (op.Xor? || op.Or? || op.And?) && Reads(current, a) && Reads(arg, b)
    ensures current.BoolValue? && arg.BoolValue? ==>
      Apply(op, current, arg, lib) == Ok(BoolValue(lib.bit(op, a, b) != 0))
    ensures !(current.BoolValue? && arg.BoolValue?) ==>
      Apply(op, current, arg, lib)
      == if Bits(lib.bit(op, a, b)) <= 65_536 then Whole(lib.bit(op, a, b)) else Err(IntegerTooWide)
  {
    hide Bits;
  }

  /** Numbers that are not both whole, and negative powers, go to double arithmetic under the operation's own name. */
  lemma DoublesGoToLibrary(op: Op, current: Json, arg: Json, x: PyNum, y: PyNum, lib: Library)
    requires (op.Add? || op.Mul? || op.Pow? || op.Mod?) && AsNum(current) == Some(x) && AsNum(arg) == Some(y)
    requires (x.IntNum? && y.IntNum? ==> op.Pow? && y.i < 0) && !TooWide(x) && !TooWide(y)
    ensures Apply(op, current, arg, lib) == lib.float(op, x, y)
  {
    hide Bits;
  }
}
