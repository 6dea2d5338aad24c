/** Python's number operators on exact integers and reals, and how the engine's kernels reach the same
    values: floor quotient, divisor-signed remainder, power, and comparison in a column's own type. */
module PythonNumbers {
  import opened Exprs

  /** Python's `//` on integers: the quotient rounded toward minus infinity. */
  function FloorDiv(a: int, b: int): int
    requires b != 0
  { if b > 0 then a / b else (-a) / (-b) }

  /** Python's `%` on integers. */
  function FloorMod(a: int, b: int): int
    requires b != 0
  { a - FloorDiv(a, b) * b }

  /** The defining property of the two: a = q*b + r with r between 0 and b, on b's side. */
  lemma FloorDivMod(a: int, b: int)
    requires b != 0
    ensures a == FloorDiv(a, b) * b + FloorMod(a, b)
    ensures b > 0 ==> 0 <= FloorMod(a, b) < b
    ensures b < 0 ==> b < FloorMod(a, b) <= 0
  {
    if b > 0 {
      assert a == (a / b) * b + a % b;
    } else {
      assert -a == ((-a) / (-b)) * (-b) + (-a) % (-b);
    }
  }

  lemma ScaleLe(a: real, b: real, y: real)
    requires a <= b && y >= 0.0
    ensures a * y <= b * y
  {
  }

  lemma ScaleLt(a: real, b: real, y: real)
    requires a < b && y > 0.0
    ensures a * y < b * y
  {
  }

  lemma OneMore(r: real, y: real)
    ensures (r + 1.0) * y == r * y + y
  {
  }

  lemma QuotientAbove(d: real, r: real, y: real)
    requires y > 0.0 && r * y <= d * y
    ensures r <= d
  {
    if d < r { ScaleLt(d, r, y); }
  }

  lemma QuotientBelow(d: real, r: real, y: real)
    requires y > 0.0 && d * y < r * y
    ensures d < r
  {
    if r <= d { ScaleLe(r, d, y); }
  }

  /** The floor of a quotient `d`, by where its product with the divisor lies. */
  lemma FloorAt(x: real, y: real, q: int, d: real)
    requires y > 0.0 && d * y == x && q as real * y <= x < q as real * y + y
    ensures d.Floor == q
  {
    var r := q as real;
    OneMore(r, y);
    QuotientAbove(d, r, y);
    QuotientBelow(d, r + 1.0, y);
  }

  lemma TimesDivisor(x: real, y: real)
    requires y != 0.0
    ensures (x / y) * y == x
  {
  }

  lemma RealQuotient(x: real, y: real, q: int)
    requires y > 0.0
    requires q as real * y <= x < q as real * y + y
    ensures (x / y).Floor == q
  {
    TimesDivisor(x, y);
    FloorAt(x, y, q, x / y);
  }

  lemma IntTimesReal(q: int, b: int)
    ensures (q * b) as real == q as real * b as real
  {
  }

  lemma NegQuotient(x: real, y: real)
    requires y != 0.0
    ensures (-x) / (-y) == x / y
  {
    var d := x / y;
    assert d * y == x;
    assert d * (-y) == -x;
  }

  /** The floor the engine takes of a Float64 quotient of two integers is Python's integer quotient. */
  lemma FloorOfQuotient(a: int, b: int)
    requires b != 0
    ensures (a as real / b as real).Floor == FloorDiv(a, b)
  {
    FloorDivMod(a, b);
    var q := FloorDiv(a, b);
    IntTimesReal(q, b);
    if b > 0 {
      RealQuotient(a as real, b as real, q);
    } else {
      RealQuotient(-(a as real), -(b as real), q);
      NegQuotient(a as real, b as real);
    }
  }

  /** Python's `%` on reals: the engine's own formula, since Python defines it by the floor. */
  function RealMod(x: real, y: real): real
    requires y != 0.0
  { x - (x / y).Floor as real * y }

  lemma RealModOfInts(a: int, b: int)
    requires b != 0
    ensures RealMod(a as real, b as real) == FloorMod(a, b) as real
  {
    FloorOfQuotient(a, b);
    IntTimesReal(FloorDiv(a, b), b);
  }

  /** Python's remainder on reals, as its documentation states it: same sign as the divisor. */
  lemma RealModBounds(x: real, y: real)
    requires y != 0.0
    ensures y > 0.0 ==> 0.0 <= RealMod(x, y) < y
    ensures y < 0.0 ==> y < RealMod(x, y) <= 0.0
  {
    RealModAt(x, y, x / y);
  }

  lemma RealModAt(x: real, y: real, d: real)
    requires y != 0.0 && d * y == x
    ensures y > 0.0 ==> 0.0 <= x - d.Floor as real * y < y
    ensures y < 0.0 ==> y < x - d.Floor as real * y <= 0.0
  {
    var q := d.Floor as real;
    var f := d - q;
    assert 0.0 <= f < 1.0;
    assert x - q * y == f * y;
    if y > 0.0 {
      ScaleLt(f, 1.0, y);
    } else {
      ScaleLt(f, 1.0, -y);
      assert f * (-y) == -(f * y);
    }
  }

  function IntPow(b: int, n: nat): int { if n == 0 then 1 else IntPow(b, n - 1) * b }
  function RealPow(b: real, n: nat): real { if n == 0 then 1.0 else RealPow(b, n - 1) * b }

  lemma {:induction false} RealPowOfInt(b: int, n: nat)
    ensures RealPow(b as real, n) == IntPow(b, n) as real
  {
    if n > 0 {
      RealPowOfInt(b, n - 1);
      IntTimesReal(IntPow(b, n - 1), b);
    }
  }

  // ---- comparing an integer column with a float constant -------------------------

  /** When truncating the constant does not change the comparison of any integer with it. */
  predicate CmpExact(op: CmpOp, c: Const) {
    match c
    case CF(r) =>
      || r == r.Floor as real
      || ((op == Gt || op == Le) && r > 0.0)
      || ((op == Lt || op == Ge) && r < 0.0)
    case _ => true
  }

  /** Whether the comparison kernel on an integer column answers as Python does on the integer `n`. */
  predicate CompareAgrees(op: CmpOp, r: real, n: int) {
    CmpReal(op, n as real, Truncate(r) as real) == CmpReal(op, n as real, r)
  }

  /** The kernel agrees with Python on every integer exactly when the constant is integral, or the
      rounding is on the harmless side of the operator. */
  lemma {:induction false} IntCompareExact(op: CmpOp, r: real)
    ensures (forall n: int :: CompareAgrees(op, r, n)) <==> CmpExact(op, CF(r))
  {
    if CmpExact(op, CF(r)) {
      forall n: int ensures CompareAgrees(op, r, n) {
        IntCompareAt(op, r, n);
      }
    } else {
      assert !CompareAgrees(op, r, Truncate(r));
    }
  }

  lemma TruncateBounds(r: real)
    ensures r >= 0.0 ==> Truncate(r) as real <= r < (Truncate(r) + 1) as real
    ensures r < 0.0 ==> (Truncate(r) - 1) as real < r <= Truncate(r) as real
    ensures r == r.Floor as real ==> Truncate(r) == r.Floor
  {
    if r < 0.0 {
      var s := (-r).Floor;
      assert s as real <= -r < s as real + 1.0;
    }
  }

  lemma {:induction false} IntCompareAt(op: CmpOp, r: real, n: int)
    requires CmpExact(op, CF(r))
    ensures CompareAgrees(op, r, n)
  {
    TruncateBounds(r);
    var t := Truncate(r);
    if r == r.Floor as real {
      assert t as real == r;
    } else if r >= 0.0 {
      assert n as real <= r <==> n <= t;
    } else {
      assert n as real >= r <==> n >= t;
    }
  }
}
