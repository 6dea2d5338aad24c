/** When an engine cell stands for a Python value, and that each kernel keeps it so. */
module Agreement {
  import opened Options
  import opened Text
  import opened Exprs
  import opened PythonNumbers
  import opened PythonSubset
  import opened Transpiler

  /** Python's `==`: numbers by value (a Bool column is 0 / 1), strings by content, None for a null. */
  predicate Same(w: PVal, v: Val) {
    match v
    case VI(_) => IsNumber(w) && Number(w) == NumOf(v)
    case VF(_) => IsNumber(w) && Number(w) == NumOf(v)
    case VB(_) => IsNumber(w) && Number(w) == NumOf(v)
    case VS(s) => w == PStr(s)
    case VNull(_, _) => w == PNone
    case Fault => false
  }

  /** The same by the Python value: None is a null and nothing else, a string itself, a number any cell worth as much. */
  lemma SameMeans(w: PVal, v: Val)
    ensures w.PNone? ==> (Same(w, v) <==> v.VNull?)
    ensures w.PStr? ==> (Same(w, v) <==> v == VS(w.s))
    ensures w.PInt? ==>
              (Same(w, v) <==> v == VI(w.n) || v == VF(w.n as real) || (v == VB(true) && w.n == 1) || (v == VB(false) && w.n == 0))
    ensures w.PFloat? ==>
              (Same(w, v) <==> v == VF(w.r) || (v.VI? && v.i as real == w.r) || (v == VB(true) && w.r == 1.0) || (v == VB(false) && w.r == 0.0))
    ensures w.PBool? ==> (Same(w, v) <==> Same(PInt(if w.b then 1 else 0), v))
  {
  }

  predicate NumIs(v: Val, r: real) { IsNum(v) && NumOf(v) == r }

  /** The integer a scalar Int64 tree folds to. */
  function ScalarInt(e: Expr): int {
    match e
    case Lit(CI(n)) => n
    case Lit(CS(s)) => if IntText(s).Some? then IntText(s).value else 0
    case Bin(Arith(o), l, r) => IntArith(o, ScalarInt(l), ScalarInt(r))
    case _ => 0
  }

  /** A scalar arm beside a Bool column arm keeps its value only if it is 0 or 1. */
  predicate ArmFits(s: Option<Ty>, e: Expr, t: Option<Ty>) {
    s == Some(Ty(true, TI)) && t == Some(Ty(false, TB)) ==> ScalarInt(e) == 0 || ScalarInt(e) == 1
  }

  /** The places where a kernel's column type changes a value: a float constant against an integer
      column, a number broadcast into a Bool column, a string literal taken as the number it reads as, and a
      replacement of the empty string. */
  predicate Exact(e: Expr, sch: Schema) {
    match e
    case Lit(c) => !c.CS?
    case Un(op, arg) =>
      && Exact(arg, sch)
      && (op.Cmp? && TypeOf(arg, sch) == Some(Ty(false, TI)) ==> CmpExact(op.cmp, op.rhs))
      && (op.StrReplace? ==> op.what != "" || op.by_ == "")
    case Bin(_, l, r) => Exact(l, sch) && Exact(r, sch)
    case Select(c, a, b) =>
      && Exact(c, sch) && Exact(a, sch) && Exact(b, sch)
      && ArmFits(TypeOf(a, sch), a, TypeOf(b, sch)) && ArmFits(TypeOf(b, sch), b, TypeOf(a, sch))
    case _ => true
  }

  /** None of those: no string literal, no float constant compared, no empty pattern, and no constant arm. */
  predicate Ordinary(e: Expr) {
    match e
    case Lit(c) => !c.CS?
    case Un(op, arg) => Ordinary(arg) && !(op.Cmp? && op.rhs.CF?) && !(op.StrReplace? && op.what == "")
    case Bin(_, l, r) => Ordinary(l) && Ordinary(r)
    case Select(c, a, b) => Ordinary(c) && Ordinary(a) && Ordinary(b) && !IsScalar(a) && !IsScalar(b)
    case _ => true
  }

  lemma {:induction false} ScalarTyped(e: Expr, sch: Schema)
    requires TypeOf(e, sch).Some?
    ensures TypeOf(e, sch).value.scalar <==> IsScalar(e)
  {
    match e
    case Bin(_, l, r) =>
      ScalarTyped(l, sch);
      ScalarTyped(r, sch);
    case _ =>
  }

  lemma {:induction false} OrdinaryExact(e: Expr, sch: Schema)
    requires Ordinary(e)
    ensures Exact(e, sch)
  {
    match e
    case Un(_, arg) => OrdinaryExact(arg, sch);
    case Bin(_, l, r) =>
      OrdinaryExact(l, sch);
      OrdinaryExact(r, sch);
    case Select(c, a, b) =>
      OrdinaryExact(c, sch);
      OrdinaryExact(a, sch);
      OrdinaryExact(b, sch);
      if TypeOf(a, sch).Some? { ScalarTyped(a, sch); }
      if TypeOf(b, sch).Some? { ScalarTyped(b, sch); }
    case _ =>
  }

  /** The engine accepts the expression and no kernel type changes a value in it. */
  predicate Good(e: Expr, sch: Schema) { TypeOf(e, sch).Some? && Exact(e, sch) }

  lemma GoodParts(e: Expr, sch: Schema)
    requires Good(e, sch)
    ensures e.Un? ==> Good(e.arg, sch)
    ensures e.Bin? ==> Good(e.left, sch) && Good(e.right, sch)
    ensures e.Select? ==> Good(e.cond, sch) && Good(e.a, sch) && Good(e.b, sch)
  {
  }

  /** On this row every string whose case is mapped, or whose ends are stripped, is one the engine and Python treat
      alike; only what decides the value counts. */
  predicate Alike(K: Kernels, e: Expr, row: Row) {
    match e
    case Un(op, arg) =>
      && Alike(K, arg, row)
      && (op.StrMap? && Eval(K, arg, row).VS? ==> SameText(K.cases, op.map1, Eval(K, arg, row).s))
    case Bin(Arith(_), l, r) => Alike(K, l, row) && Alike(K, r, row)
    case Bin(Logical(o), l, r) => Alike(K, l, row) && (Eval(K, l, row) == VB(o == Or) || Alike(K, r, row))
    case Select(c, a, b) => Alike(K, c, row) && if Eval(K, c, row) == VB(true) then Alike(K, a, row) else Alike(K, b, row)
    case _ => true
  }

  predicate MapsText(e: Expr) {
    match e
    case Un(op, arg) => op.StrMap? || MapsText(arg)
    case Bin(_, l, r) => MapsText(l) || MapsText(r)
    case Select(c, a, b) => MapsText(c) || MapsText(a) || MapsText(b)
    case _ => false
  }

  /** An expression that maps no case and strips nothing treats every row alike. */
  lemma {:induction false} TextlessAlike(K: Kernels, e: Expr, row: Row)
    requires !MapsText(e)
    ensures Alike(K, e, row)
  {
    match e
    case Un(_, arg) => TextlessAlike(K, arg, row);
    case Bin(_, l, r) =>
      TextlessAlike(K, l, row);
      TextlessAlike(K, r, row);
    case Select(c, a, b) =>
      TextlessAlike(K, c, row);
      TextlessAlike(K, a, row);
      TextlessAlike(K, b, row);
    case _ =>
  }

  /** Accepted, exact, and over text both sides treat alike. */
  predicate Fits(K: Kernels, e: Expr, row: Row, sch: Schema) { Good(e, sch) && Alike(K, e, row) }

  lemma FitsParts(K: Kernels, e: Expr, row: Row, sch: Schema)
    requires Fits(K, e, row, sch)
    ensures e.Un? ==> Fits(K, e.arg, row, sch)
    ensures e.Bin? ==> Good(e.left, sch) && Good(e.right, sch) && Fits(K, e.left, row, sch)
    ensures e.Bin? && e.bop.Arith? ==> Fits(K, e.right, row, sch)
    ensures e.Bin? && e.bop.Logical? && Eval(K, e.left, row) != VB(e.bop.logical == Or) ==> Fits(K, e.right, row, sch)
    ensures e.Select? ==> Good(e.a, sch) && Good(e.b, sch) && Fits(K, e.cond, row, sch)
    ensures e.Select? ==> if Eval(K, e.cond, row) == VB(true) then Fits(K, e.a, row, sch) else Fits(K, e.b, row, sch)
  {
    GoodParts(e, sch);
  }

  /** A Python cell and the engine cell it is read from. */
  predicate Cell(w: PVal, v: Val) {
    match w
    case PInt(n) => v == VI(n)
    case PFloat(r) => v == VF(r)
    case PBool(b) => v == VB(b)
    case PStr(s) => v == VS(s)
    case PNone => v.VNull?
  }

  lemma CellSame(w: PVal, v: Val)
    requires Cell(w, v)
    ensures Same(w, v)
  {
  }

  // ---- arithmetic -------------------------------------------------------------------

  function RealOp(op: ArithOp, x: real, y: real): real
    requires op == Div ==> y != 0.0
  {
    match op
    case Add => x + y
    case Sub => x - y
    case Mul => x * y
    case Div => x / y
  }

  lemma WholeNum(K: Kernels, op: ArithOp, a: Val, b: Val)
    requires (a.VI? || a.VB?) && (b.VI? || b.VB?) && op != Div
    ensures NumIs(ArithVal(K, op, a, b), RealOp(op, NumOf(a), NumOf(b)))
  {
    var v := ArithVal(K, op, a, b);
    assert v == VI(IntArith(op, IntOf(a), IntOf(b)));
    WholeOp(op, IntOf(a), IntOf(b));
    assert NumOf(a) == IntOf(a) as real && NumOf(b) == IntOf(b) as real;
  }

  lemma WholeOp(op: ArithOp, x: int, y: int)
    requires op != Div
    ensures IntArith(op, x, y) as real == RealOp(op, x as real, y as real)
  {
    IntTimesReal(x, y);
  }

  lemma FloatNum(K: Kernels, op: ArithOp, a: Val, b: Val)
    requires IsNum(a) && IsNum(b) && (a.VF? || b.VF? || op == Div) && (op == Div ==> NumOf(b) != 0.0)
    ensures NumIs(ArithVal(K, op, a, b), RealOp(op, NumOf(a), NumOf(b)))
  {
  }

  lemma ArithNum(K: Kernels, op: ArithOp, a: Val, x: real, b: Val, y: real)
    requires NumIs(a, x) && NumIs(b, y) && (op == Div ==> y != 0.0)
    ensures NumIs(ArithVal(K, op, a, b), RealOp(op, x, y))
  {
    hide ArithVal, RealOp;
    if a.VF? || b.VF? || op == Div { FloatNum(K, op, a, b); } else { WholeNum(K, op, a, b); }
  }

  lemma FloorNum(K: Kernels, v: Val, x: real)
    requires NumIs(v, x) && !v.VB?
    ensures NumIs(UnVal(K, Unary(Floor), v), x.Floor as real)
  {
  }

  lemma {:induction false} CastNum(K: Kernels, v: Val, x: real)
    requires NumIs(v, x)
    ensures NumIs(UnVal(K, Cast(TI), v), Truncate(x) as real)
    ensures x == x.Floor as real ==> NumIs(UnVal(K, Cast(TI), v), x)
    ensures NumIs(UnVal(K, Cast(TF), v), x)
  {
    TruncateBounds(x);
  }

  lemma BinNum(K: Kernels, op: ArithOp, l: Expr, x: real, r: Expr, y: real, row: Row)
    requires NumIs(Eval(K, l, row), x) && NumIs(Eval(K, r, row), y) && (op == Div ==> y != 0.0)
    ensures NumIs(Eval(K, Bin(Arith(op), l, r), row), RealOp(op, x, y))
  {
    ArithNum(K, op, Eval(K, l, row), x, Eval(K, r, row), y);
  }

  lemma {:induction false} PowerNum(K: Kernels, t: Expr, n: nat, row: Row, x: real)
    requires n >= 1 && NumIs(Eval(K, t, row), x)
    ensures NumIs(Eval(K, Power(t, n), row), RealPow(x, n))
  {
    hide Eval, NumIs, RealOp;
    if n == 1 {
      PowOne(x);
    } else {
      PowerNum(K, t, n - 1, row, x);
      BinNum(K, Mul, Power(t, n - 1), RealPow(x, n - 1), t, x, row);
      PowNext(x, n);
    }
  }

  lemma PowOne(x: real)
    ensures RealPow(x, 1) == x
  {
    assert RealPow(x, 0) == 1.0;
  }

  lemma PowNext(x: real, n: nat)
    requires n > 1
    ensures RealPow(x, n) == RealOp(Mul, RealPow(x, n - 1), x)
  {
  }

  /** The real number Python's operator stands for, ints and floats alike. */
  function Formula(op: PyBinOp, x: real, y: real): real
    requires op == OpDiv || op == OpFloorDiv || op == OpMod ==> y != 0.0
  {
    match op
    case OpAdd => x + y
    case OpSub => x - y
    case OpMul => x * y
    case OpDiv => x / y
    case OpFloorDiv => (x / y).Floor as real
    case OpMod => RealMod(x, y)
    case _ => 0.0
  }

  lemma IntFormula(op: PyBinOp, x: int, y: int)
    requires op != OpPow && PyIntBin(op, x, y).Some?
    ensures op == OpDiv || op == OpFloorDiv || op == OpMod ==> y != 0
    ensures IsNumber(PyIntBin(op, x, y).value)
    ensures Number(PyIntBin(op, x, y).value) == Formula(op, x as real, y as real)
  {
    match op
    case OpAdd =>
    case OpSub =>
    case OpMul => IntTimesReal(x, y);
    case OpDiv =>
    case OpFloorDiv => FloorOfQuotient(x, y);
    case OpMod => RealModOfInts(x, y);
  }

  lemma {:induction false} PyBinNumber(K: Kernels, op: PyBinOp, a: PVal, b: PVal)
    requires op != OpPow && PyBin(K, op, a, b).Some?
    ensures op != OpOther && IsNumber(a) && IsNumber(b) && IsNumber(PyBin(K, op, a, b).value)
    ensures op == OpDiv || op == OpFloorDiv || op == OpMod ==> Number(b) != 0.0
    ensures Number(PyBin(K, op, a, b).value) == Formula(op, Number(a), Number(b))
  {
    if IsWhole(a) && IsWhole(b) { IntFormula(op, Whole(a), Whole(b)); }
  }

  lemma PyBinIntLike(K: Kernels, op: PyBinOp, a: PVal, b: PVal)
    requires PyBin(K, op, a, b).Some? && op != OpDiv && op != OpPow
    requires a.PInt? && b.PInt?
    ensures PyBin(K, op, a, b).value.PInt?
  {
  }

  // ---- operands -----------------------------------------------------------------------

  ghost predicate Holds(K: Kernels, w: PVal, e: Expr, row: Row, sch: Schema) {
    Fits(K, e, row, sch) ==> Same(w, Eval(K, e, row))
  }

  ghost predicate OperandHolds(K: Kernels, w: PVal, o: Operand, row: Row, sch: Schema) {
    match o
    case NoOperand => false
    case Scalar(c, _) => w == NumConst(c)
    case Tree(t, _) => Holds(K, w, t, row, sch)
  }

  lemma OperandTree(K: Kernels, w: PVal, o: Operand, row: Row, sch: Schema)
    requires OperandHolds(K, w, o, row, sch)
    ensures Holds(K, w, LitOrTree(o), row, sch)
  {
  }

  /** An accepted arithmetic tree on two operands computes the real operation. */
  lemma {:induction false} ArithHolds(K: Kernels, op: ArithOp, l: Operand, r: Operand, a: PVal, b: PVal, row: Row, sch: Schema)
    requires RowFits(row, sch)
    requires ArithTree(op, l, r).Some? && Fits(K, ArithTree(op, l, r).value, row, sch)
    requires OperandHolds(K, a, l, row, sch) && OperandHolds(K, b, r, row, sch)
    requires IsNumber(a) && IsNumber(b) && (op == Div ==> Number(b) != 0.0)
    ensures NumIs(Eval(K, ArithTree(op, l, r).value, row), RealOp(op, Number(a), Number(b)))
    ensures !Eval(K, ArithTree(op, l, r).value, row).VB?
  {
    var x, y := LitOrTree(l), LitOrTree(r);
    assert ArithTree(op, l, r).value == Bin(Arith(op), x, y);
    OperandTree(K, a, l, row, sch);
    OperandTree(K, b, r, row, sch);
    ArithNum(K, op, Eval(K, x, row), Number(a), Eval(K, y, row), Number(b));
  }

  lemma FloorHolds(K: Kernels, l: Operand, r: Operand, a: PVal, b: PVal, row: Row, sch: Schema)
    requires RowFits(row, sch)
    requires FloorTree(l, r).Some? && Fits(K, FloorTree(l, r).value, row, sch)
    requires OperandHolds(K, a, l, row, sch) && OperandHolds(K, b, r, row, sch)
    requires IsNumber(a) && IsNumber(b) && Number(b) != 0.0
    ensures NumIs(Eval(K, FloorTree(l, r).value, row), (Number(a) / Number(b)).Floor as real)
  {
    ArithHolds(K, Div, l, r, a, b, row, sch);
    FloorNum(K, Eval(K, ArithTree(Div, l, r).value, row), Number(a) / Number(b));
  }

  lemma ModHolds(K: Kernels, l: Operand, r: Operand, a: PVal, b: PVal, row: Row, sch: Schema)
    requires RowFits(row, sch)
    requires ModTree(l, r).Some? && Fits(K, ModTree(l, r).value, row, sch)
    requires OperandHolds(K, a, l, row, sch) && OperandHolds(K, b, r, row, sch)
    requires IsNumber(a) && IsNumber(b) && Number(b) != 0.0
    ensures NumIs(Eval(K, ModTree(l, r).value, row), RealMod(Number(a), Number(b)))
  {
    var q := FloorTree(l, r).value;
    var p := ArithTree(Mul, Tree(q, true), r).value;
    FitsParts(K, ModTree(l, r).value, row, sch);
    FitsParts(K, p, row, sch);
    FloorHolds(K, l, r, a, b, row, sch);
    ModStep(K, l, r, q, p, (Number(a) / Number(b)).Floor as real, a, b, row, sch);
    ModFormula(Number(a), Number(b));
  }

  lemma ModFormula(x: real, y: real)
    requires y != 0.0
    ensures RealOp(Sub, x, RealOp(Mul, (x / y).Floor as real, y)) == RealMod(x, y)
  {
  }

  lemma {:induction false} ModStep(K: Kernels, l: Operand, r: Operand, q: Expr, p: Expr, w: real, a: PVal, b: PVal, row: Row, sch: Schema)
    requires RowFits(row, sch)
    requires ArithTree(Mul, Tree(q, true), r) == Some(p)
    requires ArithTree(Sub, l, Tree(p, true)).Some? && Fits(K, ArithTree(Sub, l, Tree(p, true)).value, row, sch)
    requires Fits(K, p, row, sch) && Fits(K, q, row, sch)
    requires OperandHolds(K, a, l, row, sch) && OperandHolds(K, b, r, row, sch)
    requires IsNumber(a) && IsNumber(b) && NumIs(Eval(K, q, row), w)
    ensures NumIs(Eval(K, ArithTree(Sub, l, Tree(p, true)).value, row), RealOp(Sub, Number(a), RealOp(Mul, w, Number(b))))
  {
    ArithHolds(K, Mul, Tree(q, true), r, PFloat(w), b, row, sch);
    ArithHolds(K, Sub, l, Tree(p, true), a, PFloat(RealOp(Mul, w, Number(b))), row, sch);
  }

  lemma PowHolds(K: Kernels, l: Operand, r: Operand, a: PVal, b: PVal, row: Row, sch: Schema)
    requires RowFits(row, sch)
    requires PowTree(l, r).Some? && Fits(K, PowTree(l, r).value, row, sch)
    requires OperandHolds(K, a, l, row, sch) && OperandHolds(K, b, r, row, sch)
    requires PyBin(K, OpPow, a, b).Some?
    ensures Same(PyBin(K, OpPow, a, b).value, Eval(K, PowTree(l, r).value, row))
  {
    var x := Number(a);
    var t := PowTree(l, r).value;
    FitsParts(K, t, row, sch);
    if r.c == CF(0.5) {
      TypeSound(K, l.t, row, sch);
    } else if r.c == CI(0) {
      FitsParts(K, t.left, row, sch);
      var z := x * 0.0;
      assert z == 0.0;
      BinNum(K, Mul, l.t, x, Lit(CI(0)), 0.0, row);
      BinNum(K, Add, t.left, z, Lit(CI(1)), 1.0, row);
      if IsWhole(a) { assert IntPow(Whole(a), 0) == 1; } else { assert RealPow(x, 0) == 1.0; }
    } else {
      PowerFits(K, l.t, r.c.i, row, sch);
      PowerNum(K, l.t, r.c.i, row, x);
      if IsWhole(a) { RealPowOfInt(Whole(a), r.c.i); }
    }
  }

  lemma {:induction false} PowerFits(K: Kernels, t: Expr, n: nat, row: Row, sch: Schema)
    requires n >= 1 && Fits(K, Power(t, n), row, sch)
    ensures Fits(K, t, row, sch)
  {
    FitsParts(K, Power(t, n), row, sch);
  }

  /** The tree of an operator other than `**` stands for its formula. */
  lemma {:induction false} FormulaHolds(K: Kernels, op: PyBinOp, l: Operand, r: Operand, bothInt: bool, a: PVal, b: PVal, row: Row,
                     sch: Schema)
    requires RowFits(row, sch) && op != OpPow && op != OpOther
    requires BinTree(op, l, r, bothInt).Some? && Fits(K, BinTree(op, l, r, bothInt).value, row, sch)
    requires OperandHolds(K, a, l, row, sch) && OperandHolds(K, b, r, row, sch)
    requires IsNumber(a) && IsNumber(b)
    requires op == OpDiv || op == OpFloorDiv || op == OpMod ==> Number(b) != 0.0
    requires op == OpMod && bothInt ==> IsIntegral(RealMod(Number(a), Number(b)))
    ensures NumIs(Eval(K, BinTree(op, l, r, bothInt).value, row), Formula(op, Number(a), Number(b)))
  {
    match op
    case OpAdd => ArithHolds(K, Add, l, r, a, b, row, sch);
    case OpSub => ArithHolds(K, Sub, l, r, a, b, row, sch);
    case OpMul => ArithHolds(K, Mul, l, r, a, b, row, sch);
    case OpDiv => ArithHolds(K, Div, l, r, a, b, row, sch);
    case OpFloorDiv =>
      FloorHolds(K, l, r, a, b, row, sch);
      CastNum(K, Eval(K, FloorTree(l, r).value, row), (Number(a) / Number(b)).Floor as real);
    case OpMod =>
      ModHolds(K, l, r, a, b, row, sch);
      CastNum(K, Eval(K, ModTree(l, r).value, row), RealMod(Number(a), Number(b)));
  }

  predicate IsIntegral(x: real) { x == x.Floor as real }

  /** A lowered binary operator has Python's value. The Int64 cast of `%` needs whole operands. */
  lemma BinHolds(K: Kernels, op: PyBinOp, l: Operand, r: Operand, bothInt: bool, a: PVal, b: PVal, row: Row,
                 sch: Schema)
    requires RowFits(row, sch)
    requires BinTree(op, l, r, bothInt).Some? && Fits(K, BinTree(op, l, r, bothInt).value, row, sch)
    requires OperandHolds(K, a, l, row, sch) && OperandHolds(K, b, r, row, sch)
    requires PyBin(K, op, a, b).Some?
    requires op == OpMod && bothInt ==> IsWhole(a) && IsWhole(b)
    ensures Same(PyBin(K, op, a, b).value, Eval(K, BinTree(op, l, r, bothInt).value, row))
  {
    if op == OpPow {
      PowHolds(K, l, r, a, b, row, sch);
    } else {
      PyBinNumber(K, op, a, b);
      if op == OpMod && bothInt { RealModOfInts(Whole(a), Whole(b)); }
      FormulaHolds(K, op, l, r, bothInt, a, b, row, sch);
    }
  }

  // ---- comparisons, selects, predicates ----------------------------------------------------

  lemma FlipCmp(op: CmpOp, x: real, y: real)
    ensures CmpReal(Flip(op), y, x) == CmpReal(op, x, y)
  {
  }

  lemma CmpHolds(K: Kernels, op: CmpOp, x: Expr, c: Const, a: PVal, row: Row, sch: Schema)
    requires RowFits(row, sch)
    requires Fits(K, Un(Cmp(op, c), x), row, sch) && Holds(K, a, x, row, sch)
    requires PyCmp(op, a, NumConst(c)).Some?
    ensures Eval(K, Un(Cmp(op, c), x), row) == VB(PyCmp(op, a, NumConst(c)).value)
  {
    TypeSound(K, x, row, sch);
    var v := Eval(K, x, row);
    if v.VI? && c.CF? { IntCompareAt(op, c.r, v.i); }
  }

  lemma PyCmpFlip(op: CmpOp, a: PVal, b: PVal)
    ensures PyCmp(Flip(op), b, a) == PyCmp(op, a, b)
  {
    if IsNumber(a) && IsNumber(b) { FlipCmp(op, Number(a), Number(b)); }
  }

  lemma LinkHolds(K: Kernels, op: CmpOp, l: Operand, r: Operand, a: PVal, b: PVal, row: Row, sch: Schema)
    requires RowFits(row, sch)
    requires LinkTree(op, l, r).Some? && Fits(K, LinkTree(op, l, r).value, row, sch)
    requires OperandHolds(K, a, l, row, sch) && OperandHolds(K, b, r, row, sch)
    requires PyCmp(op, a, b).Some?
    ensures Eval(K, LinkTree(op, l, r).value, row) == VB(PyCmp(op, a, b).value)
  {
    match (l, r)
    case (Tree(x, _), Scalar(c, _)) => CmpHolds(K, op, x, c, a, row, sch);
    case (Scalar(c, _), Tree(y, _)) =>
      PyCmpFlip(op, a, b);
      CmpHolds(K, Flip(op), y, c, b, row, sch);
    case (Tree(x, _), Tree(y, _)) =>
      var d := Bin(Arith(Sub), x, y);
      assert d == ArithTree(Sub, l, r).value;
      FitsParts(K, LinkTree(op, l, r).value, row, sch);
      FitsParts(K, d, row, sch);
      TypeSound(K, x, row, sch);
      TypeSound(K, y, row, sch);
      ArithHolds(K, Sub, l, r, a, b, row, sch);
      assert Holds(K, PFloat(Number(a) - Number(b)), d, row, sch);
      CmpHolds(K, op, d, CI(0), PFloat(Number(a) - Number(b)), row, sch);
  }

  lemma TruthHolds(w: PVal, v: Val)
    requires Same(w, v) && HasBit(v) && Truthy(w).Some?
    ensures v == VB(Truthy(w).value)
  {
  }

  lemma {:induction false} ScalarIntEval(K: Kernels, e: Expr, row: Row, sch: Schema)
    requires TypeOf(e, sch) == Some(Ty(true, TI))
    ensures Eval(K, e, row) == VI(ScalarInt(e))
  {
    match e
    case Bin(Arith(o), l, r) =>
      ScalarIntEval(K, l, row, sch);
      ScalarIntEval(K, r, row, sch);
    case _ =>
  }

  /** Casting or broadcasting a select arm to the common type keeps its value. */
  lemma {:induction false} ArmHolds(K: Kernels, w: PVal, e: Expr, other: Expr, row: Row, sch: Schema, t: Base)
    requires RowFits(row, sch) && Fits(K, e, row, sch) && TypeOf(other, sch).Some?
    requires ArmFits(TypeOf(e, sch), e, TypeOf(other, sch))
    requires Same(w, Eval(K, e, row))
    requires
      var s, u := TypeOf(e, sch).value, TypeOf(other, sch).value;
      SelectBase(s.base, s.scalar, u.base, u.scalar) == Some(t) || SelectBase(u.base, u.scalar, s.base, s.scalar) == Some(t)
    ensures Same(w, ArmVal(t, Eval(K, e, row)))
  {
    TypeSound(K, e, row, sch);
    if TypeOf(e, sch) == Some(Ty(true, TI)) { ScalarIntEval(K, e, row, sch); }
  }

  lemma SelectHolds(K: Kernels, c: Expr, x: Expr, y: Expr, taken: bool, w: PVal, row: Row, sch: Schema)
    requires RowFits(row, sch) && Fits(K, Select(c, x, y), row, sch)
    requires Eval(K, c, row) == VB(taken)
    requires Holds(K, w, if taken then x else y, row, sch)
    ensures Same(w, Eval(K, Select(c, x, y), row))
  {
    TypeSound(K, x, row, sch);
    TypeSound(K, y, row, sch);
    var s, u := TypeOf(x, sch).value, TypeOf(y, sch).value;
    var t := SelectBase(s.base, s.scalar, u.base, u.scalar).value;
    if taken { ArmHolds(K, w, x, y, row, sch, t); } else { ArmHolds(K, w, y, x, row, sch, t); }
  }

  /** One step of a min / max fold picks a value equal to the better of the two. */
  lemma PickHolds(K: Kernels, isMin: bool, out: Expr, v: Operand, a: PVal, b: PVal, row: Row, sch: Schema)
    requires RowFits(row, sch) && !v.NoOperand? && Fits(K, Pick(isMin, out, LitOrTree(v)), row, sch)
    requires Holds(K, a, out, row, sch) && OperandHolds(K, b, v, row, sch)
    requires IsNumber(a) && IsNumber(b)
    ensures
      var better := if isMin then Number(b) < Number(a) else Number(b) > Number(a);
      Holds(K, if better then b else a, Pick(isMin, out, LitOrTree(v)), row, sch)
  {
    var y := LitOrTree(v);
    var op := if isMin then Lt else Gt;
    var d := Bin(Arith(Sub), out, y);
    OperandTree(K, b, v, row, sch);
    assert d == ArithTree(Sub, Tree(out, true), Tree(y, true)).value;
    FitsParts(K, Pick(isMin, out, y), row, sch);
    FitsParts(K, d, row, sch);
    ArithHolds(K, Sub, Tree(out, true), Tree(y, true), a, b, row, sch);
    var diff := PFloat(Number(a) - Number(b));
    assert Holds(K, diff, d, row, sch);
    CmpHolds(K, op, d, CI(0), diff, row, sch);
    var taken := CmpReal(op, Number(a) - Number(b), 0.0);
    SelectHolds(K, Un(Cmp(op, CI(0)), d), out, y, taken, if taken then a else b, row, sch);
  }

  lemma {:induction false} FoldFits(K: Kernels, isMin: bool, out: Expr, rest: seq<Operand>, row: Row, sch: Schema)
    requires forall i | 0 <= i < |rest| :: !rest[i].NoOperand?
    requires Fits(K, Fold(isMin, out, rest), row, sch)
    ensures Fits(K, out, row, sch)
    decreases |rest|
  {
    hide Eval, TypeOf, Exact, Alike, Fits;
    if rest != [] {
      var v := LitOrTree(rest[0]);
      var pick := Pick(isMin, out, v);
      FoldFits(K, isMin, pick, rest[1..], row, sch);
      FitsParts(K, pick, row, sch);
      FitsParts(K, pick.cond, row, sch);
      FitsParts(K, pick.cond.arg, row, sch);
    }
  }

  lemma {:induction false} FoldHolds(K: Kernels, isMin: bool, out: Expr, rest: seq<Operand>, best: PVal,
                                     vs: seq<PVal>, row: Row, sch: Schema)
    requires RowFits(row, sch) && |rest| == |vs|
    requires forall i | 0 <= i < |rest| :: !rest[i].NoOperand? && OperandHolds(K, vs[i], rest[i], row, sch)
    requires Fits(K, Fold(isMin, out, rest), row, sch)
    requires Holds(K, best, out, row, sch)
    requires PyExtreme(isMin, best, vs).Some?
    ensures Same(PyExtreme(isMin, best, vs).value, Eval(K, Fold(isMin, out, rest), row))
    decreases |rest|
  {
    FoldFits(K, isMin, out, rest, row, sch);
    if rest != [] {
      var v := LitOrTree(rest[0]);
      FoldFits(K, isMin, Pick(isMin, out, v), rest[1..], row, sch);
      PickHolds(K, isMin, out, rest[0], best, vs[0], row, sch);
      var better := if isMin then Number(vs[0]) < Number(best) else Number(vs[0]) > Number(best);
      FoldHolds(K, isMin, Pick(isMin, out, v), rest[1..], if better then vs[0] else best, vs[1..], row, sch);
    }
  }

  lemma {:induction false} ExtremeIntLike(isMin: bool, best: PVal, rest: seq<PVal>)
    requires PyExtreme(isMin, best, rest).Some? && best.PInt?
    requires forall i | 0 <= i < |rest| :: rest[i].PInt? || rest[i].PNone?
    ensures PyExtreme(isMin, best, rest).value.PInt?
    decreases |rest|
  {
    if rest != [] {
      var better := if isMin then Number(rest[0]) < Number(best) else Number(rest[0]) > Number(best);
      ExtremeIntLike(isMin, if better then rest[0] else best, rest[1..]);
    }
  }

  /** Membership in a list of constants, against the values they denote. */
  lemma MemberHolds(K: Kernels, x: Expr, cs: seq<Const>, vs: seq<PVal>, negate: bool, a: PVal, row: Row, sch: Schema)
    requires RowFits(row, sch) && Holds(K, a, x, row, sch)
    requires MemberTree(x, Some(cs), negate).Some? && Fits(K, MemberTree(x, Some(cs), negate).value, row, sch)
    requires |cs| == |vs| && forall i | 0 <= i < |cs| :: vs[i] == NumConst(cs[i])
    requires PyMember(a, vs).Some?
    ensures Eval(K, MemberTree(x, Some(cs), negate).value, row) == VB(PyMember(a, vs).value != negate)
  {
    hide Alike, Exact;
    FitsParts(K, MemberTree(x, Some(cs), negate).value, row, sch);
    TypeSound(K, x, row, sch);
    var v := Eval(K, x, row);
    if PyMember(a, vs).value {
      var i :| 0 <= i < |vs| && PyEq(a, vs[i]);
      assert vs[i] == NumConst(cs[i]) && cs[i] in cs;
      if v.VF? { assert v.r == cs[i].i as real; }
    } else {
      forall i | 0 <= i < |cs| ensures !PyEq(a, NumConst(cs[i])) { assert vs[i] == NumConst(cs[i]); }
      if v.VF? && v.r == v.r.Floor as real && CI(v.r.Floor) in cs { assert false; }
    }
  }

  // ---- one-operand nodes, cell by cell ---------------------------------------------------------

  lemma NotHolds(K: Kernels, w: PVal, v: Val)
    requires Same(w, v) && HasBit(v) && Truthy(w).Some?
    ensures Same(PBool(!Truthy(w).value), UnVal(K, Not, v))
  {
    TruthHolds(w, v);
  }

  lemma IsNullVal(K: Kernels, missing: bool, w: PVal, v: Val)
    requires Same(w, v)
    ensures UnVal(K, IsNull(missing), v) == VB((w == PNone) == missing)
  {
  }

  lemma ContainsVal(K: Kernels, sub: string, s: string)
    ensures UnVal(K, StrPred(Contains, sub), VS(s)) == VB(IsSubstring(sub, s))
    ensures UnVal(K, Not, VB(IsSubstring(sub, s))) == VB(!IsSubstring(sub, s))
  {
  }

  lemma FloorCeilOfInt(n: int)
    ensures (n as real).Floor == n && Ceiling(n as real) == n
  {
    assert (-n) as real == -(n as real);
  }

  lemma {:induction false} MathVal(K: Kernels, u: UnaryName, w: PVal, v: Val)
    requires Same(w, v) && (v.VI? || v.VF?)
    requires PyMath(K, u, w).Some?
    ensures Same(PyMath(K, u, w).value, UnVal(K, Unary(u), v))
  {
    var x := Number(w);
    assert x == NumOf(v);
    if v.VI? { FloorCeilOfInt(v.i); }
    match u
    case Sqrt => assert UnVal(K, Unary(u), v) == VF(K.real1(u, x));
    case Log => assert UnVal(K, Unary(u), v) == VF(K.real1(u, x));
    case Exp => assert UnVal(K, Unary(u), v) == VF(K.real1(u, x));
    case Floor => assert NumIs(UnVal(K, Unary(u), v), x.Floor as real);
    case Ceil => assert NumIs(UnVal(K, Unary(u), v), Ceiling(x) as real);
  }

  lemma NearestOfInt(n: int)
    ensures Nearest(n as real) == n
  {
  }

  lemma BuiltinVal(K: Kernels, f: Builtin, w: PVal, v: Val)
    requires Builtin1(f).Some? && PyBuiltin1(K, f, w).Some?
    requires Same(w, v) && UnBase(Builtin1(f).value, v.Tag().value).Some?
    ensures Same(PyBuiltin1(K, f, w).value, UnVal(K, Builtin1(f).value, v))
  {
    match f
    case BInt =>
      CastNum(K, v, Number(w));
      if IsWhole(w) { TruncateBounds(Whole(w) as real); }
    case BFloat => CastNum(K, v, Number(w));
    case BRound =>
      if v.VI? { NearestOfInt(v.i); }
      if IsWhole(w) { NearestOfInt(Whole(w)); }
    case _ =>
  }

  /** What a string method does to a string, on both sides. */
  function MethodOp(m: StrMethod, ps: seq<string>): UnOp
    requires |ps| == (match m case MapMethod(_) => 0 case ReplaceMethod => 2 case _ => 1)
  {
    match m
    case MapMethod(f) => StrMap(f)
    case StartsMethod => StrPred(StartsWith, ps[0])
    case EndsMethod => StrPred(EndsWith, ps[0])
    case ReplaceMethod => StrReplace(ps[0], ps[1], true)
  }

  /** Strings the two sides' method treats alike. */
  predicate MethodSame(K: Kernels, op: UnOp, s: string) {
    && (op.StrMap? ==> SameText(K.cases, op.map1, s))
    && (op.StrReplace? ==> op.what != "" || op.by_ == "")
  }

  lemma MethodUn(K: Kernels, m: StrMethod, ps: seq<string>, s: string)
    requires |ps| == (match m case MapMethod(_) => 0 case ReplaceMethod => 2 case _ => 1)
    requires MethodSame(K, MethodOp(m, ps), s)
    ensures
      var vs := seq(|ps|, i requires 0 <= i < |ps| => PStr(ps[i]));
      && PyMethod(K, PStr(s), m, vs).Some?
      && Same(PyMethod(K, PStr(s), m, vs).value, UnVal(K, MethodOp(m, ps), VS(s)))
  {
    match m
    case MapMethod(f) => TextExact(K.cases, f, s);
    case ReplaceMethod => ReplaceExact(s, ps[0], ps[1]);
    case _ =>
  }

  lemma MethodVal(K: Kernels, t: Expr, m: StrMethod, cs: Option<seq<Const>>, w: PVal, vs: seq<PVal>, row: Row,
                  sch: Schema)
    requires RowFits(row, sch) && Holds(K, w, t, row, sch)
    requires MethodTree(t, m, vs == [], cs).Some? && Fits(K, MethodTree(t, m, vs == [], cs).value, row, sch)
    requires PyMethod(K, w, m, vs).Some?
    requires cs.Some? ==> |cs.value| == |vs| && forall i | 0 <= i < |vs| :: vs[i] == NumConst(cs.value[i])
    ensures Same(PyMethod(K, w, m, vs).value, Eval(K, MethodTree(t, m, vs == [], cs).value, row))
  {
    var ps := seq(|vs|, i requires 0 <= i < |vs| => vs[i].s);
    assert MethodTree(t, m, vs == [], cs).value == Un(MethodOp(m, ps), t);
    MethodStep(K, t, MethodOp(m, ps), w, row, sch);
    MethodUn(K, m, ps, w.s);
    assert vs == seq(|ps|, i requires 0 <= i < |ps| => PStr(ps[i]));
  }

  lemma MethodStep(K: Kernels, t: Expr, op: UnOp, w: PVal, row: Row, sch: Schema)
    requires RowFits(row, sch) && Holds(K, w, t, row, sch) && Fits(K, Un(op, t), row, sch) && w.PStr?
    ensures Eval(K, Un(op, t), row) == UnVal(K, op, VS(w.s)) && MethodSame(K, op, w.s)
  {
    TypeSound(K, t, row, sch);
  }
}
