/** The functions that apply one name or operator to their argument, lowered and evaluated on one cell: each gives on the
    engine what its Python name says. */
module EngineNames {
  import opened Options
  import opened Text
  import opened Exprs
  import opened PythonNumbers
  import opened PythonSubset
  import opened PythonNames
  import opened Transpiler

  const X := EName("x")
  const X0 := Col(TRACE_INPUT)

  /** lambda x: e */
  function Of(e: PyExpr): FunDef { FunDef(["x"], Lambda(e), map[]) }

  /** The same in a module that imports math. */
  function WithMath(e: PyExpr): FunDef { FunDef(["x"], Lambda(e), map["math" := GMath]) }

  function Cell(v: Val): Row { Row(map[TRACE_INPUT := v], []) }

  function Input(v: Val): map<string, bool> { map[TRACE_INPUT := v.VI?] }

  /** What the lowered function computes on a cell; a fault where it does not lower. */
  function OnCell(K: Kernels, fd: FunDef, v: Val): Val {
    var low := Transpile(map[], fd, None, Input(v));
    if low.Low? && low.plain then Eval(K, low.e, Cell(v)) else Fault
  }

  lemma LowersLambda(fd: FunDef, v: Val, e: PyExpr)
    requires fd.params == ["x"] && fd.body == Lambda(e)
    requires fd.globals.Keys <= {"math"} && ("math" in fd.globals ==> fd.globals["math"] == GMath)
    ensures var ctx := EntryCtx(map[], fd, None, Input(v));
            && Transpile(map[], fd, None, Input(v)) == LowerExpr(ctx, NoLocals(), e)
            && LowerExpr(ctx, NoLocals(), X) == Low(X0, true) && LowerOperand(ctx, NoLocals(), X) == Tree(X0, true)
  {
    var ctx := EntryCtx(map[], fd, None, Input(v));
    assert Constant(ctx, map[], X).None?;
    assert LowerExpr(ctx, NoLocals(), X) == Low(X0, true);
    assert LowerBody(ctx, fd.body) == LowerExpr(ctx, NoLocals(), e);
  }

  lemma OnUn(K: Kernels, fd: FunDef, op: UnOp, v: Val)
    requires Transpile(map[], fd, None, Input(v)) == Low(Un(op, X0), true)
    ensures OnCell(K, fd, v) == UnVal(K, op, v)
  {
    assert Eval(K, X0, Cell(v)) == v;
  }

  // ---- builtins ------------------------------------------------------------------------------------------------

  function Call(f: string): FunDef { Of(ECall(f, ECons(X, ENil), false)) }

  /** `abs`, `int`, `float` and `round` of a number cell, and `len` of a string cell. */
  lemma CallOnCell(K: Kernels, v: Val)
    requires v.VI? || v.VF?
    ensures var r := OnCell(K, Call("abs"), v); r.Tag() == v.Tag() && IsNum(r) && IsAbs(NumOf(v), NumOf(r))
    ensures var r := OnCell(K, Call("int"), v); r.VI? && IsTruncation(NumOf(v), r.i)
    ensures OnCell(K, Call("float"), v) == VF(NumOf(v))
    ensures var r := OnCell(K, Call("round"), v);
            r.Tag() == v.Tag() && IsNum(r) && NumOf(r) == NumOf(r).Floor as real && IsNearest(NumOf(v), NumOf(r).Floor)
  {
    hide OnCell, Call;
    RoundsMean(NumOf(v));
    CallRuns(K, "abs", v);
    CallRuns(K, "int", v);
    CallRuns(K, "float", v);
    CallRuns(K, "round", v);
  }

  lemma LowersCall(f: string, v: Val)
    requires BuiltinOf(f).Some? && Builtin1(BuiltinOf(f).value).Some?
    ensures Transpile(map[], Call(f), None, Input(v)) == Low(Un(Builtin1(BuiltinOf(f).value).value, X0), true)
  {
    var args := ECons(X, ENil);
    LowersLambda(Call(f), v, ECall(f, args, false));
    assert Length(args) == 1;
  }

  lemma CallRuns(K: Kernels, f: string, v: Val)
    requires BuiltinOf(f).Some? && Builtin1(BuiltinOf(f).value).Some?
    ensures OnCell(K, Call(f), v) == UnVal(K, Builtin1(BuiltinOf(f).value).value, v)
  {
    LowersCall(f, v);
    OnUn(K, Call(f), Builtin1(BuiltinOf(f).value).value, v);
  }

  lemma LenOnCell(K: Kernels, s: string)
    ensures OnCell(K, Call("len"), VS(s)) == VI(|s|)
  {
    CallRuns(K, "len", VS(s));
  }

  /** `min` and `max` of a number cell and a constant: one of the two, and no greater, or no less, than both. */
  lemma ExtremeOnCell(K: Kernels, v: Val, c: int)
    requires v.VI? || v.VF?
    ensures var r := OnCell(K, Of(ECall("min", ECons(X, ECons(EConst(KInt(c)), ENil)), false)), v);
            && IsNum(r) && (NumOf(r) == NumOf(v) || NumOf(r) == c as real) && NumOf(r) <= NumOf(v) && NumOf(r) <= c as real
    ensures var r := OnCell(K, Of(ECall("max", ECons(X, ECons(EConst(KInt(c)), ENil)), false)), v);
            && IsNum(r) && (NumOf(r) == NumOf(v) || NumOf(r) == c as real) && NumOf(r) >= NumOf(v) && NumOf(r) >= c as real
  {
    LowersExtreme("min", KInt(c), CI(c), v);
    LowersExtreme("max", KInt(c), CI(c), v);
    PickOnCell(K, true, v, CI(c));
    PickOnCell(K, false, v, CI(c));
  }

  /** The same for a float constant. */
  lemma ExtremeOfFloat(K: Kernels, v: Val, c: real)
    requires v.VI? || v.VF?
    ensures var r := OnCell(K, Of(ECall("min", ECons(X, ECons(EConst(KFloat(c)), ENil)), false)), v);
            && IsNum(r) && (NumOf(r) == NumOf(v) || NumOf(r) == c) && NumOf(r) <= NumOf(v) && NumOf(r) <= c
    ensures var r := OnCell(K, Of(ECall("max", ECons(X, ECons(EConst(KFloat(c)), ENil)), false)), v);
            && IsNum(r) && (NumOf(r) == NumOf(v) || NumOf(r) == c) && NumOf(r) >= NumOf(v) && NumOf(r) >= c
  {
    LowersExtreme("min", KFloat(c), CF(c), v);
    LowersExtreme("max", KFloat(c), CF(c), v);
    PickOnCell(K, true, v, CF(c));
    PickOnCell(K, false, v, CF(c));
  }

  lemma LowersExtreme(f: string, k: PyConst, c: Const, v: Val)
    requires (f == "min" || f == "max") && ((k.KInt? && c == CI(k.n)) || (k.KFloat? && c == CF(k.r)))
    ensures Transpile(map[], Of(ECall(f, ECons(X, ECons(EConst(k), ENil)), false)), None, Input(v)) ==
            Low(Pick(f == "min", X0, Lit(c)), true)
  {
    var args := ECons(X, ECons(EConst(k), ENil));
    var fd := Of(ECall(f, args, false));
    var ctx, loc := EntryCtx(map[], fd, None, Input(v)), NoLocals();
    LowersLambda(fd, v, ECall(f, args, false));
    var os := [Tree(X0, true), Scalar(c, true)];
    assert LowerOperand(ctx, loc, EConst(k)) == Scalar(c, true);
    assert LowerOperands(ctx, loc, ENil) == Some([]) && [Scalar(c, true)] + [] == [Scalar(c, true)];
    assert LowerOperands(ctx, loc, args.tl) == Some([Scalar(c, true)]) && [Tree(X0, true)] + [Scalar(c, true)] == os;
    assert LowerOperands(ctx, loc, args) == Some(os) && os[0].Tree? && Length(args) == 2;
    assert os[1..] == [Scalar(c, true)] && os[1..][1..] == [];
    assert Fold(f == "min", X0, os[1..]) == Pick(f == "min", X0, Lit(c));
  }

  lemma PickOnCell(K: Kernels, isMin: bool, v: Val, c: Const)
    requires (v.VI? || v.VF?) && !c.CS?
    ensures var r := Eval(K, Pick(isMin, X0, Lit(c)), Cell(v));
            var x, y := NumOf(v), if c.CI? then c.i as real else c.r;
            && IsNum(r) && (NumOf(r) == x || NumOf(r) == y)
            && (if isMin then NumOf(r) <= x && NumOf(r) <= y else NumOf(r) >= x && NumOf(r) >= y)
  {
    var row := Cell(v);
    assert Eval(K, X0, row) == v;
    assert Eval(K, Lit(c), row) == LitVal(c);
    var d := Eval(K, Bin(Arith(Sub), X0, Lit(c)), row);
    assert IsNum(d) && NumOf(d) == NumOf(v) - NumOf(LitVal(c));
    var op := Cmp(if isMin then Lt else Gt, CI(0));
    assert Eval(K, Un(op, Bin(Arith(Sub), X0, Lit(c))), row) == VB(if isMin then NumOf(d) < 0.0 else NumOf(d) > 0.0);
  }

  // ---- math ------------------------------------------------------------------------------------------------------

  function MathCall(f: string): FunDef { WithMath(EMethod(EName("math"), f, ECons(X, ENil), false)) }

  lemma LowersMath(f: string, v: Val)
    requires MathOf(f).Some?
    ensures Transpile(map[], MathCall(f), None, Input(v)) == Low(Un(Unary(MathOf(f).value), X0), true)
  {
    var args := ECons(X, ENil);
    LowersLambda(MathCall(f), v, EMethod(EName("math"), f, args, false));
    assert Length(args) == 1;
  }

  lemma MathRuns(K: Kernels, f: string, v: Val)
    requires MathOf(f).Some?
    ensures OnCell(K, MathCall(f), v) == UnVal(K, Unary(MathOf(f).value), v)
  {
    LowersMath(f, v);
    OnUn(K, MathCall(f), Unary(MathOf(f).value), v);
  }

  /** `math.floor` and `math.ceil` of a number cell. */
  lemma RoundingOnCell(K: Kernels, v: Val)
    requires v.VI? || v.VF?
    ensures var r := OnCell(K, MathCall("floor"), v);
            r.Tag() == v.Tag() && IsNum(r) && NumOf(r) == NumOf(r).Floor as real && IsFloor(NumOf(v), NumOf(r).Floor)
    ensures var r := OnCell(K, MathCall("ceil"), v);
            r.Tag() == v.Tag() && IsNum(r) && NumOf(r) == NumOf(r).Floor as real && IsCeiling(NumOf(v), NumOf(r).Floor)
  {
    hide OnCell, MathCall;
    RoundsMean(NumOf(v));
    MathRuns(K, "floor", v);
    MathRuns(K, "ceil", v);
  }

  /** The functions of `math` the two sides share. */
  lemma MathOnCell(K: Kernels, v: Val)
    requires v.VI? || v.VF?
    ensures OnCell(K, MathCall("sqrt"), v) == VF(K.real1(Sqrt, NumOf(v)))
    ensures OnCell(K, MathCall("log"), v) == VF(K.real1(Log, NumOf(v)))
    ensures OnCell(K, MathCall("exp"), v) == VF(K.real1(Exp, NumOf(v)))
  {
    hide OnCell, MathCall;
    MathRuns(K, "sqrt", v);
    MathRuns(K, "log", v);
    MathRuns(K, "exp", v);
  }

  // ---- comparisons -------------------------------------------------------------------------------------------------

  /** `x op c`, and `c op x`, for a number cell and a whole constant. */
  lemma CompareOnCell(K: Kernels, op: PyCmpOp, v: Val, c: int)
    requires IsOrdering(op) && (v.VI? || v.VF?)
    ensures OnCell(K, Of(ECompare(X, CCons(op, EConst(KInt(c)), CNil))), v) == VB(Compared(op, NumOf(v), c as real))
    ensures OnCell(K, Of(ECompare(EConst(KInt(c)), CCons(op, X, CNil))), v) == VB(Compared(op, c as real, NumOf(v)))
  {
    hide OnCell;
    LowersCompare(op, v, c);
    OnUn(K, Of(ECompare(X, CCons(op, EConst(KInt(c)), CNil))), Cmp(CmpOf(op).value, CI(c)), v);
    OnUn(K, Of(ECompare(EConst(KInt(c)), CCons(op, X, CNil))), Cmp(Flip(CmpOf(op).value), CI(c)), v);
  }

  lemma LowersCompare(op: PyCmpOp, v: Val, c: int)
    requires IsOrdering(op)
    ensures Transpile(map[], Of(ECompare(X, CCons(op, EConst(KInt(c)), CNil))), None, Input(v)) ==
            Low(Un(Cmp(CmpOf(op).value, CI(c)), X0), true)
    ensures Transpile(map[], Of(ECompare(EConst(KInt(c)), CCons(op, X, CNil))), None, Input(v)) ==
            Low(Un(Cmp(Flip(CmpOf(op).value), CI(c)), X0), true)
  {
    var k := EConst(KInt(c));
    var e, e' := ECompare(X, CCons(op, k, CNil)), ECompare(k, CCons(op, X, CNil));
    LowersLambda(Of(e), v, e);
    LowersLambda(Of(e'), v, e');
    var ctx, loc := EntryCtx(map[], Of(e), None, Input(v)), NoLocals();
    assert ctx == EntryCtx(map[], Of(e'), None, Input(v));
    assert LowerOperand(ctx, loc, k) == Scalar(CI(c), true);
    var t, t' := Un(Cmp(CmpOf(op).value, CI(c)), X0), Un(Cmp(Flip(CmpOf(op).value), CI(c)), X0);
    assert LowerLink(ctx, loc, X, op, k) == LowerOrder(ctx, loc, X, CmpOf(op).value, k) == Low(t, true);
    assert LowerLink(ctx, loc, k, op, X) == LowerOrder(ctx, loc, k, CmpOf(op).value, X) == Low(t', true);
    assert LowerChain(ctx, loc, t, true, k, CNil) == Low(t, true) && LowerChain(ctx, loc, t', true, X, CNil) == Low(t', true);
    assert LowerCompare(ctx, loc, X, CCons(op, k, CNil)) == Low(t, true);
    assert LowerCompare(ctx, loc, k, CCons(op, X, CNil)) == Low(t', true);
    assert LowerExpr(ctx, loc, e) == Low(t, true) && LowerExpr(ctx, loc, e') == Low(t', true);
  }

  // ---- whole-number operators ---------------------------------------------------------------------------------------

  function WholeQuotient(c: int): Expr { Un(Unary(Floor), Bin(Arith(Div), X0, Lit(CI(c)))) }

  lemma QuotientOnCell(K: Kernels, n: int, c: int)
    requires c != 0
    ensures Eval(K, WholeQuotient(c), Cell(VI(n))) == VF(FloorDiv(n, c) as real)
  {
    hide FloorDiv;
    var row := Cell(VI(n));
    FloorOfQuotient(n, c);
    assert Eval(K, X0, row) == VI(n) && Eval(K, Lit(CI(c)), row) == VI(c);
    assert Eval(K, Bin(Arith(Div), X0, Lit(CI(c))), row) == VF(n as real / c as real);
  }

  lemma RemainderOnCell(K: Kernels, n: int, c: int)
    requires c != 0
    ensures Eval(K, Bin(Arith(Sub), X0, Bin(Arith(Mul), WholeQuotient(c), Lit(CI(c)))), Cell(VI(n))) == VF(FloorMod(n, c) as real)
  {
    hide FloorDiv;
    var row := Cell(VI(n));
    QuotientOnCell(K, n, c);
    IntTimesReal(FloorDiv(n, c), c);
    assert Eval(K, X0, row) == VI(n) && Eval(K, Lit(CI(c)), row) == VI(c);
    assert Eval(K, Bin(Arith(Mul), WholeQuotient(c), Lit(CI(c))), row) == VF(FloorDiv(n, c) as real * c as real);
  }

  /** On an integer cell `//` and `%` by a constant are the integer quotient and remainder Python defines, as integers. */
  lemma WholeOnCell(K: Kernels, n: int, c: int)
    requires c != 0
    ensures var q, m := OnCell(K, Of(EBin(OpFloorDiv, X, EConst(KInt(c)))), VI(n)), OnCell(K, Of(EBin(OpMod, X, EConst(KInt(c)))), VI(n));
            && q.VI? && m.VI? && n == q.i * c + m.i
            && (c > 0 ==> 0 <= m.i < c) && (c < 0 ==> c < m.i <= 0)
  {
    hide FloorDiv, FloorMod, Of, Transpile;
    LowersWhole(OpFloorDiv, n, c);
    LowersWhole(OpMod, n, c);
    QuotientOnCell(K, n, c);
    RemainderOnCell(K, n, c);
    FloorDivMod(n, c);
    WholeTruncates(FloorDiv(n, c));
    WholeTruncates(FloorMod(n, c));
  }

  lemma WholeTruncates(n: int)
    ensures Truncate(n as real) == n
  {
    TruncateBounds(n as real);
  }

  lemma LowersWhole(op: PyBinOp, n: int, c: int)
    requires op == OpFloorDiv || op == OpMod
    ensures var f := WholeQuotient(c);
            Transpile(map[], Of(EBin(op, X, EConst(KInt(c)))), None, Input(VI(n))) ==
            Low(Un(Cast(TI), if op == OpFloorDiv then f else Bin(Arith(Sub), X0, Bin(Arith(Mul), f, Lit(CI(c))))), true)
  {
    var k := EConst(KInt(c));
    var fd := Of(EBin(op, X, k));
    LowersLambda(fd, VI(n), EBin(op, X, k));
    var ctx, loc := EntryCtx(map[], fd, None, Input(VI(n))), NoLocals();
    assert LowerOperand(ctx, loc, k) == Scalar(CI(c), true);
    assert IsInt(ctx, loc.exprs, loc.ints, X) && IsInt(ctx, loc.exprs, loc.ints, k);
    assert HonestInt(ctx, loc, X) && HonestInt(ctx, loc, k);
  }

  // ---- string methods ------------------------------------------------------------------------------------------------

  function Method(name: string, args: PyExprs): FunDef { Of(EMethod(X, name, args, false)) }

  lemma MapRuns(K: Kernels, name: string, m: StrMapName, s: string)
    requires MethodOf(name) == Some(MapMethod(m))
    ensures OnCell(K, Method(name, ENil), VS(s)) == VS(EngineMap(m, s))
  {
    hide OnCell, EngineMap;
    var fd := Method(name, ENil);
    LowersLambda(fd, VS(s), EMethod(X, name, ENil, false));
    var ctx, loc := EntryCtx(map[], fd, None, Input(VS(s))), NoLocals();
    assert Constants(ctx, loc.exprs, ENil) == Some([]) && !AnyMisread(ctx, loc.exprs, ENil);
    OnUn(K, fd, StrMap(m), VS(s));
  }

  /** `lower` and `upper` change the letters of one alphabet into those of the other. */
  lemma CaseOnCell(K: Kernels, s: string)
    ensures var r := OnCell(K, Method("lower", ENil), VS(s)); r.VS? && Recased(s, r.s, CAPITALS, SMALL)
    ensures var r := OnCell(K, Method("upper", ENil), VS(s)); r.VS? && Recased(s, r.s, SMALL, CAPITALS)
  {
    hide OnCell, Method, EngineMap, Recased;
    MapRuns(K, "lower", Lower, s);
    MapRuns(K, "upper", Upper, s);
    FoldMeans(s);
  }

  /** The strips take away the engine's spaces at the ends they name. */
  lemma StripOnCell(K: Kernels, s: string)
    ensures var r := OnCell(K, Method("strip", ENil), VS(s)); r.VS? && Stripped(c => EngineSpace(c), true, true, s, r.s)
    ensures var r := OnCell(K, Method("lstrip", ENil), VS(s)); r.VS? && Stripped(c => EngineSpace(c), true, false, s, r.s)
    ensures var r := OnCell(K, Method("rstrip", ENil), VS(s)); r.VS? && Stripped(c => EngineSpace(c), false, true, s, r.s)
  {
    hide OnCell, Method, Stripped, StripBy;
    MapRuns(K, "strip", Strip, s);
    MapRuns(K, "lstrip", Lstrip, s);
    MapRuns(K, "rstrip", Rstrip, s);
    StripMeans(c => EngineSpace(c), s);
  }

  lemma LowersMethod1(name: string, p: string, s: string)
    requires MethodOf(name) == Some(StartsMethod) || MethodOf(name) == Some(EndsMethod)
    ensures Transpile(map[], Method(name, ECons(EConst(KStr(p)), ENil)), None, Input(VS(s))) ==
            Low(Un(StrPred(if MethodOf(name).value.StartsMethod? then StartsWith else EndsWith, p), X0), true)
  {
    var args := ECons(EConst(KStr(p)), ENil);
    var fd := Method(name, args);
    LowersLambda(fd, VS(s), EMethod(X, name, args, false));
    var ctx, loc := EntryCtx(map[], fd, None, Input(VS(s))), NoLocals();
    assert Constants(ctx, loc.exprs, ENil) == Some([]) && [CS(p)] + [] == [CS(p)];
    assert Constants(ctx, loc.exprs, args) == Some([CS(p)]);
    assert !Misread(ctx, loc.exprs, args.hd) && !AnyMisread(ctx, loc.exprs, ENil);
    assert !AnyMisread(ctx, loc.exprs, args);
  }

  lemma EndsOnCell(K: Kernels, p: string, s: string)
    ensures OnCell(K, Method("startswith", ECons(EConst(KStr(p)), ENil)), VS(s)) == VB(Starts(p, s))
    ensures OnCell(K, Method("endswith", ECons(EConst(KStr(p)), ENil)), VS(s)) == VB(Ends(p, s))
  {
    hide OnCell, Method, Starts, Ends, IsPrefix, IsSuffix;
    LowersMethod1("startswith", p, s);
    LowersMethod1("endswith", p, s);
    OnUn(K, Method("startswith", ECons(EConst(KStr(p)), ENil)), StrPred(StartsWith, p), VS(s));
    OnUn(K, Method("endswith", ECons(EConst(KStr(p)), ENil)), StrPred(EndsWith, p), VS(s));
    PrefixMeans(p, s);
    SuffixMeans(p, s);
  }

  // ---- fields ----------------------------------------------------------------------------------------------------------

  /** lambda r: r["k"], and lambda r: r.k, read the row's own column. */
  lemma FieldOnRow(K: Kernels, k: string, row: Row, intInputs: map<string, bool>)
    requires k in row.named
    ensures Transpile(map[], FunDef(["r"], Lambda(ESubscript(EName("r"), EConst(KStr(k)))), map[]), Some(row.named.Keys), intInputs) ==
            Low(Col(k), true)
    ensures Transpile(map[], FunDef(["r"], Lambda(EAttr(EName("r"), k)), map[]), Some(row.named.Keys), intInputs) == Low(Col(k), true)
    ensures Eval(K, Col(k), row) == row.named[k]
  {
    var a, b := ESubscript(EName("r"), EConst(KStr(k))), EAttr(EName("r"), k);
    var ctx := EntryCtx(map[], FunDef(["r"], Lambda(a), map[]), Some(row.named.Keys), intInputs);
    assert ctx == EntryCtx(map[], FunDef(["r"], Lambda(b), map[]), Some(row.named.Keys), intInputs);
    assert LowerExpr(ctx, NoLocals(), a) == Low(Col(k), true) && LowerExpr(ctx, NoLocals(), b) == Low(Col(k), true);
    assert LowerBody(ctx, Lambda(a)) == Low(Col(k), true) && LowerBody(ctx, Lambda(b)) == Low(Col(k), true);
  }
}
