/** Where a lowered function departs from Python: for each hypothesis of compiler correctness, the exact
    condition under which its branch is right, or a small program on which it is wrong. */
module TranspilerLimits {
  import opened Options
  import opened Text
  import opened Exprs
  import opened PythonNumbers
  import opened PythonSubset
  import opened Transpiler
  import opened Agreement

  /** The Int64 cast of a remainder keeps Python's value exactly when the remainder is whole. */
  lemma ModCastExact(K: Kernels, x: real, y: real)
    requires y != 0.0
    ensures Same(PFloat(RealMod(x, y)), UnVal(K, Cast(TI), VF(RealMod(x, y)))) <==> IsIntegral(RealMod(x, y))
  {
    TruncateBounds(RealMod(x, y));
  }

  /** A number broadcast into a Bool column keeps its value exactly when it is 0 or 1. */
  lemma BoolArmExact(n: int)
    ensures Same(PInt(n), ArmVal(TB, VI(n))) <==> n == 0 || n == 1
  {
  }

  /** The kernel's comparison of an integer cell with a float constant is Python's, on every integer, if and only if the
      constant is whole or of a sign the operator tolerates. */
  lemma {:induction false} CompareConstantExact(K: Kernels, op: CmpOp, r: real)
    ensures (forall n: int :: Same(PBool(CmpReal(op, n as real, r)), UnVal(K, Cmp(op, CF(r)), VI(n)))) <==> CmpExact(op, CF(r))
  {
    IntCompareExact(op, r);
    forall n: int ensures Same(PBool(CmpReal(op, n as real, r)), UnVal(K, Cmp(op, CF(r)), VI(n))) <==> CompareAgrees(op, r, n) {
      assert UnVal(K, Cmp(op, CF(r)), VI(n)) == CmpVal(K, op, VI(n), CF(r));
    }
    if forall n: int :: Same(PBool(CmpReal(op, n as real, r)), UnVal(K, Cmp(op, CF(r)), VI(n))) {
      forall n: int ensures CompareAgrees(op, r, n) {
        assert Same(PBool(CmpReal(op, n as real, r)), UnVal(K, Cmp(op, CF(r)), VI(n)));
      }
    }
  }

  /** Membership in a global string lowers to membership in its characters, which agrees with Python's
      substring test on a value exactly when the value is one character or no substring at all. */
  lemma GlobalStringExact(g: string, s: string)
    ensures IsInVal(Chars(g), VS(s)) == VB(IsSubstring(s, g)) <==> |s| == 1 || !IsSubstring(s, g)
  {
    var cs := Chars(g);
    if CS(s) in cs {
      var i :| 0 <= i < |cs| && cs[i] == CS(s);
      assert IsPrefix(s, g[i..]);
    }
    if |s| == 1 && IsSubstring(s, g) {
      var k :| 0 <= k <= |g| && IsPrefix(s, g[k..]);
      assert s == [g[k]] && cs[k] == CS(s);
    }
  }

  // ---- int-ness that outlives its branch ---------------------------------------------

  const X := EName("x")
  const Y := EName("y")
  const HALF := EBin(OpDiv, X, EConst(KInt(2)))

  /** def f(x): y = x / 2; if x > 100: y = 1; return y; return y % 1 */
  const LEAK_BRANCH :=
    SCons(SAssign("y", EConst(KInt(1))), SCons(SReturn(Some(Y)), SNil))
  const LEAK_TEST := ECompare(X, CCons(CGt, EConst(KInt(100)), CNil))
  const LEAK_REST := SCons(SReturn(Some(EBin(OpMod, Y, EConst(KInt(1))))), SNil)
  const LEAK :=
    SCons(SAssign("y", HALF), SCons(SIf(LEAK_TEST, LEAK_BRANCH, SNil), LEAK_REST))

  const X0 := Col(TRACE_INPUT)
  const HALF_TREE := Bin(Arith(Div), X0, Lit(CI(2)))
  const REM_TREE :=
    Bin(Arith(Sub), HALF_TREE, Bin(Arith(Mul), Un(Unary(Floor), Bin(Arith(Div), HALF_TREE, Lit(CI(1)))), Lit(CI(1))))
  const LEAK_TREE := Select(Un(Cmp(Gt, CI(100)), X0), Lit(CI(1)), Un(Cast(TI), REM_TREE))

  function LeakCtx(): Ctx {
    Ctx(map[], map[], None, None, map["x" := X0], map["x" := true], map[TRACE_INPUT := true], 0)
  }

  const ONE := EConst(KInt(1))
  function BeforeIf(): Locals { Locals(map["y" := HALF_TREE], map["y" := false], map["y" := false]) }
  function InBranch(): Locals { Locals(map["y" := Lit(CI(1))], map["y" := true], map["y" := true]) }
  function AfterIf(): Locals { Locals(map["y" := HALF_TREE], map["y" := true], map["y" := false]) }

  lemma BranchLowers()
    ensures LowerBlock(LeakCtx(), BeforeIf(), LEAK_BRANCH) == BlockEnd(Value(Lit(CI(1)), true), map["y" := true])
  {
    var ctx := LeakCtx();
    assert LowerExpr(ctx, Assigning(ctx, BeforeIf(), "y", ONE), ONE) == Low(Lit(CI(1)), true);
    assert Assigned(ctx, BeforeIf(), "y", ONE, Lit(CI(1))) == InBranch();
    assert LowerBlock(ctx, InBranch(), LEAK_BRANCH.tl) == BlockEnd(Value(Lit(CI(1)), true), map["y" := true]);
  }

  lemma RemainderLowers()
    ensures LowerBlock(LeakCtx(), AfterIf(), LEAK_REST).res == Value(Un(Cast(TI), REM_TREE), false)
  {
    var ctx, loc := LeakCtx(), AfterIf();
    assert LowerExpr(ctx, loc, Y) == Low(HALF_TREE, true);
    assert LowerOperand(ctx, loc, Y) == Tree(HALF_TREE, true);
    assert LowerOperand(ctx, loc, ONE) == Scalar(CI(1), true);
    assert FloorTree(Tree(HALF_TREE, true), Scalar(CI(1), true))
        == Some(Un(Unary(Floor), Bin(Arith(Div), HALF_TREE, Lit(CI(1)))));
    assert ModTree(Tree(HALF_TREE, true), Scalar(CI(1), true)) == Some(REM_TREE);
    assert Claimed(ctx, loc, Y);
    assert LowerExpr(ctx, loc, EBin(OpMod, Y, ONE)) == Low(Un(Cast(TI), REM_TREE), false);
  }

  lemma TestLowers()
    ensures LowerExpr(LeakCtx(), BeforeIf(), LEAK_TEST) == Low(Un(Cmp(Gt, CI(100)), X0), true)
  {
    var ctx, loc := LeakCtx(), BeforeIf();
    assert LowerOperand(ctx, loc, X) == Tree(X0, true);
    assert LowerOperand(ctx, loc, EConst(KInt(100))) == Scalar(CI(100), true);
    assert LowerLink(ctx, loc, X, CGt, EConst(KInt(100))) == Low(Un(Cmp(Gt, CI(100)), X0), true);
    assert LowerCompare(ctx, loc, X, LEAK_TEST.chain)
        == LowerChain(ctx, loc, Un(Cmp(Gt, CI(100)), X0), true, EConst(KInt(100)), CNil);
  }

  lemma LeakHasNoDocs()
    ensures DropDocs(LEAK) == LEAK
  {
    assert DropDocs(LEAK_REST) == LEAK_REST;
    assert DropDocs(LEAK.tl) == LEAK.tl;
  }

  lemma HalfLowers()
    ensures LowerExpr(LeakCtx(), Assigning(LeakCtx(), NoLocals(), "y", HALF), HALF) == Low(HALF_TREE, true)
    ensures Assigned(LeakCtx(), NoLocals(), "y", HALF, HALF_TREE) == BeforeIf()
  {
    var ctx := LeakCtx();
    assert LowerOperand(ctx, Assigning(ctx, NoLocals(), "y", HALF), X) == Tree(X0, true);
  }

  lemma LeakLowers()
    ensures Transpile(map[], FunDef(["x"], Def(LEAK), map[]), None, map[TRACE_INPUT := true]) == Low(LEAK_TREE, false)
  {
    hide LowerExpr, Assigned, IsInt;
    var ctx := LeakCtx();
    var rest := LEAK.tl;
    BranchLowers();
    RemainderLowers();
    TestLowers();
    HalfLowers();
    LeakHasNoDocs();
    assert BeforeIf().(ints := map["y" := true]) == AfterIf();
    assert Append(SNil, LEAK_REST) == LEAK_REST;
    assert LowerBlock(ctx, BeforeIf(), rest).res == Value(LEAK_TREE, false);
    assert EntryCtx(map[], FunDef(["x"], Def(LEAK), map[]), None, map[TRACE_INPUT := true]) == ctx;
  }

  /** `local_int` is not restored after the branch as `locals` is, so the `%` after it is cast to Int64:
      for x = 1 Python returns 0.5 and the engine 0. */
  lemma LeakedIntness(K: Kernels, fuel: nat)
    ensures
      var fd := FunDef(["x"], Def(LEAK), map[]);
      var sch := Schema(map[TRACE_INPUT := TI], []);
      var row := Row(map[TRACE_INPUT := VI(1)], []);
      && Transpile(map[], fd, None, map[TRACE_INPUT := true]) == Low(LEAK_TREE, false)
      && Good(LEAK_TREE, sch)
      && PyBody(K, map[], FrameOf(fd, None, map[]), map["x" := PInt(1)], fd.body, fuel) == Some(PFloat(0.5))
      && Eval(K, LEAK_TREE, row) == VI(0)
  {
    LeakLowers();
    LeakRuns(K, fuel);
    LeakEvaluates(K);
  }

  lemma LeakTestRuns(K: Kernels, fr: PythonSubset.Frame, vars: map<string, PVal>, fuel: nat)
    requires "x" in vars && vars["x"] == PInt(1)
    ensures PyEval(K, map[], fr, vars, LEAK_TEST, fuel) == Some(PBool(false))
  {
    assert PyEval(K, map[], fr, vars, X, fuel) == Some(PInt(1));
    assert PyLink(K, map[], fr, vars, X, CGt, EConst(KInt(100)), fuel) == Some(false);
  }

  lemma LeakReturns(K: Kernels, fr: PythonSubset.Frame, vars: map<string, PVal>, fuel: nat)
    requires "y" in vars && vars["y"] == PFloat(0.5)
    ensures Exec(K, map[], fr, vars, LEAK_REST, fuel) == Returned(PFloat(0.5))
  {
    assert PyEval(K, map[], fr, vars, EBin(OpMod, Y, EConst(KInt(1))), fuel) == Some(PFloat(0.5));
  }

  lemma LeakRuns(K: Kernels, fuel: nat)
    ensures PyBody(K, map[], FrameOf(FunDef(["x"], Def(LEAK), map[]), None, map[]), map["x" := PInt(1)], Def(LEAK), fuel) == Some(PFloat(0.5))
  {
    var fr := FrameOf(FunDef(["x"], Def(LEAK), map[]), None, map[]);
    var v1 := map["x" := PInt(1)];
    var v2 := v1["y" := PFloat(0.5)];
    assert PyEval(K, map[], fr, v1, HALF, fuel) == Some(PFloat(0.5));
    LeakTestRuns(K, fr, v2, fuel);
    LeakReturns(K, fr, v2, fuel);
    assert Exec(K, map[], fr, v2, SNil, fuel) == Fell(v2);
    assert Exec(K, map[], fr, v2, LEAK.tl, fuel) == Returned(PFloat(0.5));
  }

  const QUOTIENT := Bin(Arith(Div), HALF_TREE, Lit(CI(1)))
  const FLOORED := Un(Unary(Floor), QUOTIENT)
  const PRODUCT := Bin(Arith(Mul), FLOORED, Lit(CI(1)))
  const ABOVE := Un(Cmp(Gt, CI(100)), X0)

  lemma RemainderTyped(sch: Schema)
    requires sch == Schema(map[TRACE_INPUT := TI], [])
    ensures TypeOf(REM_TREE, sch) == Some(Ty(false, TF)) && Exact(REM_TREE, sch)
  {
    assert TypeOf(HALF_TREE, sch) == Some(Ty(false, TF)) && Exact(HALF_TREE, sch);
    assert TypeOf(QUOTIENT, sch) == Some(Ty(false, TF)) && Exact(QUOTIENT, sch);
    assert TypeOf(FLOORED, sch) == Some(Ty(false, TF)) && Exact(FLOORED, sch);
    assert TypeOf(PRODUCT, sch) == Some(Ty(false, TF)) && Exact(PRODUCT, sch);
  }

  lemma RemainderEvaluates(K: Kernels, row: Row)
    requires row == Row(map[TRACE_INPUT := VI(1)], [])
    ensures Eval(K, REM_TREE, row) == VF(0.5)
  {
    assert Eval(K, HALF_TREE, row) == VF(0.5);
    assert Eval(K, QUOTIENT, row) == VF(0.5);
    assert Eval(K, FLOORED, row) == VF(0.0);
    assert Eval(K, PRODUCT, row) == VF(0.0);
  }

  lemma LeakEvaluates(K: Kernels)
    ensures Good(LEAK_TREE, Schema(map[TRACE_INPUT := TI], []))
    ensures Eval(K, LEAK_TREE, Row(map[TRACE_INPUT := VI(1)], [])) == VI(0)
  {
    var sch := Schema(map[TRACE_INPUT := TI], []);
    var row := Row(map[TRACE_INPUT := VI(1)], []);
    RemainderTyped(sch);
    RemainderEvaluates(K, row);
    assert TypeOf(Un(Cast(TI), REM_TREE), sch) == Some(Ty(false, TI)) && Exact(Un(Cast(TI), REM_TREE), sch);
    assert TypeOf(ABOVE, sch) == Some(Ty(false, TB)) && Exact(ABOVE, sch);
    assert Eval(K, Un(Cast(TI), REM_TREE), row) == VI(0);
    assert Eval(K, ABOVE, row) == VB(false);
  }

  // ---- a builtin's name that is a global ----------------------------------------------------------

  /** def round(x): return x + 1, a module-level function, and lambda x: round(x) if x > 0 else x */
  const STEP := FunDef(["x"], Lambda(EBin(OpAdd, X, ONE)), map[])
  const STEPS := map["step" := STEP]
  const POSITIVE := ECompare(X, CCons(CGt, EConst(KInt(0)), CNil))
  const ROUND_X := ECall("round", ECons(X, ENil), false)
  const SHADOWED := FunDef(["x"], Lambda(EIfExp(POSITIVE, ROUND_X, X)), map["round" := GFun("step")])
  const IS_POSITIVE := Un(Cmp(Gt, CI(0)), X0)
  const SHADOWED_TREE := Select(IS_POSITIVE, Un(Unary(Round), X0), X0)

  lemma ShadowedLowers()
    ensures Transpile(STEPS, SHADOWED, None, map[TRACE_INPUT := true]) == Low(SHADOWED_TREE, false)
  {
    var ctx, loc := EntryCtx(STEPS, SHADOWED, None, map[TRACE_INPUT := true]), NoLocals();
    assert LowerExpr(ctx, loc, X) == Low(X0, true) && LowerOperand(ctx, loc, X) == Tree(X0, true);
    assert LowerOperand(ctx, loc, EConst(KInt(0))) == Scalar(CI(0), true);
    assert LowerLink(ctx, loc, X, CGt, EConst(KInt(0))) == Low(IS_POSITIVE, true);
    assert LowerCompare(ctx, loc, X, POSITIVE.chain) == LowerChain(ctx, loc, IS_POSITIVE, true, EConst(KInt(0)), CNil);
    assert LowerExpr(ctx, loc, POSITIVE) == Low(IS_POSITIVE, true);
    assert LowerCall(ctx, loc, "round", ECons(X, ENil)) == Low(Un(Unary(Round), X0), false);
    assert LowerExpr(ctx, loc, ROUND_X) == Low(Un(Unary(Round), X0), false);
    assert LowerExpr(ctx, loc, SHADOWED.body.e) == Low(SHADOWED_TREE, false);
    assert LowerBody(ctx, SHADOWED.body) == LowerExpr(ctx, loc, SHADOWED.body.e);
  }

  lemma ShadowedRuns(K: Kernels, n: int, fuel: nat)
    requires fuel > 0
    ensures PyBody(K, STEPS, FrameOf(SHADOWED, None, map[]), map["x" := PInt(n)], SHADOWED.body, fuel) ==
            Some(PInt(if n > 0 then n + 1 else n))
  {
    var fr, vars := FrameOf(SHADOWED, None, map[]), map["x" := PInt(n)];
    assert PyEval(K, STEPS, fr, vars, X, fuel) == Some(PInt(n));
    assert PyLink(K, STEPS, fr, vars, X, CGt, EConst(KInt(0)), fuel) == Some(n > 0);
    assert PyEval(K, STEPS, fr, vars, POSITIVE, fuel) == Some(PBool(n > 0));
    if n > 0 {
      assert PyEvals(K, STEPS, fr, vars, ENil, fuel) == Some([]);
      assert [PInt(n)] + [] == [PInt(n)];
      assert PyEvals(K, STEPS, fr, vars, ECons(X, ENil), fuel) == Some([PInt(n)]);
      StepRuns(K, n, fuel - 1);
      assert "round" !in fr.own;
      assert PyEval(K, STEPS, fr, vars, ROUND_X, fuel) == Some(PInt(n + 1));
    }
    assert PyEval(K, STEPS, fr, vars, SHADOWED.body.e, fuel) == Some(PInt(if n > 0 then n + 1 else n));
  }

  lemma StepRuns(K: Kernels, n: int, fuel: nat)
    ensures PyCall(K, STEPS, "step", [PInt(n)], fuel) == Some(PInt(n + 1))
  {
    assert Bind(["x"], [PInt(n)]) == map["x" := PInt(n)];
    var fr, vars := FrameOf(STEP, None, map[]), map["x" := PInt(n)];
    assert PyEval(K, STEPS, fr, vars, X, fuel) == Some(PInt(n)) && PyEval(K, STEPS, fr, vars, ONE, fuel) == Some(PInt(1));
    assert PyEval(K, STEPS, fr, vars, EBin(OpAdd, X, ONE), fuel) == Some(PInt(n + 1));
  }

  lemma ShadowedTyped(sch: Schema)
    requires sch == Schema(map[TRACE_INPUT := TI], [])
    ensures Good(SHADOWED_TREE, sch)
  {
    assert TypeOf(X0, sch) == Some(Ty(false, TI)) && Exact(X0, sch);
    assert TypeOf(IS_POSITIVE, sch) == Some(Ty(false, TB)) && Exact(IS_POSITIVE, sch);
    assert TypeOf(Un(Unary(Round), X0), sch) == Some(Ty(false, TI)) && Exact(Un(Unary(Round), X0), sch);
  }

  /** A builtin is read by name before the function's globals, so a module's own `round` is lowered to the engine's. The
      two agree on an integer if and only if it is not positive: for x = 1 Python returns 2 and the engine 1. */
  lemma ShadowedBuiltin(K: Kernels, n: int, fuel: nat)
    requires fuel > 0
    ensures
      var sch := Schema(map[TRACE_INPUT := TI], []);
      var row := Row(map[TRACE_INPUT := VI(n)], []);
      var w := PyBody(K, STEPS, FrameOf(SHADOWED, None, map[]), map["x" := PInt(n)], SHADOWED.body, fuel);
      && Transpile(STEPS, SHADOWED, None, map[TRACE_INPUT := true]) == Low(SHADOWED_TREE, false)
      && Good(SHADOWED_TREE, sch) && w == Some(PInt(if n > 0 then n + 1 else n)) && Eval(K, SHADOWED_TREE, row) == VI(n)
      && (Same(w.value, Eval(K, SHADOWED_TREE, row)) <==> n <= 0)
  {
    ShadowedLowers();
    ShadowedRuns(K, n, fuel);
    var row := Row(map[TRACE_INPUT := VI(n)], []);
    assert Eval(K, X0, row) == VI(n) && Eval(K, IS_POSITIVE, row) == VB(n > 0);
    assert UnVal(K, Unary(Round), VI(n)) == VI(n);
    assert Eval(K, Un(Unary(Round), X0), row) == VI(n);
    ShadowedTyped(Schema(map[TRACE_INPUT := TI], []));
  }

  // ---- a string that reads as a number -----------------------------------------------------------

  /** def same(s, y): return s if y > 0 else s, and lambda x: same("12", x) */
  const S := EName("s")
  const TWELVE := EConst(KStr("12"))
  const SAME := FunDef(["s", "y"], Lambda(EIfExp(ECompare(Y, CCons(CGt, EConst(KInt(0)), CNil)), S, S)), map[])
  const SAMES := map["same" := SAME]
  const TEXT := FunDef(["x"], Lambda(ECall("same", ECons(TWELVE, ECons(X, ENil)), false)), map["same" := GFun("same")])
  const TEXT_TREE := Select(IS_POSITIVE, Lit(CS("12")), Lit(CS("12")))

  lemma TwelveReads()
    ensures IntText("12") == Some(12)
  {
    assert Trimmed("12") == "12";
    assert "12"[1..] == "2" && "2"[1..] == "";
    assert DigitsOf("", 12, true) == Some(12) && DigitsOf("2", 1, true) == Some(12) && DigitsOf("12", 0, false) == Some(12);
  }

  lemma TextLowers()
    ensures Transpile(SAMES, TEXT, None, map[TRACE_INPUT := true]) == Low(TEXT_TREE, true)
  {
    var ctx, loc := EntryCtx(SAMES, TEXT, None, map[TRACE_INPUT := true]), NoLocals();
    var args := ECons(TWELVE, ECons(X, ENil));
    assert LowerExpr(ctx, loc, X) == Low(X0, true) && LowerOperand(ctx, loc, X) == Tree(X0, true);
    assert LowerOperand(ctx, loc, TWELVE) == Scalar(CS("12"), true);
    assert [Tree(X0, true)] + [] == [Tree(X0, true)];
    assert LowerOperands(ctx, loc, ENil) == Some([]) && LowerOperands(ctx, loc, args.tl) == Some([Tree(X0, true)]);
    var os := [Scalar(CS("12"), true), Tree(X0, true)];
    assert [Scalar(CS("12"), true)] + [Tree(X0, true)] == os;
    assert LowerOperands(ctx, loc, args) == Some(os);
    SameLowers(ctx, os, args);
    assert NoneClaimed(ctx, loc, args) by { assert !Claimed(ctx, loc, TWELVE) && !Claimed(ctx, loc, X); }
    assert Inline(ctx, loc, "same", args) == Low(TEXT_TREE, true);
    assert LowerCall(ctx, loc, "same", args) == Low(TEXT_TREE, true);
    assert LowerBody(ctx, TEXT.body) == LowerExpr(ctx, loc, TEXT.body.e);
  }

  lemma SameLowers(ctx: Ctx, os: seq<Operand>, args: PyExprs)
    requires os == [Scalar(CS("12"), true), Tree(X0, true)] && Length(args) == 2
    ensures LowerBody(InlineCtx(ctx, NoLocals(), SAME, os, args), SAME.body) == Low(TEXT_TREE, true)
  {
    var ctx', loc := InlineCtx(ctx, NoLocals(), SAME, os, args), NoLocals();
    assert ArgTrees(os) == [Lit(CS("12")), X0];
    assert ["s", "y"][1..] == ["y"] && [Lit(CS("12")), X0][1..] == [X0];
    assert Bind(["y"], [X0]) == map["y" := X0];
    assert ctx'.bound == map["y" := X0]["s" := Lit(CS("12"))];
    assert LowerExpr(ctx', loc, S) == Low(Lit(CS("12")), true) && LowerExpr(ctx', loc, Y) == Low(X0, true);
    assert LowerOperand(ctx', loc, Y) == Tree(X0, true) && LowerOperand(ctx', loc, EConst(KInt(0))) == Scalar(CI(0), true);
    assert LowerLink(ctx', loc, Y, CGt, EConst(KInt(0))) == Low(IS_POSITIVE, true);
    assert LowerChain(ctx', loc, IS_POSITIVE, true, EConst(KInt(0)), CNil) == Low(IS_POSITIVE, true);
    assert LowerExpr(ctx', loc, SAME.body.e.test) == Low(IS_POSITIVE, true);
    assert LowerExpr(ctx', loc, SAME.body.e) == Low(TEXT_TREE, true);
  }

  lemma TextRuns(K: Kernels, fuel: nat)
    requires fuel > 0
    ensures PyBody(K, SAMES, FrameOf(TEXT, None, map[]), map["x" := PInt(1)], TEXT.body, fuel) == Some(PStr("12"))
  {
    var fr, vars := FrameOf(TEXT, None, map[]), map["x" := PInt(1)];
    var args := ECons(TWELVE, ECons(X, ENil));
    assert PyEval(K, SAMES, fr, vars, X, fuel) == Some(PInt(1)) && PyEval(K, SAMES, fr, vars, TWELVE, fuel) == Some(PStr("12"));
    assert [PInt(1)] + [] == [PInt(1)] && [PStr("12")] + [PInt(1)] == [PStr("12"), PInt(1)];
    assert PyEvals(K, SAMES, fr, vars, ENil, fuel) == Some([]) && PyEvals(K, SAMES, fr, vars, args.tl, fuel) == Some([PInt(1)]);
    assert PyEvals(K, SAMES, fr, vars, args, fuel) == Some([PStr("12"), PInt(1)]);
    SameRuns(K, fuel - 1);
    assert "same" !in fr.own;
    assert PyEval(K, SAMES, fr, vars, TEXT.body.e, fuel) == Some(PStr("12"));
  }

  lemma SameRuns(K: Kernels, fuel: nat)
    ensures PyCall(K, SAMES, "same", [PStr("12"), PInt(1)], fuel) == Some(PStr("12"))
  {
    var fr, vars := FrameOf(SAME, None, map[]), map["y" := PInt(1)]["s" := PStr("12")];
    assert ["s", "y"][1..] == ["y"] && [PStr("12"), PInt(1)][1..] == [PInt(1)];
    assert Bind(["y"], [PInt(1)]) == map["y" := PInt(1)];
    assert Bind(["s", "y"], [PStr("12"), PInt(1)]) == vars;
    assert PyEval(K, SAMES, fr, vars, Y, fuel) == Some(PInt(1)) && PyEval(K, SAMES, fr, vars, S, fuel) == Some(PStr("12"));
    assert PyLink(K, SAMES, fr, vars, Y, CGt, EConst(KInt(0)), fuel) == Some(true);
    assert PyEval(K, SAMES, fr, vars, SAME.body.e.test, fuel) == Some(PBool(true));
    assert PyEval(K, SAMES, fr, vars, SAME.body.e, fuel) == Some(PStr("12"));
  }

  /** The engine takes a string literal if and only if it reads as an integer, and the cell is then never the string. */
  lemma StringLiteralExact(K: Kernels, s: string, row: Row, sch: Schema)
    ensures TypeOf(Lit(CS(s)), sch).Some? <==> IntText(s).Some?
    ensures IntText(s).Some? ==> Eval(K, Lit(CS(s)), row) == VI(IntText(s).value)
    ensures !Same(PStr(s), Eval(K, Lit(CS(s)), row))
  {
    hide IntText;
  }

  /** A string argument of an inlined call is serialized as the integer it reads as: Python returns "12", the engine,
      which accepts the expression, 12. */
  lemma StringArgument(K: Kernels, fuel: nat)
    requires fuel > 0
    ensures
      var sch := Schema(map[TRACE_INPUT := TI], []);
      var row := Row(map[TRACE_INPUT := VI(1)], []);
      && Transpile(SAMES, TEXT, None, map[TRACE_INPUT := true]) == Low(TEXT_TREE, true)
      && TypeOf(TEXT_TREE, sch).Some? && !Exact(TEXT_TREE, sch)
      && PyBody(K, SAMES, FrameOf(TEXT, None, map[]), map["x" := PInt(1)], TEXT.body, fuel) == Some(PStr("12"))
      && Eval(K, TEXT_TREE, row) == VI(12)
  {
    TwelveReads();
    TextLowers();
    TextRuns(K, fuel);
    var row := Row(map[TRACE_INPUT := VI(1)], []);
    assert Eval(K, X0, row) == VI(1) && Eval(K, IS_POSITIVE, row) == VB(true) && Eval(K, Lit(CS("12")), row) == VI(12);
    TextTyped(Schema(map[TRACE_INPUT := TI], []));
  }

  lemma TextTyped(sch: Schema)
    requires sch == Schema(map[TRACE_INPUT := TI], [])
    ensures TypeOf(TEXT_TREE, sch).Some? && !Exact(TEXT_TREE, sch)
  {
    TwelveReads();
    assert TypeOf(X0, sch) == Some(Ty(false, TI));
    assert TypeOf(IS_POSITIVE, sch) == Some(Ty(false, TB)) && TypeOf(Lit(CS("12")), sch) == Some(Ty(true, TI));
    assert !Exact(Lit(CS("12")), sch);
  }

  // ---- string methods --------------------------------------------------------------------------------

  /** lambda x: x.replace(what, by_) */
  function ReplaceFun(what: string, by_: string): FunDef {
    FunDef(["x"], Lambda(EMethod(X, "replace", ECons(EConst(KStr(what)), ECons(EConst(KStr(by_)), ENil)), false)), map[])
  }

  lemma ReplaceLowers(what: string, by_: string)
    ensures Transpile(map[], ReplaceFun(what, by_), None, map[TRACE_INPUT := false]) == Low(Un(StrReplace(what, by_, true), X0), true)
  {
    var fd := ReplaceFun(what, by_);
    var ctx, loc := EntryCtx(map[], fd, None, map[TRACE_INPUT := false]), NoLocals();
    var args := fd.body.e.args;
    assert LowerExpr(ctx, loc, X) == Low(X0, true);
    assert Constants(ctx, loc.exprs, ENil) == Some([]) && [CS(by_)] + [] == [CS(by_)] && [CS(what)] + [CS(by_)] == [CS(what), CS(by_)];
    assert Constants(ctx, loc.exprs, args.tl) == Some([CS(by_)]) && Constants(ctx, loc.exprs, args) == Some([CS(what), CS(by_)]);
    assert !Misread(ctx, loc.exprs, args.hd) && !Misread(ctx, loc.exprs, args.tl.hd) && !AnyMisread(ctx, loc.exprs, ENil);
    assert !AnyMisread(ctx, loc.exprs, args.tl);
    assert !AnyMisread(ctx, loc.exprs, args);
    assert MethodOf("replace") == Some(ReplaceMethod);
    assert LowerBody(ctx, fd.body) == LowerExpr(ctx, loc, fd.body.e);
  }

  lemma ReplaceRuns(K: Kernels, what: string, by_: string, s: string, fuel: nat)
    ensures var fd := ReplaceFun(what, by_);
            PyBody(K, map[], FrameOf(fd, None, map[]), map["x" := PStr(s)], fd.body, fuel) == Some(PStr(PyReplace(s, what, by_)))
  {
    var fd := ReplaceFun(what, by_);
    var fr, vars := FrameOf(fd, None, map[]), map["x" := PStr(s)];
    var args := fd.body.e.args;
    assert PyEval(K, map[], fr, vars, X, fuel) == Some(PStr(s));
    assert [PStr(by_)] + [] == [PStr(by_)] && [PStr(what)] + [PStr(by_)] == [PStr(what), PStr(by_)];
    assert PyEvals(K, map[], fr, vars, ENil, fuel) == Some([]) && PyEvals(K, map[], fr, vars, args.tl, fuel) == Some([PStr(by_)]);
    assert PyEvals(K, map[], fr, vars, args, fuel) == Some([PStr(what), PStr(by_)]);
    assert MethodOf("replace") == Some(ReplaceMethod);
    assert PyEval(K, map[], fr, vars, fd.body.e, fuel) == Some(PStr(PyReplace(s, what, by_)));
  }

  /** A replacement lowers faithfully if and only if the pattern is not empty, or nothing is put in its place: on "ab",
      `x.replace("", "-")` is "-a-b-" in Python and "ab" on the engine. */
  lemma ReplaceMethodExact(K: Kernels, what: string, by_: string, s: string, fuel: nat)
    ensures
      var fd := ReplaceFun(what, by_);
      var tree := Un(StrReplace(what, by_, true), X0);
      var w := PyBody(K, map[], FrameOf(fd, None, map[]), map["x" := PStr(s)], fd.body, fuel);
      var cell := Eval(K, tree, Row(map[TRACE_INPUT := VS(s)], []));
      && Transpile(map[], fd, None, map[TRACE_INPUT := false]) == Low(tree, true)
      && TypeOf(tree, Schema(map[TRACE_INPUT := TS], [])).Some? && w.Some?
      && (Same(w.value, cell) <==> what != "" || by_ == "")
      && (Exact(tree, Schema(map[TRACE_INPUT := TS], [])) <==> what != "" || by_ == "")
    ensures PyReplace("ab", "", "-") == "-a-b-" && EngineReplace("ab", "", "-", true) == "ab"
  {
    hide Replaced, Transpile, PyBody;
    var row := Row(map[TRACE_INPUT := VS(s)], []);
    ReplaceLowers(what, by_);
    ReplaceRuns(K, what, by_, s, fuel);
    ReplaceExact(s, what, by_);
    assert Eval(K, X0, row) == VS(s);
    assert "ab"[1..] == "b" && "b"[1..] == "";
    assert Interleaved("", "-") == "-" && Interleaved("b", "-") == "-b-" && Interleaved("ab", "-") == "-a-b-";
  }

  /** lambda x: x.lower(), and the other methods without arguments */
  function MapFun(name: string): FunDef { FunDef(["x"], Lambda(EMethod(X, name, ENil, false)), map[]) }

  lemma MapLowers(name: string, m: StrMapName)
    requires MethodOf(name) == Some(MapMethod(m))
    ensures Transpile(map[], MapFun(name), None, map[TRACE_INPUT := false]) == Low(Un(StrMap(m), X0), true)
  {
    var fd := MapFun(name);
    var ctx, loc := EntryCtx(map[], fd, None, map[TRACE_INPUT := false]), NoLocals();
    assert LowerExpr(ctx, loc, X) == Low(X0, true) && Constants(ctx, loc.exprs, ENil) == Some([]);
    assert !AnyMisread(ctx, loc.exprs, ENil);
    assert LowerExpr(ctx, loc, fd.body.e) == Low(Un(StrMap(m), X0), true);
    assert LowerBody(ctx, fd.body) == LowerExpr(ctx, loc, fd.body.e);
  }

  lemma MapRuns(K: Kernels, name: string, m: StrMapName, s: string, fuel: nat)
    requires MethodOf(name) == Some(MapMethod(m))
    ensures var fd := MapFun(name);
            PyBody(K, map[], FrameOf(fd, None, map[]), map["x" := PStr(s)], fd.body, fuel) == Some(PStr(PyMap(K.cases, m, s)))
  {
    hide PyMap;
    var fd := MapFun(name);
    var fr, vars := FrameOf(fd, None, map[]), map["x" := PStr(s)];
    assert PyEval(K, map[], fr, vars, X, fuel) == Some(PStr(s)) && PyEvals(K, map[], fr, vars, ENil, fuel) == Some([]);
    assert PyEval(K, map[], fr, vars, fd.body.e, fuel) == Some(PStr(PyMap(K.cases, m, s)));
  }

  /** A case or strip method lowers faithfully on a string if and only if it is one both sides treat alike: of ASCII and
      of characters that are their own case, and with no end that only Python strips. */
  lemma TextMethodExact(K: Kernels, name: string, m: StrMapName, s: string, fuel: nat)
    requires MethodOf(name) == Some(MapMethod(m))
    ensures
      var fd := MapFun(name);
      var tree := Un(StrMap(m), X0);
      var row := Row(map[TRACE_INPUT := VS(s)], []);
      var w := PyBody(K, map[], FrameOf(fd, None, map[]), map["x" := PStr(s)], fd.body, fuel);
      && Transpile(map[], fd, None, map[TRACE_INPUT := false]) == Low(tree, true)
      && Good(tree, Schema(map[TRACE_INPUT := TS], [])) && w.Some?
      && (Same(w.value, Eval(K, tree, row)) <==> SameText(K.cases, m, s))
      && (Alike(K, tree, row) <==> SameText(K.cases, m, s))
  {
    hide SameText, PyMap, EngineMap, Transpile, PyBody;
    var row, sch := Row(map[TRACE_INPUT := VS(s)], []), Schema(map[TRACE_INPUT := TS], []);
    MapLowers(name, m);
    MapRuns(K, name, m, s, fuel);
    assert TypeOf(X0, sch) == Some(Ty(false, TS)) && Exact(X0, sch);
    assert Eval(K, X0, row) == VS(s);
    TextExact(K.cases, m, s);
  }

  // ---- a global string ---------------------------------------------------------------------------------

  /** NAME = g in the module, and lambda x: x in NAME */
  function SearchFun(g: string): FunDef {
    FunDef(["x"], Lambda(ECompare(X, CCons(CIn, EName("NAME"), CNil))), map["NAME" := GStr(g)])
  }

  lemma SearchLowers(g: string)
    ensures Transpile(map[], SearchFun(g), None, map[TRACE_INPUT := false]) == Low(Un(IsIn(Chars(g), false), X0), false)
  {
    var fd := SearchFun(g);
    var ctx, loc := EntryCtx(map[], fd, None, map[TRACE_INPUT := false]), NoLocals();
    var t := Un(IsIn(Chars(g), false), X0);
    assert LowerExpr(ctx, loc, X) == Low(X0, true) && LowerOperand(ctx, loc, X) == Tree(X0, true);
    assert ListOf(ctx, loc.exprs, EName("NAME")) == Some(Chars(g)) && NamesString(ctx, EName("NAME"));
    assert LowerLink(ctx, loc, X, CIn, EName("NAME")) == Low(t, false);
    assert LowerChain(ctx, loc, t, false, EName("NAME"), CNil) == Low(t, false);
    assert LowerExpr(ctx, loc, fd.body.e) == LowerCompare(ctx, loc, X, fd.body.e.chain) == Low(t, false);
    assert LowerBody(ctx, fd.body) == LowerExpr(ctx, loc, fd.body.e);
  }

  lemma SearchRuns(K: Kernels, g: string, s: string, fuel: nat)
    ensures var fd := SearchFun(g);
            PyBody(K, map[], FrameOf(fd, None, map[]), map["x" := PStr(s)], fd.body, fuel) == Some(PBool(IsSubstring(s, g)))
  {
    hide IsSubstring;
    var fd := SearchFun(g);
    var fr, vars := FrameOf(fd, None, map[]), map["x" := PStr(s)];
    assert PyEval(K, map[], fr, vars, X, fuel) == Some(PStr(s)) && PyEval(K, map[], fr, vars, EName("NAME"), fuel) == Some(PStr(g));
    assert PyIn(K, map[], fr, vars, PStr(s), EName("NAME"), fuel) == Some(IsSubstring(s, g));
    assert PyLink(K, map[], fr, vars, X, CIn, EName("NAME"), fuel) == Some(IsSubstring(s, g));
    assert PyEval(K, map[], fr, vars, fd.body.e, fuel) == PyCompare(K, map[], fr, vars, X, fd.body.e.chain, fuel);
  }

  /** A search of a global string is lowered to membership in its characters: Python asks for a substring, so the two agree
      on a string if and only if it is one character or occurs nowhere. */
  lemma GlobalStringSearch(K: Kernels, g: string, s: string, fuel: nat)
    ensures
      var fd := SearchFun(g);
      var tree := Un(IsIn(Chars(g), false), X0);
      var w := PyBody(K, map[], FrameOf(fd, None, map[]), map["x" := PStr(s)], fd.body, fuel);
      && Transpile(map[], fd, None, map[TRACE_INPUT := false]) == Low(tree, false) && w.Some?
      && (g != "" ==> (Same(w.value, Eval(K, tree, Row(map[TRACE_INPUT := VS(s)], []))) <==> |s| == 1 || !IsSubstring(s, g)))
  {
    hide IsSubstring, Transpile, PyBody;
    SearchLowers(g);
    SearchRuns(K, g, s, fuel);
    GlobalStringExact(g, s);
    var row := Row(map[TRACE_INPUT := VS(s)], []);
    assert Eval(K, X0, row) == VS(s);
    if g != "" {
      assert Exprs.AllStrs(Chars(g)) && |Chars(g)| > 0;
      assert Eval(K, Un(IsIn(Chars(g), false), X0), row) == IsInVal(Chars(g), VS(s));
    }
  }

  // ---- a parameter named like a global ------------------------------------------------------------------

  /** exp = 2 in the module, and lambda exp: math.exp(exp) + exp */
  const EXP := EName("exp")
  const SHARED :=
    FunDef(["exp"], Lambda(EBin(OpAdd, EMethod(EName("math"), "exp", ECons(EXP, ENil), false), EXP)),
           map["math" := GMath, "exp" := GNum(CI(2))])
  const SHARED_TREE := Bin(Arith(Add), Un(Unary(Exp), X0), Lit(CI(2)))

  lemma SharedLowers()
    ensures Transpile(map[], SHARED, None, map[TRACE_INPUT := true]) == Low(SHARED_TREE, false)
  {
    var ctx, loc := EntryCtx(map[], SHARED, None, map[TRACE_INPUT := true]), NoLocals();
    var call := SHARED.body.e.left;
    assert LowerExpr(ctx, loc, EXP) == Low(X0, true);
    assert Constant(ctx, loc.exprs, EXP) == Some(CI(2)) && Misread(ctx, loc.exprs, EXP);
    assert LowerOperand(ctx, loc, EXP) == Scalar(CI(2), false);
    assert MathOf("exp") == Some(Exp);
    assert LowerExpr(ctx, loc, call) == Low(Un(Unary(Exp), X0), true);
    assert LowerOperand(ctx, loc, call) == Tree(Un(Unary(Exp), X0), true);
    assert LowerExpr(ctx, loc, SHARED.body.e) == Low(SHARED_TREE, false);
    assert LowerBody(ctx, SHARED.body) == LowerExpr(ctx, loc, SHARED.body.e);
  }

  lemma SharedRuns(K: Kernels, n: int, fuel: nat)
    ensures PyBody(K, map[], FrameOf(SHARED, None, map[]), map["exp" := PInt(n)], SHARED.body, fuel) ==
            Some(PFloat(K.real1(Exp, n as real) + n as real))
  {
    var fr, vars := FrameOf(SHARED, None, map[]), map["exp" := PInt(n)];
    var call := SHARED.body.e.left;
    assert PyEval(K, map[], fr, vars, EXP, fuel) == Some(PInt(n));
    assert [PInt(n)] + [] == [PInt(n)];
    assert PyEvals(K, map[], fr, vars, ENil, fuel) == Some([]) && PyEvals(K, map[], fr, vars, call.args, fuel) == Some([PInt(n)]);
    assert "math" !in fr.own && IsMath(fr, vars, EName("math")) && MathOf("exp") == Some(Exp);
    assert PyEval(K, map[], fr, vars, call, fuel) == Some(PFloat(K.real1(Exp, n as real)));
    assert PyEval(K, map[], fr, vars, SHARED.body.e, fuel) == Some(PFloat(K.real1(Exp, n as real) + n as real));
  }

  /** A name that is also an attribute's is among the globals, and a constant global is read before a parameter: the
      lowering computes exp(x) + 2 for exp(x) + x, which agree if and only if x is 2. */
  lemma SharedName(K: Kernels, n: int, fuel: nat)
    ensures
      var row := Row(map[TRACE_INPUT := VI(n)], []);
      var w := PyBody(K, map[], FrameOf(SHARED, None, map[]), map["exp" := PInt(n)], SHARED.body, fuel);
      && Transpile(map[], SHARED, None, map[TRACE_INPUT := true]) == Low(SHARED_TREE, false)
      && Good(SHARED_TREE, Schema(map[TRACE_INPUT := TI], []))
      && w == Some(PFloat(K.real1(Exp, n as real) + n as real))
      && Eval(K, SHARED_TREE, row) == VF(K.real1(Exp, n as real) + 2.0)
      && (Same(w.value, Eval(K, SHARED_TREE, row)) <==> n == 2)
  {
    SharedLowers();
    SharedRuns(K, n, fuel);
    var row := Row(map[TRACE_INPUT := VI(n)], []);
    var sch := Schema(map[TRACE_INPUT := TI], []);
    assert Eval(K, X0, row) == VI(n) && Eval(K, Un(Unary(Exp), X0), row) == VF(K.real1(Exp, n as real));
    assert TypeOf(X0, sch) == Some(Ty(false, TI)) && TypeOf(Un(Unary(Exp), X0), sch) == Some(Ty(false, TF));
    assert Exact(Un(Unary(Exp), X0), sch) && Exact(Lit(CI(2)), sch);
  }
}
