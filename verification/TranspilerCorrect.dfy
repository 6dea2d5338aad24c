/** Compiler correctness: a lowered function, run by the engine on a row, has the value Python returns. */
module TranspilerCorrect {
  import opened Options
  import opened Text
  import opened Exprs
  import opened PythonSubset
  import opened Transpiler
  import opened Agreement

  predicate IntLike(w: PVal) { w.PInt? || w.PNone? }

  /** A point of a lowering and the point of a run it mirrors: the same function, the same row. */
  datatype Point = Point(K: Kernels, ctx: Ctx, loc: Locals, fr: Frame, vars: map<string, PVal>, row: Row, sch: Schema,
                         fuel: nat)
  {
    function Py(e: PyExpr): Option<PVal> { PyEval(K, ctx.funs, fr, vars, e, fuel) }
    function Pys(es: PyExprs): Option<seq<PVal>> { PyEvals(K, ctx.funs, fr, vars, es, fuel) }
    function Cell(t: Expr): Val { Eval(K, t, row) }
    ghost predicate Agrees(w: PVal, t: Expr) { Holds(K, w, t, row, sch) }

    /** What the lowering knows of the run: every name's expression has the name's value, and an
        honest claim of int-ness is true. */
    ghost predicate Related() {
      && RowFits(row, sch)
      && fr.globals == ctx.globals && fr.rowParam == ctx.rowParam
      && vars.Keys == loc.exprs.Keys + ctx.bound.Keys
      && (forall id | id in loc.exprs :: Agrees(vars[id], loc.exprs[id]))
      && (forall id | id in ctx.bound && id !in loc.exprs :: Agrees(vars[id], ctx.bound[id]))
      && (forall id | id in loc.exprs && Flag(loc.honest, id) :: IntLike(vars[id]))
      && (forall id | id in ctx.bound && id !in loc.exprs && Flag(ctx.boundInt, id) :: IntLike(vars[id]))
      && vars.Keys <= fr.own
      && RowRelated()
      && (ctx.rowParam.Some? ==> ctx.columns.Some? && fr.row.Keys <= ctx.columns.value)
      && (forall id | Flag(ctx.boundInt, id) :: id in ctx.bound)
    }

    ghost predicate RowRelated() {
      ctx.columns.Some? ==>
        forall k | k in ctx.columns.value && k in fr.row ::
          && k in row.named && Agreement.Cell(fr.row[k], row.named[k])
          && (Flag(ctx.intInputs, k) ==> IntLike(fr.row[k]))
    }
  }

  // ---- constants and int-ness -------------------------------------------------------

  lemma {:induction false} ConstantHolds(p: Point, e: PyExpr)
    requires p.Related() && Constant(p.ctx, p.loc.exprs, e).Some? && !Misread(p.ctx, p.loc.exprs, e) && p.Py(e).Some?
    ensures p.Py(e).value == NumConst(Constant(p.ctx, p.loc.exprs, e).value)
  {
    match e
    case ENeg(x) => ConstantHolds(p, x);
    case _ =>
  }

  lemma {:induction false} ConstantsHold(p: Point, es: PyExprs)
    requires p.Related() && Constants(p.ctx, p.loc.exprs, es).Some? && !AnyMisread(p.ctx, p.loc.exprs, es) && p.Pys(es).Some?
    ensures |Constants(p.ctx, p.loc.exprs, es).value| == |p.Pys(es).value|
    ensures forall i | 0 <= i < |p.Pys(es).value| ::
              p.Pys(es).value[i] == NumConst(Constants(p.ctx, p.loc.exprs, es).value[i])
  {
    if es.ECons? {
      ConstantHolds(p, es.hd);
      ConstantsHold(p, es.tl);
    }
  }

  /** Honest int-ness is sound: such a subtree yields a Python int, or the None of a missing field. */
  lemma {:induction false} IntHolds(p: Point, e: PyExpr)
    requires p.Related() && HonestInt(p.ctx, p.loc, e) && p.Py(e).Some?
    ensures IntLike(p.Py(e).value)
    decreases ESize(e), 0
  {
    if Constant(p.ctx, p.loc.exprs, e).Some? {
      ConstantRead(p.ctx, p.loc.exprs, e);
      ConstantHolds(p, e);
    } else {
      match e
      case EName(id) =>
      case ESubscript(_, _) =>
      case EAttr(_, _) =>
      case EBin(op, l, r) =>
        IntHolds(p, l);
        IntHolds(p, r);
        PyBinIntLike(p.K, op, p.Py(l).value, p.Py(r).value);
      case ENeg(x) => IntHolds(p, x);
      case EIfExp(c, x, y) =>
        if p.Py(x).Some? { IntHolds(p, x); }
        if p.Py(y).Some? { IntHolds(p, y); }
      case ECall(f, args, _) => CallIntHolds(p, f, args);
      case _ =>
    }
  }

  lemma {:induction false} CallIntHolds(p: Point, f: string, args: PyExprs)
    requires var e := ECall(f, args, false);
             p.Related() && IsInt(p.ctx, p.loc.exprs, p.loc.honest, e) && Unshadowed(p.ctx, p.loc.exprs, e) && p.Py(e).Some?
    ensures IntLike(p.Py(ECall(f, args, false)).value)
    decreases EsSize(args), 2
  {
    var b := BuiltinOf(f).value;
    if b != BInt && b != BLen {
      IntsHold(p, args);
      var vs := p.Pys(args).value;
      if |vs| >= 2 { ExtremeIntLike(b.BMin?, vs[0], vs[1..]); }
    }
  }

  lemma {:induction false} IntsHold(p: Point, es: PyExprs)
    requires p.Related() && AllInt(p.ctx, p.loc.exprs, p.loc.honest, es) && AllUnshadowed(p.ctx, p.loc.exprs, es) && p.Pys(es).Some?
    ensures forall i | 0 <= i < |p.Pys(es).value| :: IntLike(p.Pys(es).value[i])
    decreases EsSize(es), 1
  {
    if es.ECons? {
      IntHolds(p, es.hd);
      IntsHold(p, es.tl);
    }
  }

  // ---- folds that stop early ------------------------------------------------------------

  /** Once an `and` is false, or an `or` true, the operands after it do not matter. */
  lemma {:induction false} BoolAbsorbs(p: Point, loc: Locals, isAnd: bool, out: Expr, plain: bool, rest: PyExprs)
    requires RowFits(p.row, p.sch) && p.Cell(out) == VB(!isAnd)
    requires LowerBool(p.ctx, loc, isAnd, out, plain, rest).Low?
    requires Fits(p.K, LowerBool(p.ctx, loc, isAnd, out, plain, rest).e, p.row, p.sch)
    ensures p.Cell(LowerBool(p.ctx, loc, isAnd, out, plain, rest).e) == VB(!isAnd)
    ensures Fits(p.K, out, p.row, p.sch)
    decreases rest
  {
    if rest.ECons? {
      var t := LowerExpr(p.ctx, loc, rest.hd);
      var out' := Bin(Logical(if isAnd then And else Or), out, t.e);
      BoolFits(p, loc, isAnd, out', plain && t.plain, rest.tl);
      FitsParts(p.K, out', p.row, p.sch);
      TypeSound(p.K, t.e, p.row, p.sch);
      BoolAbsorbs(p, loc, isAnd, out', plain && t.plain, rest.tl);
    }
  }

  lemma {:induction false} BoolFits(p: Point, loc: Locals, isAnd: bool, out: Expr, plain: bool, rest: PyExprs)
    requires LowerBool(p.ctx, loc, isAnd, out, plain, rest).Low?
    requires Fits(p.K, LowerBool(p.ctx, loc, isAnd, out, plain, rest).e, p.row, p.sch)
    ensures Fits(p.K, out, p.row, p.sch)
    ensures LowerBool(p.ctx, loc, isAnd, out, plain, rest).plain ==> plain
    decreases rest
  {
    if rest.ECons? {
      var t := LowerExpr(p.ctx, loc, rest.hd);
      var out' := Bin(Logical(if isAnd then And else Or), out, t.e);
      BoolFits(p, loc, isAnd, out', plain && t.plain, rest.tl);
      FitsParts(p.K, out', p.row, p.sch);
    }
  }

  lemma {:induction false} ChainAbsorbs(p: Point, loc: Locals, out: Expr, plain: bool, l: PyExpr, chain: PyChain)
    requires RowFits(p.row, p.sch) && p.Cell(out) == VB(false)
    requires LowerChain(p.ctx, loc, out, plain, l, chain).Low?
    requires Fits(p.K, LowerChain(p.ctx, loc, out, plain, l, chain).e, p.row, p.sch)
    ensures p.Cell(LowerChain(p.ctx, loc, out, plain, l, chain).e) == VB(false)
    decreases chain
  {
    if chain.CCons? {
      var t := LowerLink(p.ctx, loc, l, chain.cop, chain.right);
      var out' := Bin(Logical(And), out, t.e);
      ChainFits(p, loc, out', plain && t.plain, chain.right, chain.tail);
      FitsParts(p.K, out', p.row, p.sch);
      TypeSound(p.K, t.e, p.row, p.sch);
      ChainAbsorbs(p, loc, out', plain && t.plain, chain.right, chain.tail);
    }
  }

  lemma {:induction false} ChainFits(p: Point, loc: Locals, out: Expr, plain: bool, l: PyExpr, chain: PyChain)
    requires LowerChain(p.ctx, loc, out, plain, l, chain).Low?
    requires Fits(p.K, LowerChain(p.ctx, loc, out, plain, l, chain).e, p.row, p.sch)
    ensures Fits(p.K, out, p.row, p.sch)
    ensures LowerChain(p.ctx, loc, out, plain, l, chain).plain ==> plain
    decreases chain
  {
    if chain.CCons? {
      var t := LowerLink(p.ctx, loc, l, chain.cop, chain.right);
      var out' := Bin(Logical(And), out, t.e);
      ChainFits(p, loc, out', plain && t.plain, chain.right, chain.tail);
      FitsParts(p.K, out', p.row, p.sch);
    }
  }

  // ---- expressions ---------------------------------------------------------------------

  lemma {:induction false} OperandCorrect(p: Point, e: PyExpr)
    requires p.Related() && p.Py(e).Some?
    requires !LowerOperand(p.ctx, p.loc, e).NoOperand? && Plain(LowerOperand(p.ctx, p.loc, e))
    ensures OperandHolds(p.K, p.Py(e).value, LowerOperand(p.ctx, p.loc, e), p.row, p.sch)
    decreases MAX_INLINE_DEPTH - p.ctx.depth, 0, ESize(e), 2
  {
    if Constant(p.ctx, p.loc.exprs, e).Some? {
      ConstantHolds(p, e);
    } else {
      var t := LowerExpr(p.ctx, p.loc, e).e;
      if Fits(p.K, t, p.row, p.sch) { ExprCorrect(p, e); }
    }
  }

  lemma {:induction false} OperandsCorrect(p: Point, es: PyExprs)
    requires p.Related() && p.Pys(es).Some?
    requires LowerOperands(p.ctx, p.loc, es).Some? && AllPlain(LowerOperands(p.ctx, p.loc, es).value)
    ensures forall i | 0 <= i < Length(es) ::
              OperandHolds(p.K, p.Pys(es).value[i], LowerOperands(p.ctx, p.loc, es).value[i], p.row, p.sch)
    decreases MAX_INLINE_DEPTH - p.ctx.depth, 0, EsSize(es), 3, es
  {
    hide LowerOperand, OperandHolds, PyEval, LowerExpr;
    if es.ECons? {
      var os := LowerOperands(p.ctx, p.loc, es).value;
      var tl := LowerOperands(p.ctx, p.loc, es.tl).value;
      assert Plain(os[0]);
      forall i | 0 <= i < |tl| ensures Plain(tl[i]) { assert os[i + 1] == tl[i]; }
      OperandCorrect(p, es.hd);
      OperandsCorrect(p, es.tl);
    }
  }

  /** The lowering of an expression that uses no unfaithful branch, once the engine accepts it, has the
      value Python computes. */
  lemma {:induction false} ExprCorrect(p: Point, e: PyExpr)
    requires p.Related() && p.Py(e).Some?
    requires LowerExpr(p.ctx, p.loc, e).Low? && LowerExpr(p.ctx, p.loc, e).plain
    requires Fits(p.K, LowerExpr(p.ctx, p.loc, e).e, p.row, p.sch)
    ensures Same(p.Py(e).value, p.Cell(LowerExpr(p.ctx, p.loc, e).e))
    decreases MAX_INLINE_DEPTH - p.ctx.depth, 0, ESize(e), 1
  {
    hide TypeOf, Exact, IsInt, BinTree, HonestInt, Claimed, Unshadowed, LowerCall;
    hide LowerCompare, LowerBool, PyBoolRest, PyCompare, MethodTree, Constants;
    match e
    case EConst(_) =>
    case EName(_) =>
    case ESubscript(_, _) => FieldCorrect(p, e);
    case EAttr(_, _) => FieldCorrect(p, e);
    case EBin(op, l, r) => BinCorrect(p, op, l, r);
    case ENeg(x) => NegCorrect(p, x);
    case ENot(x) => NotCorrect(p, x);
    case EBool(isAnd, first, rest) =>
      var a := LowerExpr(p.ctx, p.loc, first);
      BoolFits(p, p.loc, isAnd, a.e, a.plain, rest);
      ExprCorrect(p, first);
      BoolCorrect(p, isAnd, a.e, a.plain, p.Py(first).value, rest);
    case ECompare(l, chain) => CompareCorrect(p, l, chain);
    case EIfExp(c, x, y) => IfExpCorrect(p, c, x, y);
    case ECall(f, args, _) => CallCorrect(p, f, args);
    case EMethod(target, name, args, _) =>
      if target.EName? && target.id in p.ctx.globals && p.ctx.globals[target.id].GMath? {
        MathCorrect(p, target, name, args);
      } else {
        MethodCorrect(p, target, name, args);
      }
    case EList(_) =>
    case EOther =>
  }

  lemma {:induction false} NotCorrect(p: Point, x: PyExpr)
    requires p.Related() && p.Py(ENot(x)).Some?
    requires LowerExpr(p.ctx, p.loc, ENot(x)).Low? && LowerExpr(p.ctx, p.loc, ENot(x)).plain
    requires Fits(p.K, LowerExpr(p.ctx, p.loc, ENot(x)).e, p.row, p.sch)
    ensures Same(p.Py(ENot(x)).value, p.Cell(LowerExpr(p.ctx, p.loc, ENot(x)).e))
    decreases MAX_INLINE_DEPTH - p.ctx.depth, 0, ESize(x), 3
  {
    hide Constant, IsInt, Eval, TypeOf, Exact;
    var t := LowerExpr(p.ctx, p.loc, x).e;
    FitsParts(p.K, Un(Not, t), p.row, p.sch);
    ExprCorrect(p, x);
    NotTyped(p, x, t);
  }

  lemma NotTyped(p: Point, x: PyExpr, t: Expr)
    requires RowFits(p.row, p.sch) && Fits(p.K, Un(Not, t), p.row, p.sch) && p.Py(ENot(x)).Some? && p.Py(x).Some?
    requires Same(p.Py(x).value, p.Cell(t))
    ensures Same(p.Py(ENot(x)).value, p.Cell(Un(Not, t)))
  {
    hide Exact;
    TypeSound(p.K, t, p.row, p.sch);
    NotHolds(p.K, p.Py(x).value, p.Cell(t));
  }

  lemma {:induction false} IfExpCorrect(p: Point, c: PyExpr, x: PyExpr, y: PyExpr)
    requires p.Related() && p.Py(EIfExp(c, x, y)).Some?
    requires LowerExpr(p.ctx, p.loc, EIfExp(c, x, y)).Low? && LowerExpr(p.ctx, p.loc, EIfExp(c, x, y)).plain
    requires Fits(p.K, LowerExpr(p.ctx, p.loc, EIfExp(c, x, y)).e, p.row, p.sch)
    ensures Same(p.Py(EIfExp(c, x, y)).value, p.Cell(LowerExpr(p.ctx, p.loc, EIfExp(c, x, y)).e))
    decreases MAX_INLINE_DEPTH - p.ctx.depth, 0, ESize(c) + ESize(x) + ESize(y), 3
  {
    var t := LowerExpr(p.ctx, p.loc, EIfExp(c, x, y)).e;
    FitsParts(p.K, t, p.row, p.sch);
    ExprCorrect(p, c);
    TypeSound(p.K, t.cond, p.row, p.sch);
    TruthHolds(p.Py(c).value, p.Cell(t.cond));
    var taken := Truthy(p.Py(c).value).value;
    if taken { ExprCorrect(p, x); } else { ExprCorrect(p, y); }
    SelectHolds(p.K, t.cond, t.a, t.b, taken, p.Py(EIfExp(c, x, y)).value, p.row, p.sch);
  }

  lemma FieldCorrect(p: Point, e: PyExpr)
    requires p.Related() && PyField(p.fr, p.vars, e).Some? && LowerField(p.ctx, e).Low?
    ensures Same(PyField(p.fr, p.vars, e).value, p.Cell(LowerField(p.ctx, e).e))
  {
    var k := RowKey(p.ctx.rowParam, e).value;
    CellSame(p.fr.row[k], p.row.named[k]);
  }

  lemma {:induction false} BinCorrect(p: Point, op: PyBinOp, l: PyExpr, r: PyExpr)
    requires p.Related() && p.Py(EBin(op, l, r)).Some?
    requires LowerExpr(p.ctx, p.loc, EBin(op, l, r)).Low? && LowerExpr(p.ctx, p.loc, EBin(op, l, r)).plain
    requires Fits(p.K, LowerExpr(p.ctx, p.loc, EBin(op, l, r)).e, p.row, p.sch)
    ensures Same(p.Py(EBin(op, l, r)).value, p.Cell(LowerExpr(p.ctx, p.loc, EBin(op, l, r)).e))
    decreases MAX_INLINE_DEPTH - p.ctx.depth, 0, ESize(l) + ESize(r), 3
  {
    OperandCorrect(p, l);
    OperandCorrect(p, r);
    var bothInt := IsInt(p.ctx, p.loc.exprs, p.loc.ints, l) && IsInt(p.ctx, p.loc.exprs, p.loc.ints, r);
    if op == OpMod && bothInt {
      IntHolds(p, l);
      IntHolds(p, r);
    }
    BinHolds(p.K, op, LowerOperand(p.ctx, p.loc, l), LowerOperand(p.ctx, p.loc, r), bothInt,
             p.Py(l).value, p.Py(r).value, p.row, p.sch);
  }

  lemma {:induction false} NegCorrect(p: Point, x: PyExpr)
    requires p.Related() && p.Py(ENeg(x)).Some?
    requires LowerExpr(p.ctx, p.loc, ENeg(x)).Low? && LowerExpr(p.ctx, p.loc, ENeg(x)).plain
    requires Fits(p.K, LowerExpr(p.ctx, p.loc, ENeg(x)).e, p.row, p.sch)
    ensures Same(p.Py(ENeg(x)).value, p.Cell(LowerExpr(p.ctx, p.loc, ENeg(x)).e))
    decreases MAX_INLINE_DEPTH - p.ctx.depth, 0, ESize(x), 3
  {
    OperandCorrect(p, x);
    var o := LowerOperand(p.ctx, p.loc, x);
    if o.Tree? {
      var r := Number(p.Py(x).value);
      FitsParts(p.K, Bin(Arith(Mul), o.t, Lit(CI(-1))), p.row, p.sch);
      BinNum(p.K, Mul, o.t, r, Lit(CI(-1)), -1.0, p.row);
      assert r * -1.0 == -r;
    }
  }

  lemma {:induction false} BoolCorrect(p: Point, isAnd: bool, out: Expr, plain: bool, a: PVal, rest: PyExprs)
    requires p.Related() && Same(a, p.Cell(out))
    requires PyBoolRest(p.K, p.ctx.funs, p.fr, p.vars, isAnd, a, rest, p.fuel).Some?
    requires LowerBool(p.ctx, p.loc, isAnd, out, plain, rest).Low?
    requires LowerBool(p.ctx, p.loc, isAnd, out, plain, rest).plain
    requires Fits(p.K, LowerBool(p.ctx, p.loc, isAnd, out, plain, rest).e, p.row, p.sch)
    ensures Same(PyBoolRest(p.K, p.ctx.funs, p.fr, p.vars, isAnd, a, rest, p.fuel).value,
                 p.Cell(LowerBool(p.ctx, p.loc, isAnd, out, plain, rest).e))
    decreases MAX_INLINE_DEPTH - p.ctx.depth, 0, EsSize(rest), 3
  {
    hide Constant, IsInt, Exact, LowerExpr, PyEval;
    if rest.ECons? {
      var t := LowerExpr(p.ctx, p.loc, rest.hd);
      var out' := Bin(Logical(if isAnd then And else Or), out, t.e);
      BoolFits(p, p.loc, isAnd, out', plain && t.plain, rest.tl);
      FitsParts(p.K, out', p.row, p.sch);
      TypeSound(p.K, out, p.row, p.sch);
      TypeSound(p.K, t.e, p.row, p.sch);
      TruthHolds(a, p.Cell(out));
      if Truthy(a).value != isAnd {
        BoolAbsorbs(p, p.loc, isAnd, out, plain, rest);
      } else {
        ExprCorrect(p, rest.hd);
        var b := p.Py(rest.hd).value;
        assert Truthy(b).Some?;
        TruthHolds(b, p.Cell(t.e));
        BoolCorrect(p, isAnd, out', plain && t.plain, b, rest.tl);
      }
    }
  }

  lemma {:induction false} CompareCorrect(p: Point, l: PyExpr, chain: PyChain)
    requires p.Related() && PyCompare(p.K, p.ctx.funs, p.fr, p.vars, l, chain, p.fuel).Some?
    requires LowerCompare(p.ctx, p.loc, l, chain).Low? && LowerCompare(p.ctx, p.loc, l, chain).plain
    requires Fits(p.K, LowerCompare(p.ctx, p.loc, l, chain).e, p.row, p.sch)
    ensures Same(PyCompare(p.K, p.ctx.funs, p.fr, p.vars, l, chain, p.fuel).value,
                 p.Cell(LowerCompare(p.ctx, p.loc, l, chain).e))
    decreases MAX_INLINE_DEPTH - p.ctx.depth, 0, ESize(l) + ChainSize(chain), 5
  {
    hide Eval, TypeOf, Exact, Constant, IsInt, LowerLink, PyLink;
    var t := LowerLink(p.ctx, p.loc, l, chain.cop, chain.right);
    ChainFits(p, p.loc, t.e, t.plain, chain.right, chain.tail);
    LinkCorrect(p, l, chain.cop, chain.right);
    var b := PyLink(p.K, p.ctx.funs, p.fr, p.vars, l, chain.cop, chain.right, p.fuel).value;
    if !b {
      ChainAbsorbs(p, p.loc, t.e, t.plain, chain.right, chain.tail);
    } else {
      ChainCorrect(p, t.e, t.plain, chain.right, chain.tail);
    }
  }

  lemma {:induction false} ChainCorrect(p: Point, out: Expr, plain: bool, l: PyExpr, chain: PyChain)
    requires p.Related() && p.Cell(out) == VB(true)
    requires chain.CCons? ==> PyCompare(p.K, p.ctx.funs, p.fr, p.vars, l, chain, p.fuel).Some?
    requires LowerChain(p.ctx, p.loc, out, plain, l, chain).Low? && LowerChain(p.ctx, p.loc, out, plain, l, chain).plain
    requires Fits(p.K, LowerChain(p.ctx, p.loc, out, plain, l, chain).e, p.row, p.sch)
    ensures var v := p.Cell(LowerChain(p.ctx, p.loc, out, plain, l, chain).e);
            if chain.CNil? then v == VB(true)
            else Same(PyCompare(p.K, p.ctx.funs, p.fr, p.vars, l, chain, p.fuel).value, v)
    decreases MAX_INLINE_DEPTH - p.ctx.depth, 0, ESize(l) + ChainSize(chain), 4
  {
    hide TypeOf, Exact, Constant, IsInt, LowerLink, PyLink;
    if chain.CCons? {
      var t := LowerLink(p.ctx, p.loc, l, chain.cop, chain.right);
      var out' := Bin(Logical(And), out, t.e);
      ChainFits(p, p.loc, out', plain && t.plain, chain.right, chain.tail);
      FitsParts(p.K, out', p.row, p.sch);
      LinkCorrect(p, l, chain.cop, chain.right);
      var b := PyLink(p.K, p.ctx.funs, p.fr, p.vars, l, chain.cop, chain.right, p.fuel).value;
      if !b {
        ChainAbsorbs(p, p.loc, out', plain && t.plain, chain.right, chain.tail);
      } else {
        ChainCorrect(p, out', plain && t.plain, chain.right, chain.tail);
      }
    }
  }

  lemma {:induction false} LinkCorrect(p: Point, l: PyExpr, op: PyCmpOp, r: PyExpr)
    requires p.Related() && PyLink(p.K, p.ctx.funs, p.fr, p.vars, l, op, r, p.fuel).Some?
    requires LowerLink(p.ctx, p.loc, l, op, r).Low? && LowerLink(p.ctx, p.loc, l, op, r).plain
    requires Fits(p.K, LowerLink(p.ctx, p.loc, l, op, r).e, p.row, p.sch)
    ensures p.Cell(LowerLink(p.ctx, p.loc, l, op, r).e)
            == VB(PyLink(p.K, p.ctx.funs, p.fr, p.vars, l, op, r, p.fuel).value)
    decreases MAX_INLINE_DEPTH - p.ctx.depth, 0, ESize(l) + ESize(r), 3
  {
    hide Eval, TypeOf, Exact, Constant, IsInt, LowerMember, LowerOrder, LowerNullTest;
    match op
    case CIn => MemberCorrect(p, l, r, false);
    case CNotIn => MemberCorrect(p, l, r, true);
    case CIs => NullTestCorrect(p, l, r, true);
    case CIsNot => NullTestCorrect(p, l, r, false);
    case _ => OrderCorrect(p, l, op, r);
  }

  lemma {:induction false} OrderCorrect(p: Point, l: PyExpr, op: PyCmpOp, r: PyExpr)
    requires p.Related() && CmpOf(op).Some?
    requires PyLink(p.K, p.ctx.funs, p.fr, p.vars, l, op, r, p.fuel).Some?
    requires LowerOrder(p.ctx, p.loc, l, CmpOf(op).value, r).Low?
    requires LowerOrder(p.ctx, p.loc, l, CmpOf(op).value, r).plain
    requires Fits(p.K, LowerOrder(p.ctx, p.loc, l, CmpOf(op).value, r).e, p.row, p.sch)
    ensures p.Cell(LowerOrder(p.ctx, p.loc, l, CmpOf(op).value, r).e)
            == VB(PyLink(p.K, p.ctx.funs, p.fr, p.vars, l, op, r, p.fuel).value)
    decreases MAX_INLINE_DEPTH - p.ctx.depth, 0, ESize(l) + ESize(r), 2
  {
    hide Eval, TypeOf, Exact, Constant, IsInt, LinkTree, LowerExpr, PyEval, PyLink, LowerOrder, LowerOperand;
    OrderParts(p, l, op, r);
    OperandCorrect(p, l);
    OperandCorrect(p, r);
    LinkHolds(p.K, CmpOf(op).value, LowerOperand(p.ctx, p.loc, l), LowerOperand(p.ctx, p.loc, r),
              p.Py(l).value, p.Py(r).value, p.row, p.sch);
  }

  /** What an ordering link is made of, lowered and run. */
  lemma OrderParts(p: Point, l: PyExpr, op: PyCmpOp, r: PyExpr)
    requires CmpOf(op).Some? && PyLink(p.K, p.ctx.funs, p.fr, p.vars, l, op, r, p.fuel).Some?
    requires LowerOrder(p.ctx, p.loc, l, CmpOf(op).value, r).Low?
    ensures p.Py(l).Some? && p.Py(r).Some?
    ensures PyLink(p.K, p.ctx.funs, p.fr, p.vars, l, op, r, p.fuel) == PyCmp(CmpOf(op).value, p.Py(l).value, p.Py(r).value)
    ensures var x, y := LowerOperand(p.ctx, p.loc, l), LowerOperand(p.ctx, p.loc, r);
            && !x.NoOperand? && !y.NoOperand? && LinkTree(CmpOf(op).value, x, y).Some?
            && LowerOrder(p.ctx, p.loc, l, CmpOf(op).value, r) == Low(LinkTree(CmpOf(op).value, x, y).value, Plain(x) && Plain(y))
  {
    hide PyEval, LowerOperand, PyCmp, LinkTree;
  }

  lemma {:induction false} NullTestCorrect(p: Point, l: PyExpr, r: PyExpr, missing: bool)
    requires p.Related() && p.Py(l).Some? && p.Py(r).Some?
    requires LowerNullTest(p.ctx, p.loc, l, r, missing).Low? && LowerNullTest(p.ctx, p.loc, l, r, missing).plain
    requires Fits(p.K, LowerNullTest(p.ctx, p.loc, l, r, missing).e, p.row, p.sch)
    ensures p.Cell(LowerNullTest(p.ctx, p.loc, l, r, missing).e)
            == VB((p.Py(l).value == p.Py(r).value) == missing)
    decreases MAX_INLINE_DEPTH - p.ctx.depth, 0, ESize(l) + ESize(r), 2
  {
    hide Constant, IsInt, Eval, TypeOf, Exact, LowerOperand;
    var x := if l == EConst(KNone) then r else l;
    OperandCorrect(p, x);
    var t := LowerOperand(p.ctx, p.loc, x).t;
    FitsParts(p.K, Un(IsNull(missing), t), p.row, p.sch);
    NullTyped(p, x, t, missing);
  }

  lemma NullTyped(p: Point, x: PyExpr, t: Expr, missing: bool)
    requires Fits(p.K, Un(IsNull(missing), t), p.row, p.sch) && p.Py(x).Some? && Holds(p.K, p.Py(x).value, t, p.row, p.sch)
    ensures p.Cell(Un(IsNull(missing), t)) == VB((p.Py(x).value == PNone) == missing)
    ensures p.Py(EConst(KNone)) == Some(PNone)
  {
    FitsParts(p.K, Un(IsNull(missing), t), p.row, p.sch);
    IsNullVal(p.K, missing, p.Py(x).value, p.Cell(t));
  }

  lemma {:induction false} MemberCorrect(p: Point, l: PyExpr, r: PyExpr, negate: bool)
    requires p.Related() && p.Py(l).Some?
    requires PyIn(p.K, p.ctx.funs, p.fr, p.vars, p.Py(l).value, r, p.fuel).Some?
    requires LowerMember(p.ctx, p.loc, l, r, negate).Low? && LowerMember(p.ctx, p.loc, l, r, negate).plain
    requires Fits(p.K, LowerMember(p.ctx, p.loc, l, r, negate).e, p.row, p.sch)
    ensures p.Cell(LowerMember(p.ctx, p.loc, l, r, negate).e)
            == VB(PyIn(p.K, p.ctx.funs, p.fr, p.vars, p.Py(l).value, r, p.fuel).value != negate)
    decreases MAX_INLINE_DEPTH - p.ctx.depth, 0, ESize(l) + ESize(r), 2
  {
    OperandCorrect(p, l);
    match LowerOperand(p.ctx, p.loc, l)
    case Scalar(c, _) => SubstringCorrect(p, c.s, r, negate);
    case Tree(t, _) =>
      var cs := ListOf(p.ctx, p.loc.exprs, r).value;
      FitsParts(p.K, MemberTree(t, Some(cs), negate).value, p.row, p.sch);
      ListCorrect(p, t, cs, p.Py(l).value, r, negate);
  }

  /** `"sub" in value`. */
  lemma {:induction false} SubstringCorrect(p: Point, sub: string, r: PyExpr, negate: bool)
    requires p.Related() && PyIn(p.K, p.ctx.funs, p.fr, p.vars, PStr(sub), r, p.fuel).Some?
    requires LowerExpr(p.ctx, p.loc, r).Low? && LowerExpr(p.ctx, p.loc, r).plain
    requires
      var x := Un(StrPred(Contains, sub), LowerExpr(p.ctx, p.loc, r).e);
      Fits(p.K, if negate then Un(Not, x) else x, p.row, p.sch)
    ensures
      var x := Un(StrPred(Contains, sub), LowerExpr(p.ctx, p.loc, r).e);
      p.Cell(if negate then Un(Not, x) else x)
      == VB(PyIn(p.K, p.ctx.funs, p.fr, p.vars, PStr(sub), r, p.fuel).value != negate)
    decreases MAX_INLINE_DEPTH - p.ctx.depth, 0, ESize(r), 3
  {
    var t := LowerExpr(p.ctx, p.loc, r).e;
    var x := Un(StrPred(Contains, sub), t);
    if negate { FitsParts(p.K, Un(Not, x), p.row, p.sch); }
    FitsParts(p.K, x, p.row, p.sch);
    SubstringOf(p, sub, r);
    ExprCorrect(p, r);
    assert p.Cell(t) == VS(p.Py(r).value.s);
    ContainsVal(p.K, sub, p.Py(r).value.s);
    assert p.Cell(x) == VB(IsSubstring(sub, p.Py(r).value.s));
  }

  /** Only a string holds a substring: a display or a global list has no lowering as a value. */
  lemma SubstringOf(p: Point, sub: string, r: PyExpr)
    requires p.Related() && PyIn(p.K, p.ctx.funs, p.fr, p.vars, PStr(sub), r, p.fuel).Some?
    requires LowerExpr(p.ctx, p.loc, r).Low?
    ensures p.Py(r).Some? && p.Py(r).value.PStr?
    ensures PyIn(p.K, p.ctx.funs, p.fr, p.vars, PStr(sub), r, p.fuel) == Some(IsSubstring(sub, p.Py(r).value.s))
  {
  }

  lemma ListCorrect(p: Point, t: Expr, cs: seq<Const>, a: PVal, r: PyExpr, negate: bool)
    requires p.Related() && PyIn(p.K, p.ctx.funs, p.fr, p.vars, a, r, p.fuel).Some?
    requires p.Agrees(a, t) && ListOf(p.ctx, p.loc.exprs, r) == Some(cs) && !NamesString(p.ctx, r) && !ListMisread(p.ctx, p.loc.exprs, r)
    requires MemberTree(t, Some(cs), negate).Some? && Fits(p.K, MemberTree(t, Some(cs), negate).value, p.row, p.sch)
    ensures p.Cell(MemberTree(t, Some(cs), negate).value)
            == VB(PyIn(p.K, p.ctx.funs, p.fr, p.vars, a, r, p.fuel).value != negate)
  {
    var vs := if r.EList? then p.Pys(r.elts).value else ConstVals(p.ctx.globals[r.id].values).value;
    if r.EList? { ConstantsHold(p, r.elts); } else { ConstsAgree(p.ctx.globals[r.id].values); }
    MemberHolds(p.K, t, cs, vs, negate, a, p.row, p.sch);
  }

  lemma {:induction false} ConstsAgree(vs: seq<PyConst>)
    requires ConstsOf(vs).Some?
    ensures ConstVals(vs).Some? && |ConstVals(vs).value| == |ConstsOf(vs).value|
    ensures forall i | 0 <= i < |ConstsOf(vs).value| :: ConstVals(vs).value[i] == NumConst(ConstsOf(vs).value[i])
  {
    if vs != [] { ConstsAgree(vs[1..]); }
  }

  // ---- methods and calls -------------------------------------------------------------------

  lemma {:induction false} MathCorrect(p: Point, target: PyExpr, name: string, args: PyExprs)
    requires p.Related() && p.Py(EMethod(target, name, args, false)).Some?
    requires target.EName? && target.id in p.ctx.globals && p.ctx.globals[target.id].GMath?
    requires LowerExpr(p.ctx, p.loc, EMethod(target, name, args, false)).Low?
    requires LowerExpr(p.ctx, p.loc, EMethod(target, name, args, false)).plain
    requires Fits(p.K, LowerExpr(p.ctx, p.loc, EMethod(target, name, args, false)).e, p.row, p.sch)
    ensures Same(p.Py(EMethod(target, name, args, false)).value,
                 p.Cell(LowerExpr(p.ctx, p.loc, EMethod(target, name, args, false)).e))
    decreases MAX_INLINE_DEPTH - p.ctx.depth, 0, EsSize(args), 3
  {
    assert Length(args) == 1 && p.Pys(args).Some?;
    assert Length(args.tl) == 0;
    var t := LowerExpr(p.ctx, p.loc, args.hd).e;
    var u := MathOf(name).value;
    FitsParts(p.K, Un(Unary(u), t), p.row, p.sch);
    ExprCorrect(p, args.hd);
    TypeSound(p.K, t, p.row, p.sch);
    assert p.Pys(args).value[0] == p.Py(args.hd).value;
    MathVal(p.K, u, p.Py(args.hd).value, p.Cell(t));
  }

  lemma {:induction false} MethodCorrect(p: Point, target: PyExpr, name: string, args: PyExprs)
    requires p.Related() && p.Py(EMethod(target, name, args, false)).Some?
    requires !(target.EName? && target.id in p.ctx.globals && p.ctx.globals[target.id].GMath?)
    requires LowerExpr(p.ctx, p.loc, EMethod(target, name, args, false)).Low?
    requires LowerExpr(p.ctx, p.loc, EMethod(target, name, args, false)).plain
    requires Fits(p.K, LowerExpr(p.ctx, p.loc, EMethod(target, name, args, false)).e, p.row, p.sch)
    ensures Same(p.Py(EMethod(target, name, args, false)).value,
                 p.Cell(LowerExpr(p.ctx, p.loc, EMethod(target, name, args, false)).e))
    decreases MAX_INLINE_DEPTH - p.ctx.depth, 0, ESize(target) + EsSize(args), 3
  {
    hide TypeOf, Exact, Eval, Constant, IsInt;
    var t := LowerExpr(p.ctx, p.loc, target).e;
    var m := MethodOf(name).value;
    var cs := Constants(p.ctx, p.loc.exprs, args);
    if cs.Some? { ConstantsHold(p, args); }
    FitsParts(p.K, MethodTree(t, m, args.ENil?, cs).value, p.row, p.sch);
    ExprCorrect(p, target);
    MethodVal(p.K, t, m, cs, p.Py(target).value, p.Pys(args).value, p.row, p.sch);
  }

  lemma {:induction false} CallCorrect(p: Point, f: string, args: PyExprs)
    requires p.Related() && p.Py(ECall(f, args, false)).Some?
    requires LowerCall(p.ctx, p.loc, f, args).Low? && LowerCall(p.ctx, p.loc, f, args).plain
    requires Fits(p.K, LowerCall(p.ctx, p.loc, f, args).e, p.row, p.sch)
    ensures Same(p.Py(ECall(f, args, false)).value, p.Cell(LowerCall(p.ctx, p.loc, f, args).e))
    decreases MAX_INLINE_DEPTH - p.ctx.depth, 0, EsSize(args), 5
  {
    var b := BuiltinOf(f);
    if b.Some? && Builtin1(b.value).Some? && Length(args) == 1 {
      Builtin1Correct(p, f, b.value, args);
    } else if b.Some? && Builtin1(b.value).None? && Length(args) >= 2 {
      ExtremeCorrect(p, f, b.value, args);
    } else {
      InlineCorrect(p, p.ctx.globals[f].f, args);
    }
  }

  lemma {:induction false} Builtin1Correct(p: Point, f: string, b: Builtin, args: PyExprs)
    requires p.Related() && p.Py(ECall(f, args, false)).Some?
    requires BuiltinOf(f) == Some(b) && Builtin1(b).Some? && Length(args) == 1
    requires LowerCall(p.ctx, p.loc, f, args).Low? && LowerCall(p.ctx, p.loc, f, args).plain
    requires Fits(p.K, LowerCall(p.ctx, p.loc, f, args).e, p.row, p.sch)
    ensures Same(p.Py(ECall(f, args, false)).value, p.Cell(LowerCall(p.ctx, p.loc, f, args).e))
    decreases MAX_INLINE_DEPTH - p.ctx.depth, 0, EsSize(args), 3
  {
    assert args.tl.ENil?;
    assert p.Pys(args).value == [p.Py(args.hd).value];
    var t := LowerExpr(p.ctx, p.loc, args.hd).e;
    FitsParts(p.K, Un(Builtin1(b).value, t), p.row, p.sch);
    ExprCorrect(p, args.hd);
    TypeSound(p.K, t, p.row, p.sch);
    BuiltinVal(p.K, b, p.Py(args.hd).value, p.Cell(t));
  }

  lemma {:induction false} ExtremeCorrect(p: Point, f: string, b: Builtin, args: PyExprs)
    requires p.Related() && p.Py(ECall(f, args, false)).Some?
    requires BuiltinOf(f) == Some(b) && Builtin1(b).None? && Length(args) >= 2
    requires LowerCall(p.ctx, p.loc, f, args).Low? && LowerCall(p.ctx, p.loc, f, args).plain
    requires Fits(p.K, LowerCall(p.ctx, p.loc, f, args).e, p.row, p.sch)
    ensures Same(p.Py(ECall(f, args, false)).value, p.Cell(LowerCall(p.ctx, p.loc, f, args).e))
    decreases MAX_INLINE_DEPTH - p.ctx.depth, 0, EsSize(args), 4
  {
    hide IsInt, HonestInt, Constant, TypeOf, Exact, LowerExpr;
    var vs := p.Pys(args).value;
    var os := LowerOperands(p.ctx, p.loc, args).value;
    OperandsCorrect(p, args);
    OperandTree(p.K, vs[0], os[0], p.row, p.sch);
    FoldHolds(p.K, b.BMin?, LitOrTree(os[0]), os[1..], vs[0], vs[1..], p.row, p.sch);
  }

  lemma {:induction false} BindAt<V>(params: seq<string>, xs: seq<V>, i: nat)
    requires |params| == |xs| && Distinct(params) && i < |params|
    ensures params[i] in Bind(params, xs) && Bind(params, xs)[params[i]] == xs[i]
  {
    if i > 0 {
      assert params[i] != params[0] && params[1..][i - 1] == params[i];
      BindAt(params[1..], xs[1..], i - 1);
    }
  }

  lemma {:induction false} FlagsHold(p: Point, args: PyExprs)
    requires p.Related() && p.Pys(args).Some? && NoneClaimed(p.ctx, p.loc, args)
    ensures forall i | 0 <= i < Length(args) ::
              IntFlags(p.ctx, p.loc.exprs, p.loc.ints, args)[i] ==> IntLike(p.Pys(args).value[i])
  {
    if args.ECons? {
      if HonestInt(p.ctx, p.loc, args.hd) { IntHolds(p, args.hd); }
      FlagsHold(p, args.tl);
    }
  }

  /** The start of an inlined body mirrors the start of the call. */
  lemma {:induction false} InlineRelated(p: Point, fd: FunDef, os: seq<Operand>, args: PyExprs, q: Point)
    requires p.Related() && p.fuel > 0 && p.Pys(args).Some?
    requires |fd.params| == |os| == Length(args) && Distinct(fd.params)
    requires forall i | 0 <= i < |os| :: !os[i].NoOperand? && OperandHolds(p.K, p.Pys(args).value[i], os[i], p.row, p.sch)
    requires NoneClaimed(p.ctx, p.loc, args)
    requires q == Point(p.K, InlineCtx(p.ctx, p.loc, fd, os, args), NoLocals(), FrameOf(fd, None, map[]),
                        Bind(fd.params, p.Pys(args).value), p.row, p.sch, p.fuel - 1)
    ensures q.Related()
  {
    hide Eval, TypeOf, Exact, Constant, IsInt, LowerExpr, PyEval, HonestInt, Unshadowed;
    hide Claimed, RowFits, Same, Good, IntFlags;
    var vs := p.Pys(args).value;
    var flags := IntFlags(p.ctx, p.loc.exprs, p.loc.ints, args);
    FlagsHold(p, args);
    BindKeys(fd.params, vs);
    BindKeys(fd.params, ArgTrees(os));
    BindKeys(fd.params, flags);
    forall id | id in q.ctx.bound
      ensures q.Agrees(q.vars[id], q.ctx.bound[id])
      ensures Flag(q.ctx.boundInt, id) ==> IntLike(q.vars[id])
    {
      var i :| 0 <= i < |fd.params| && fd.params[i] == id;
      BindAt(fd.params, vs, i);
      BindAt(fd.params, ArgTrees(os), i);
      BindAt(fd.params, flags, i);
      OperandTree(p.K, vs[i], os[i], p.row, p.sch);
    }
  }

  /** Inlining preserves meaning: the lowered body over the argument expressions has the value of the
      call, for any function environment, recursive ones included. */
  lemma {:induction false} InlineCorrect(p: Point, callee: string, args: PyExprs)
    requires p.Related() && p.fuel > 0 && p.Pys(args).Some?
    requires PyCall(p.K, p.ctx.funs, callee, p.Pys(args).value, p.fuel - 1).Some?
    requires Inline(p.ctx, p.loc, callee, args).Low? && Inline(p.ctx, p.loc, callee, args).plain
    requires Fits(p.K, Inline(p.ctx, p.loc, callee, args).e, p.row, p.sch)
    ensures Same(PyCall(p.K, p.ctx.funs, callee, p.Pys(args).value, p.fuel - 1).value,
                 p.Cell(Inline(p.ctx, p.loc, callee, args).e))
    decreases MAX_INLINE_DEPTH - p.ctx.depth, 0, EsSize(args), 4
  {
    hide IsInt, HonestInt, Claimed, Unshadowed, Constant, TypeOf, Exact, Eval, PyEval, LowerExpr, LowerBlock;
    var fd := p.ctx.funs[callee];
    var os := LowerOperands(p.ctx, p.loc, args).value;
    OperandsCorrect(p, args);
    var q := Point(p.K, InlineCtx(p.ctx, p.loc, fd, os, args), NoLocals(), FrameOf(fd, None, map[]),
                   Bind(fd.params, p.Pys(args).value), p.row, p.sch, p.fuel - 1);
    InlineRelated(p, fd, os, args, q);
    BodyCorrect(q, fd.body);
  }

  // ---- statements -----------------------------------------------------------------------------

  function Run(p: Point, ss: PyStmts): Outcome { Exec(p.K, p.ctx.funs, p.fr, p.vars, ss, p.fuel) }

  lemma {:induction false} ExecAppend(p: Point, vars: map<string, PVal>, a: PyStmts, b: PyStmts)
    ensures Exec(p.K, p.ctx.funs, p.fr, vars, Append(a, b), p.fuel) ==
            match Exec(p.K, p.ctx.funs, p.fr, vars, a, p.fuel)
            case Fell(vars') => Exec(p.K, p.ctx.funs, p.fr, vars', b, p.fuel)
            case o => o
    decreases a
  {
    match a
    case SNil =>
    case SCons(s, tl) =>
      match s
      case SAssign(x, e) =>
        var v := PyEval(p.K, p.ctx.funs, p.fr, vars, e, p.fuel);
        if v.Some? { ExecAppend(p, vars[x := v.value], tl, b); }
      case SIf(test, body, orelse) =>
        var t := PyEval(p.K, p.ctx.funs, p.fr, vars, test, p.fuel);
        if t.Some? && Truthy(t.value).Some? {
          var o := Exec(p.K, p.ctx.funs, p.fr, vars, if Truthy(t.value).value then body else orelse, p.fuel);
          if o.Fell? { ExecAppend(p, o.vars, tl, b); }
        }
      case SPass => ExecAppend(p, vars, tl, b);
      case SDoc => ExecAppend(p, vars, tl, b);
      case _ =>
  }

  lemma {:induction false} DropDocsRuns(p: Point, vars: map<string, PVal>, ss: PyStmts)
    ensures Exec(p.K, p.ctx.funs, p.fr, vars, DropDocs(ss), p.fuel) == Exec(p.K, p.ctx.funs, p.fr, vars, ss, p.fuel)
    decreases ss
  {
    match ss
    case SNil =>
    case SCons(s, tl) =>
      DropDocsRuns(p, vars, tl);
      match s
      case SAssign(x, e) =>
        var v := PyEval(p.K, p.ctx.funs, p.fr, vars, e, p.fuel);
        if v.Some? { DropDocsRuns(p, vars[x := v.value], tl); }
      case SIf(test, body, orelse) =>
        var t := PyEval(p.K, p.ctx.funs, p.fr, vars, test, p.fuel);
        if t.Some? && Truthy(t.value).Some? {
          var o := Exec(p.K, p.ctx.funs, p.fr, vars, if Truthy(t.value).value then body else orelse, p.fuel);
          if o.Fell? { DropDocsRuns(p, o.vars, tl); }
        }
      case _ =>
  }

  lemma {:induction false} BodyCorrect(p: Point, body: Body)
    requires p.Related() && p.loc == NoLocals()
    requires body.Def? ==> AssignedIn(body.stmts) <= p.fr.own
    requires PyBody(p.K, p.ctx.funs, p.fr, p.vars, body, p.fuel).Some?
    requires LowerBody(p.ctx, body).Low? && LowerBody(p.ctx, body).plain && Fits(p.K, LowerBody(p.ctx, body).e, p.row, p.sch)
    ensures Same(PyBody(p.K, p.ctx.funs, p.fr, p.vars, body, p.fuel).value, p.Cell(LowerBody(p.ctx, body).e))
    decreases MAX_INLINE_DEPTH - p.ctx.depth, 2
  {
    match body
    case Lambda(e) => ExprCorrect(p, e);
    case Def(ss) =>
      DropDocsRuns(p, p.vars, ss);
      BlockReturns(p, DropDocs(ss));
      BlockCorrect(p, DropDocs(ss));
  }

  /** A block that lowers to a value returns on every path. */
  lemma {:induction false} BlockReturns(p: Point, ss: PyStmts)
    requires LowerBlock(p.ctx, p.loc, ss).res.Value?
    ensures !Run(p, ss).Fell?
    decreases Size(ss)
  {
    var s, rest := ss.hd, ss.tl;
    match s
    case SAssign(x, e) =>
      var v := p.Py(e);
      if v.Some? {
        var t := LowerExpr(p.ctx, Assigning(p.ctx, p.loc, x, e), e).e;
        BlockReturns(p.(loc := Assigned(p.ctx, p.loc, x, e, t), vars := p.vars[x := v.value]), rest);
      }
    case SIf(test, body, orelse) =>
      assert Size(ss) == 1 + Size(body) + Size(orelse) + Size(rest);
      var a := LowerBlock(p.ctx, p.loc, body);
      BlockReturns(p, body);
      BlockReturns(p.(loc := p.loc.(ints := a.ints)), Append(orelse, rest));
      ExecAppend(p, p.vars, orelse, rest);
    case SPass => BlockReturns(p, rest);
    case _ =>
  }

  lemma {:induction false} BlockCorrect(p: Point, ss: PyStmts)
    requires p.Related() && Run(p, ss).Returned?
    requires AssignedIn(ss) <= p.fr.own
    requires LowerBlock(p.ctx, p.loc, ss).res.Value? && LowerBlock(p.ctx, p.loc, ss).res.plain
    requires Fits(p.K, LowerBlock(p.ctx, p.loc, ss).res.e, p.row, p.sch)
    ensures Same(Run(p, ss).v, p.Cell(LowerBlock(p.ctx, p.loc, ss).res.e))
    decreases MAX_INLINE_DEPTH - p.ctx.depth, 1, Size(ss), 0
  {
    hide Constant, IsInt, LowerExpr, PyEval, Exact, HonestInt, Unshadowed, Claimed;
    var s, rest := ss.hd, ss.tl;
    match s
    case SReturn(Some(e)) => ExprCorrect(p, e);
    case SAssign(x, e) => AssignCorrect(p, x, e, rest);
    case SIf(test, body, orelse) =>
      assert Size(ss) == 1 + Size(body) + Size(orelse) + Size(rest);
      var t := LowerBlock(p.ctx, p.loc, ss).res.e;
      FitsParts(p.K, t, p.row, p.sch);
      ExprCorrect(p, test);
      TypeSound(p.K, t.cond, p.row, p.sch);
      TruthHolds(p.Py(test).value, p.Cell(t.cond));
      var a := LowerBlock(p.ctx, p.loc, body);
      BlockReturns(p, body);
      AssignedAppend(orelse, rest);
      ExecAppend(p, p.vars, orelse, rest);
      var taken := Truthy(p.Py(test).value).value;
      if taken {
        BlockCorrect(p, body);
      } else {
        BlockCorrect(p.(loc := p.loc.(ints := a.ints)), Append(orelse, rest));
      }
      SelectHolds(p.K, t.cond, t.a, t.b, taken, Run(p, ss).v, p.row, p.sch);
    case SPass => BlockCorrect(p, rest);
    case _ =>
  }

  lemma {:induction false} AssignCorrect(p: Point, x: string, e: PyExpr, rest: PyStmts)
    requires p.Related() && Run(p, SCons(SAssign(x, e), rest)).Returned?
    requires AssignedIn(SCons(SAssign(x, e), rest)) <= p.fr.own
    requires LowerBlock(p.ctx, p.loc, SCons(SAssign(x, e), rest)).res.Value?
    requires LowerBlock(p.ctx, p.loc, SCons(SAssign(x, e), rest)).res.plain
    requires Fits(p.K, LowerBlock(p.ctx, p.loc, SCons(SAssign(x, e), rest)).res.e, p.row, p.sch)
    ensures Same(Run(p, SCons(SAssign(x, e), rest)).v,
                 p.Cell(LowerBlock(p.ctx, p.loc, SCons(SAssign(x, e), rest)).res.e))
    decreases MAX_INLINE_DEPTH - p.ctx.depth, 1, Size(rest), 1
  {
    hide HonestInt, Unshadowed, Claimed, IsInt, Exact, PyEval;
    var v := p.Py(e).value;
    var p0 := p.(loc := Assigning(p.ctx, p.loc, x, e));
    var t := LowerExpr(p.ctx, p0.loc, e).e;
    assert p0.Related() && p0.Py(e) == p.Py(e);
    if Fits(p.K, t, p.row, p.sch) { ExprCorrect(p0, e); }
    AssignRelated(p, x, e, t);
    BlockCorrect(p.(loc := Assigned(p.ctx, p.loc, x, e, t), vars := p.vars[x := v]), rest);
  }

  lemma {:induction false} AssignRelated(p: Point, x: string, e: PyExpr, t: Expr)
    requires p.Related() && p.Py(e).Some? && p.Agrees(p.Py(e).value, t) && x in p.fr.own
    ensures p.(loc := Assigned(p.ctx, p.loc, x, e, t), vars := p.vars[x := p.Py(e).value]).Related()
  {
    if HonestInt(p.ctx, p.loc, e) { IntHolds(p, e); }
    NamesRelated(p, Assigned(p.ctx, p.loc, x, e, t), p.vars[x := p.Py(e).value]);
  }

  lemma NamesRelated(p: Point, loc: Locals, vars: map<string, PVal>)
    requires p.Related()
    requires vars.Keys == loc.exprs.Keys + p.ctx.bound.Keys
    requires vars.Keys <= p.fr.own
    requires forall id | id in loc.exprs :: p.Agrees(vars[id], loc.exprs[id])
    requires forall id | id in p.ctx.bound && id !in loc.exprs :: vars[id] == p.vars[id] && id !in p.loc.exprs
    requires forall id | id in loc.exprs && Flag(loc.honest, id) :: IntLike(vars[id])
    ensures p.(loc := loc, vars := vars).Related()
  {
  }

  // ---- whole functions ------------------------------------------------------------------------

  /** The dtypes `int_inputs` reports are those of integer columns. */
  ghost predicate IntInputsTrue(intInputs: map<string, bool>, sch: Schema) {
    forall k | Flag(intInputs, k) && k in sch.namedTypes :: sch.namedTypes[k] == TI
  }

  /** `DataFrame.apply(f, axis=1)`: for every row function that lowers without an unfaithful branch to
      an expression the engine accepts and takes exactly, and every row on which Python returns, the
      engine's cell is Python's value. */
  lemma RowFunctionCorrect(K: Kernels, funs: Funs, fd: FunDef, columns: set<string>, intInputs: map<string, bool>,
                           fields: map<string, PVal>, row: Row, sch: Schema, fuel: nat)
    requires |fd.params| == 1
    requires RowFits(row, sch) && IntInputsTrue(intInputs, sch)
    requires fields.Keys == columns == row.named.Keys && forall k | k in columns :: Agreement.Cell(fields[k], row.named[k])
    requires Transpile(funs, fd, Some(columns), intInputs).Low? && Transpile(funs, fd, Some(columns), intInputs).plain
    requires Fits(K, Transpile(funs, fd, Some(columns), intInputs).e, row, sch)
    requires PyBody(K, funs, FrameOf(fd, Some(fd.params[0]), fields), map[], fd.body, fuel).Some?
    ensures Same(PyBody(K, funs, FrameOf(fd, Some(fd.params[0]), fields), map[], fd.body, fuel).value,
                 Eval(K, Transpile(funs, fd, Some(columns), intInputs).e, row))
  {
    var p := Point(K, EntryCtx(funs, fd, Some(columns), intInputs), NoLocals(),
                   FrameOf(fd, Some(fd.params[0]), fields), map[], row, sch, fuel);
    assert fd.params[0] in fd.params;
    assert p.Related();
    BodyCorrect(p, fd.body);
  }

  /** `Series.apply(f)` on one value. */
  lemma ValueFunctionCorrect(K: Kernels, funs: Funs, fd: FunDef, intInputs: map<string, bool>, x: PVal, row: Row,
                             sch: Schema, fuel: nat)
    requires |fd.params| == 1
    requires RowFits(row, sch) && IntInputsTrue(intInputs, sch)
    requires TRACE_INPUT in row.named && Agreement.Cell(x, row.named[TRACE_INPUT])
    requires Transpile(funs, fd, None, intInputs).Low? && Transpile(funs, fd, None, intInputs).plain
    requires Fits(K, Transpile(funs, fd, None, intInputs).e, row, sch)
    requires PyBody(K, funs, FrameOf(fd, None, map[]), map[fd.params[0] := x], fd.body, fuel).Some?
    ensures Same(PyBody(K, funs, FrameOf(fd, None, map[]), map[fd.params[0] := x], fd.body, fuel).value,
                 Eval(K, Transpile(funs, fd, None, intInputs).e, row))
  {
    var p := Point(K, EntryCtx(funs, fd, None, intInputs), NoLocals(), FrameOf(fd, None, map[]),
                   map[fd.params[0] := x], row, sch, fuel);
    assert fd.params[0] in fd.params;
    CellSame(x, row.named[TRACE_INPUT]);
    assert p.Related();
    BodyCorrect(p, fd.body);
  }
}
