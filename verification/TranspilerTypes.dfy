/** What int-ness is for: an expression of int-ness comes back as an Int64 column, and so does a function that returns
    nothing else. */
module TranspilerTypes {
  import opened Options
  import opened Exprs
  import opened PythonSubset
  import opened Transpiler
  import opened TranspilerPlain

  /** Int64, where the engine accepts it at all. */
  predicate WholeTree(t: Expr, sch: Schema) { TypeOf(t, sch).Some? ==> TypeOf(t, sch).value.base == TI }

  /** What the lowering claims of names, parameters and fields is so of their expressions. */
  ghost predicate ClaimsTyped(ctx: Ctx, loc: Locals, sch: Schema) {
    && (forall id | id in loc.exprs && Flag(loc.ints, id) :: WholeTree(loc.exprs[id], sch))
    && (forall id | id in ctx.bound && Flag(ctx.boundInt, id) :: WholeTree(ctx.bound[id], sch))
    && (forall k | Flag(ctx.intInputs, k) && k in sch.namedTypes :: sch.namedTypes[k] == TI)
  }

  predicate WholeOperand(o: Operand, sch: Schema) {
    match o
    case Scalar(c, _) => c.CI?
    case Tree(t, _) => WholeTree(t, sch)
    case NoOperand => true
  }

  lemma {:induction false} ArithWhole(op: ArithOp, l: Operand, r: Operand, sch: Schema)
    requires op != Div && WholeOperand(l, sch) && WholeOperand(r, sch) && ArithTree(op, l, r).Some?
    ensures WholeTree(ArithTree(op, l, r).value, sch)
  {
  }

  lemma {:induction false} BinWhole(op: PyBinOp, l: Operand, r: Operand, sch: Schema)
    requires op != OpDiv && op != OpPow && WholeOperand(l, sch) && WholeOperand(r, sch) && BinTree(op, l, r, true).Some?
    ensures WholeTree(BinTree(op, l, r, true).value, sch)
  {
    hide TypeOf, ArithTree, FloorTree, ModTree;
    match op
    case OpAdd => ArithWhole(Add, l, r, sch);
    case OpSub => ArithWhole(Sub, l, r, sch);
    case OpMul => ArithWhole(Mul, l, r, sch);
    case OpFloorDiv => CastWhole(FloorTree(l, r).value, sch);
    case OpMod => CastWhole(ModTree(l, r).value, sch);
    case _ =>
  }

  lemma {:induction false} CastWhole(t: Expr, sch: Schema)
    ensures WholeTree(Un(Cast(TI), t), sch)
  {
  }

  lemma {:induction false} PickWhole(isMin: bool, out: Expr, v: Expr, sch: Schema)
    requires WholeTree(out, sch) && WholeTree(v, sch)
    ensures WholeTree(Pick(isMin, out, v), sch)
  {
  }

  lemma {:induction false} FoldWhole(isMin: bool, out: Expr, rest: seq<Operand>, sch: Schema)
    requires WholeTree(out, sch) && forall i | 0 <= i < |rest| :: !rest[i].NoOperand? && WholeOperand(rest[i], sch)
    ensures WholeTree(Fold(isMin, out, rest), sch)
    decreases |rest|
  {
    hide TypeOf, Pick;
    if rest != [] {
      LitWhole(rest[0], sch);
      PickWhole(isMin, out, LitOrTree(rest[0]), sch);
      FoldWhole(isMin, Pick(isMin, out, LitOrTree(rest[0])), rest[1..], sch);
    }
  }

  lemma {:induction false} LitWhole(o: Operand, sch: Schema)
    requires !o.NoOperand? && WholeOperand(o, sch)
    ensures WholeTree(LitOrTree(o), sch)
  {
  }

  lemma {:induction false} ConstantWhole(ctx: Ctx, loc: Locals, e: PyExpr, sch: Schema)
    requires ClaimsTyped(ctx, loc, sch) && Constant(ctx, loc.exprs, e).Some? && Constant(ctx, loc.exprs, e).value.CI?
    requires !Misread(ctx, loc.exprs, e) && LowerExpr(ctx, loc, e).Low?
    ensures WholeTree(LowerExpr(ctx, loc, e).e, sch)
  {
    match e
    case ENeg(x) => assert LowerOperand(ctx, loc, x).Scalar?;
    case _ =>
  }

  lemma {:induction false} OperandWhole(ctx: Ctx, loc: Locals, e: PyExpr, sch: Schema)
    requires ClaimsTyped(ctx, loc, sch) && IsInt(ctx, loc.exprs, loc.ints, e) && Unshadowed(ctx, loc.exprs, e)
    ensures WholeOperand(LowerOperand(ctx, loc, e), sch)
    decreases ESize(e), 2
  {
    hide TypeOf;
    if Constant(ctx, loc.exprs, e).None? && LowerExpr(ctx, loc, e).Low? { IntTyped(ctx, loc, e, sch); }
  }

  lemma {:induction false} OperandsWhole(ctx: Ctx, loc: Locals, es: PyExprs, sch: Schema)
    requires ClaimsTyped(ctx, loc, sch) && AllInt(ctx, loc.exprs, loc.ints, es) && AllUnshadowed(ctx, loc.exprs, es)
    requires LowerOperands(ctx, loc, es).Some?
    ensures forall i | 0 <= i < |LowerOperands(ctx, loc, es).value| :: WholeOperand(LowerOperands(ctx, loc, es).value[i], sch)
    decreases EsSize(es), 3
  {
    hide TypeOf;
    if es.ECons? {
      OperandWhole(ctx, loc, es.hd, sch);
      OperandsWhole(ctx, loc, es.tl, sch);
    }
  }

  /** An expression of int-ness lowers to an Int64 column or scalar. */
  lemma {:induction false} IntTyped(ctx: Ctx, loc: Locals, e: PyExpr, sch: Schema)
    requires ClaimsTyped(ctx, loc, sch) && IsInt(ctx, loc.exprs, loc.ints, e) && Unshadowed(ctx, loc.exprs, e) && LowerExpr(ctx, loc, e).Low?
    ensures WholeTree(LowerExpr(ctx, loc, e).e, sch)
    decreases ESize(e), 1
  {
    hide BinTree, ClaimsTyped;
    if Constant(ctx, loc.exprs, e).Some? {
      ConstantRead(ctx, loc.exprs, e);
      ConstantWhole(ctx, loc, e, sch);
    } else {
      match e
      case EName(id) => NameWhole(ctx, loc, id, sch);
      case ESubscript(_, _) => FieldWhole(ctx, loc, e, sch);
      case EAttr(_, _) => FieldWhole(ctx, loc, e, sch);
      case EBin(op, l, r) =>
        OperandWhole(ctx, loc, l, sch);
        OperandWhole(ctx, loc, r, sch);
        BinWhole(op, LowerOperand(ctx, loc, l), LowerOperand(ctx, loc, r), sch);
      case ENeg(x) =>
        OperandWhole(ctx, loc, x, sch);
        var o := LowerOperand(ctx, loc, x);
        if o.Tree? { ArithWhole(Mul, o, Scalar(CI(-1), true), sch); }
      case EIfExp(_, x, y) =>
        IntTyped(ctx, loc, x, sch);
        IntTyped(ctx, loc, y, sch);
      case ECall(f, args, _) => CallWhole(ctx, loc, f, args, sch);
      case _ =>
    }
  }

  lemma {:induction false} NameWhole(ctx: Ctx, loc: Locals, id: string, sch: Schema)
    requires ClaimsTyped(ctx, loc, sch) && Constant(ctx, loc.exprs, EName(id)).None?
    requires IsInt(ctx, loc.exprs, loc.ints, EName(id)) && LowerName(ctx, loc.exprs, id).Low?
    ensures WholeTree(LowerName(ctx, loc.exprs, id).e, sch)
  {
  }

  lemma {:induction false} FieldWhole(ctx: Ctx, loc: Locals, e: PyExpr, sch: Schema)
    requires ClaimsTyped(ctx, loc, sch) && LowerField(ctx, e).Low? && Flag(ctx.intInputs, RowKey(ctx.rowParam, e).value)
    ensures WholeTree(LowerField(ctx, e).e, sch)
  {
  }

  lemma {:induction false} CallWhole(ctx: Ctx, loc: Locals, f: string, args: PyExprs, sch: Schema)
    requires ClaimsTyped(ctx, loc, sch) && IsInt(ctx, loc.exprs, loc.ints, ECall(f, args, false))
    requires Unshadowed(ctx, loc.exprs, ECall(f, args, false)) && LowerCall(ctx, loc, f, args).Low?
    ensures WholeTree(LowerCall(ctx, loc, f, args).e, sch)
    decreases EsSize(args), 4
  {
    hide ClaimsTyped, Inline;
    var b := BuiltinOf(f).value;
    if b.BAbs? {
      if Length(args) == 1 { IntTyped(ctx, loc, args.hd, sch); }
    } else if b.BMin? || b.BMax? {
      var os := LowerOperands(ctx, loc, args);
      if Length(args) >= 2 && os.Some? {
        OperandsWhole(ctx, loc, args, sch);
        LitWhole(os.value[0], sch);
        FoldWhole(b.BMin?, LitOrTree(os.value[0]), os.value[1..], sch);
      }
    }
  }

  // ---- whole functions ------------------------------------------------------------------------------

  /** Every `return` of the statements is of an expression of int-ness, given that of the names assigned so far. */
  predicate IntReturns(ctx: Ctx, kinds: map<string, bool>, ss: PyStmts)
    decreases Size(ss)
  {
    match ss
    case SNil => true
    case SCons(SReturn(Some(e)), _) => KindOf(ctx, kinds, e)
    case SCons(SAssign(x, e), rest) => IntReturns(ctx, kinds[x := KindOf(ctx, kinds, e)], rest)
    case SCons(SIf(_, body, orelse), rest) =>
      assert Size(ss) == 1 + Size(body) + Size(orelse) + Size(rest);
      IntReturns(ctx, kinds, body) && IntReturns(ctx, kinds, Append(orelse, rest))
    case SCons(_, rest) => IntReturns(ctx, kinds, rest)
  }

  /** The flags a branch leaves behind change nothing for the names in force. */
  lemma {:induction false} TypedAfter(ctx: Ctx, loc: Locals, ints: map<string, bool>, sch: Schema)
    requires ClaimsTyped(ctx, loc, sch) && forall id | id in loc.exprs :: Flag(ints, id) == Flag(loc.ints, id)
    ensures ClaimsTyped(ctx, loc.(ints := ints), sch)
  {
    hide WholeTree;
  }

  predicate IntBody(ctx: Ctx, body: Body) {
    match body
    case Lambda(e) => IsInt(ctx, map[], map[], e)
    case Def(ss) => IntReturns(ctx, map[], DropDocs(ss))
  }

  lemma {:induction false} AssignedTyped(sc: Scope, ctx: Ctx, loc: Locals, kinds: map<string, bool>, x: string, e: PyExpr, sch: Schema)
    requires ClaimsTyped(ctx, loc, sch) && TameAt(sc, ctx, loc) && Kinds(loc, kinds) && Fair(sc, e)
    requires x in sc.own && (x in kinds ==> kinds[x] == KindOf(ctx, kinds, e))
    requires LowerExpr(ctx, Assigning(ctx, loc, x, e), e).Low?
    ensures ClaimsTyped(ctx, Assigned(ctx, loc, x, e, LowerExpr(ctx, Assigning(ctx, loc, x, e), e).e), sch)
  {
    hide KindOf, LowerExpr, IsInt, WholeTree, Fair, Unshadowed, HonestInt, TameAt, Kinds, ClaimsTyped;
    var loc1 := Assigning(ctx, loc, x, e);
    TameAssigned(sc, ctx, loc, kinds, x, e, Lit(CI(0)));
    FlagsKept(loc, kinds, loc1);
    TypedAfter(ctx, loc, loc1.ints, sch);
    IntsSame(ctx, loc.exprs, loc.ints, loc1.exprs, loc1.ints, e);
    if IsInt(ctx, loc.exprs, loc.ints, e) {
      FairIsUnshadowed(sc, ctx, loc, e);
      IntTyped(ctx, loc1, e, sch);
    }
    NameTyped(ctx, loc, x, e, LowerExpr(ctx, loc1, e).e, sch);
  }

  lemma {:induction false} NameTyped(ctx: Ctx, loc: Locals, x: string, e: PyExpr, t: Expr, sch: Schema)
    requires ClaimsTyped(ctx, loc, sch) && (IsInt(ctx, loc.exprs, loc.ints, e) ==> WholeTree(t, sch))
    ensures ClaimsTyped(ctx, Assigned(ctx, loc, x, e, t), sch)
  {
    hide WholeTree, IsInt, HonestInt;
  }

  /** A fair and steady block whose returns are all of int-ness lowers to an Int64 expression. */
  lemma {:induction false} BlockTyped(sc: Scope, ctx: Ctx, loc: Locals, kinds: map<string, bool>, ss: PyStmts, sch: Schema)
    requires ClaimsTyped(ctx, loc, sch) && TameAt(sc, ctx, loc) && Kinds(loc, kinds) && Steady(ctx, kinds, ss) && FairBlock(sc, ss)
    requires IntReturns(ctx, kinds, ss) && LowerBlock(ctx, loc, ss).res.Value? && AssignedIn(ss) <= sc.own
    ensures WholeTree(LowerBlock(ctx, loc, ss).res.e, sch)
    decreases Size(ss)
  {
    hide Constant, RowKey, LowerExpr, KindOf, Fair, TameAt, Kinds, ClaimsTyped, IsInt, Unshadowed, HonestInt, WholeTree;
    var s, rest := ss.hd, ss.tl;
    match s
    case SReturn(Some(e)) =>
      KindIs(ctx, loc, kinds, e);
      FairIsUnshadowed(sc, ctx, loc, e);
      IntTyped(ctx, loc, e, sch);
    case SAssign(x, e) =>
      var t := LowerExpr(ctx, Assigning(ctx, loc, x, e), e).e;
      AssignedTyped(sc, ctx, loc, kinds, x, e, sch);
      TameAssigned(sc, ctx, loc, kinds, x, e, t);
      BlockTyped(sc, ctx, Assigned(ctx, loc, x, e, t), kinds[x := KindOf(ctx, kinds, e)], rest, sch);
    case SIf(test, body, orelse) =>
      assert Size(ss) == 1 + Size(body) + Size(orelse) + Size(rest);
      var ints := LowerBlock(ctx, loc, body).ints;
      BlockTyped(sc, ctx, loc, kinds, body, sch);
      FairAppend(sc, orelse, rest);
      AssignedAppend(orelse, rest);
      PlainBlock(sc, ctx, loc, kinds, body);
      TameAfter(sc, ctx, loc, kinds, ints);
      TypedAfter(ctx, loc, ints, sch);
      BlockTyped(sc, ctx, loc.(ints := ints), kinds, Append(orelse, rest), sch);
      SelectWhole(LowerExpr(ctx, loc, test).e, LowerBlock(ctx, loc, body).res.e,
                  LowerBlock(ctx, loc.(ints := ints), Append(orelse, rest)).res.e, sch);
    case SPass => BlockTyped(sc, ctx, loc, kinds, rest, sch);
    case _ =>
  }

  lemma {:induction false} SelectWhole(c: Expr, a: Expr, b: Expr, sch: Schema)
    requires WholeTree(a, sch) && WholeTree(b, sch)
    ensures WholeTree(Select(c, a, b), sch)
  {
  }

  /** A tame function, of a row or of one value, that returns expressions of int-ness alone comes back as an Int64
      column, wherever the engine takes it. */
  lemma IntFunctionTyped(funs: Funs, fd: FunDef, columns: Option<set<string>>, intInputs: map<string, bool>, sch: Schema)
    requires TameFuns(funs) && Tame(fd) && |fd.params| == 1
    requires forall k | Flag(intInputs, k) && k in sch.namedTypes :: sch.namedTypes[k] == TI
    requires IntBody(EntryCtx(funs, fd, columns, intInputs), fd.body)
    requires Transpile(funs, fd, columns, intInputs).Low? && TypeOf(Transpile(funs, fd, columns, intInputs).e, sch).Some?
    ensures TypeOf(Transpile(funs, fd, columns, intInputs).e, sch).value.base == TI
  {
    var ctx := EntryCtx(funs, fd, columns, intInputs);
    match fd.body
    case Lambda(e) =>
      FairUnshadowed(ScopeOf(fd), ctx, e, map[], map[]);
      IntTyped(ctx, NoLocals(), e, sch);
    case Def(ss) => BlockTyped(ScopeOf(fd), ctx, NoLocals(), map[], DropDocs(ss), sch);
  }
}
