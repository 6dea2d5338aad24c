/** A condition a caller can read off the source under which no unfaithful branch is taken: no global string is
    searched with `in`, no global is called by a builtin's name, and a name keeps its int-ness when it is assigned
    again. */
module TranspilerPlain {
  import opened Options
  import opened Exprs
  import opened PythonSubset
  import opened Transpiler

  /** The globals a function's code mentions, and its own names. */
  datatype Scope = Scope(globals: map<string, Global>, own: set<string>)

  function ScopeOf(fd: FunDef): Scope { Scope(fd.globals, OwnNames(fd)) }

  predicate ReadsAsConstant(g: Global) { g.GNum? || g.GStr? }

  /** No `in` over a global string, no call of a builtin's name that is a global, and no name of the function's own that
      is also a constant global, or searched with `in` as a global. */
  predicate Fair(sc: Scope, e: PyExpr)
    decreases ESize(e), 0
  {
    match e
    case EName(id) => id in sc.own && id in sc.globals ==> !ReadsAsConstant(sc.globals[id])
    case ESubscript(b, k) => Fair(sc, b) && Fair(sc, k)
    case EAttr(b, _) => Fair(sc, b)
    case EBin(_, l, r) => Fair(sc, l) && Fair(sc, r)
    case ENeg(x) => Fair(sc, x)
    case ENot(x) => Fair(sc, x)
    case EBool(_, x, rest) => Fair(sc, x) && AllFair(sc, rest)
    case ECompare(l, chain) => Fair(sc, l) && FairChain(sc, chain)
    case EIfExp(c, x, y) => Fair(sc, c) && Fair(sc, x) && Fair(sc, y)
    case ECall(f, args, _) => (BuiltinOf(f).Some? ==> f !in sc.globals) && AllFair(sc, args)
    case EMethod(t, _, args, _) => Fair(sc, t) && AllFair(sc, args)
    case EList(es) => AllFair(sc, es)
    case _ => true
  }

  predicate AllFair(sc: Scope, es: PyExprs)
    decreases EsSize(es), 1
  { es.ENil? || (Fair(sc, es.hd) && AllFair(sc, es.tl)) }

  predicate FairChain(sc: Scope, chain: PyChain)
    decreases ChainSize(chain), 1
  {
    chain.CNil?
    || (FairLink(sc, chain.cop, chain.right) && Fair(sc, chain.right) && FairChain(sc, chain.tail))
  }

  predicate FairLink(sc: Scope, op: PyCmpOp, r: PyExpr) {
    (op == CIn || op == CNotIn) && r.EName? ==> r.id !in sc.globals || (!sc.globals[r.id].GStr? && r.id !in sc.own)
  }

  predicate FairBlock(sc: Scope, ss: PyStmts) {
    match ss
    case SNil => true
    case SCons(SReturn(Some(e)), rest) => Fair(sc, e) && FairBlock(sc, rest)
    case SCons(SAssign(_, e), rest) => Fair(sc, e) && FairBlock(sc, rest)
    case SCons(SIf(test, body, orelse), rest) =>
      Fair(sc, test) && FairBlock(sc, body) && FairBlock(sc, orelse) && FairBlock(sc, rest)
    case SCons(_, rest) => FairBlock(sc, rest)
  }

  lemma {:induction false} FairAppend(sc: Scope, a: PyStmts, b: PyStmts)
    ensures FairBlock(sc, Append(a, b)) <==> FairBlock(sc, a) && FairBlock(sc, b)
  {
    if a.SCons? { FairAppend(sc, a.tl, b); }
  }

  /** The int-ness of a right side, given that of the names assigned so far. */
  predicate KindOf(ctx: Ctx, kinds: map<string, bool>, e: PyExpr) {
    IsInt(ctx, map n | n in kinds :: Lit(CI(0)), kinds, e)
  }

  /** A function without globals is fair. */
  lemma {:induction false} ClosedIsFair(sc: Scope, e: PyExpr)
    requires sc.globals == map[]
    ensures Fair(sc, e)
    decreases ESize(e), 0
  {
    match e
    case ESubscript(b, k) =>
      ClosedIsFair(sc, b);
      ClosedIsFair(sc, k);
    case EAttr(b, _) => ClosedIsFair(sc, b);
    case EBin(_, l, r) =>
      ClosedIsFair(sc, l);
      ClosedIsFair(sc, r);
    case ENeg(x) => ClosedIsFair(sc, x);
    case ENot(x) => ClosedIsFair(sc, x);
    case EBool(_, x, rest) =>
      ClosedIsFair(sc, x);
      ClosedAreFair(sc, rest);
    case ECompare(l, chain) =>
      ClosedIsFair(sc, l);
      ClosedChainFair(sc, chain);
    case EIfExp(c, x, y) =>
      ClosedIsFair(sc, c);
      ClosedIsFair(sc, x);
      ClosedIsFair(sc, y);
    case ECall(_, args, _) => ClosedAreFair(sc, args);
    case EMethod(t, _, args, _) =>
      ClosedIsFair(sc, t);
      ClosedAreFair(sc, args);
    case EList(es) => ClosedAreFair(sc, es);
    case _ =>
  }

  lemma {:induction false} ClosedAreFair(sc: Scope, es: PyExprs)
    requires sc.globals == map[]
    ensures AllFair(sc, es)
    decreases EsSize(es), 1
  {
    if es.ECons? {
      ClosedIsFair(sc, es.hd);
      ClosedAreFair(sc, es.tl);
    }
  }

  lemma {:induction false} ClosedChainFair(sc: Scope, chain: PyChain)
    requires sc.globals == map[]
    ensures FairChain(sc, chain)
    decreases ChainSize(chain), 1
  {
    if chain.CCons? {
      ClosedIsFair(sc, chain.right);
      ClosedChainFair(sc, chain.tail);
    }
  }

  /** A name that a path assigns again keeps its int-ness. */
  predicate Steady(ctx: Ctx, kinds: map<string, bool>, ss: PyStmts)
    decreases Size(ss)
  {
    match ss
    case SNil => true
    case SCons(SAssign(x, e), rest) =>
      (x in kinds ==> kinds[x] == KindOf(ctx, kinds, e)) && Steady(ctx, kinds[x := KindOf(ctx, kinds, e)], rest)
    case SCons(SIf(_, body, orelse), rest) =>
      assert Size(ss) == 1 + Size(body) + Size(orelse) + Size(rest);
      Steady(ctx, kinds, body) && Steady(ctx, kinds, Append(orelse, rest))
    case SCons(_, rest) => Steady(ctx, kinds, rest)
  }

  /** No path through the statements assigns a name of `seen`, or a name twice. */
  predicate AssignsOnce(ss: PyStmts, seen: set<string>)
    decreases Size(ss)
  {
    match ss
    case SNil => true
    case SCons(SAssign(x, _), rest) => x !in seen && AssignsOnce(rest, seen + {x})
    case SCons(SIf(_, body, orelse), rest) =>
      assert Size(ss) == 1 + Size(body) + Size(orelse) + Size(rest);
      AssignsOnce(body, seen) && AssignsOnce(Append(orelse, rest), seen)
    case SCons(_, rest) => AssignsOnce(rest, seen)
  }

  /** Names assigned once are steady, whatever they hold. */
  lemma {:induction false} OnceIsSteady(ctx: Ctx, kinds: map<string, bool>, ss: PyStmts)
    requires AssignsOnce(ss, kinds.Keys)
    ensures Steady(ctx, kinds, ss)
    decreases Size(ss)
  {
    hide KindOf;
    match ss
    case SNil =>
    case SCons(SAssign(x, e), rest) =>
      assert kinds[x := KindOf(ctx, kinds, e)].Keys == kinds.Keys + {x};
      OnceIsSteady(ctx, kinds[x := KindOf(ctx, kinds, e)], rest);
    case SCons(SIf(_, body, orelse), rest) =>
      assert Size(ss) == 1 + Size(body) + Size(orelse) + Size(rest);
      OnceIsSteady(ctx, kinds, body);
      OnceIsSteady(ctx, kinds, Append(orelse, rest));
    case SCons(_, rest) => OnceIsSteady(ctx, kinds, rest);
  }

  /** Fair, and steady whatever the int-ness of its inputs. */
  ghost predicate Tame(fd: FunDef) {
    match fd.body
    case Lambda(e) => Fair(ScopeOf(fd), e)
    case Def(ss) =>
      && FairBlock(ScopeOf(fd), DropDocs(ss))
      && forall ctx: Ctx | ctx.globals == fd.globals :: Steady(ctx, map[], DropDocs(ss))
  }

  ghost predicate TameFuns(funs: Funs) { forall f | f in funs :: Tame(funs[f]) }

  ghost predicate TameAt(sc: Scope, ctx: Ctx, loc: Locals) {
    && TameFuns(ctx.funs) && sc.globals == ctx.globals && ctx.bound.Keys + loc.exprs.Keys <= sc.own
    && forall id | id in loc.exprs :: Flag(loc.ints, id) == Flag(loc.honest, id)
  }

  /** The names assigned so far, and the int-ness the shared map has for them. */
  ghost predicate Kinds(loc: Locals, kinds: map<string, bool>) {
    kinds.Keys == loc.exprs.Keys && forall id | id in kinds :: kinds[id] == Flag(loc.ints, id)
  }

  /** Int-ness depends on which names are local and on their flags alone. */
  lemma {:induction false} IntsSame(ctx: Ctx, exprs: map<string, Expr>, ints: map<string, bool>, exprs': map<string, Expr>,
                                    ints': map<string, bool>, e: PyExpr)
    requires exprs.Keys == exprs'.Keys && forall id | id in exprs :: Flag(ints, id) == Flag(ints', id)
    ensures Constant(ctx, exprs, e) == Constant(ctx, exprs', e)
    ensures IsInt(ctx, exprs, ints, e) == IsInt(ctx, exprs', ints', e)
    decreases ESize(e), 0
  {
    match e
    case EBin(_, l, r) =>
      IntsSame(ctx, exprs, ints, exprs', ints', l);
      IntsSame(ctx, exprs, ints, exprs', ints', r);
    case ENeg(x) => IntsSame(ctx, exprs, ints, exprs', ints', x);
    case EIfExp(_, x, y) =>
      IntsSame(ctx, exprs, ints, exprs', ints', x);
      IntsSame(ctx, exprs, ints, exprs', ints', y);
    case ECall(_, args, _) => AllIntsSame(ctx, exprs, ints, exprs', ints', args);
    case _ =>
  }

  lemma {:induction false} AllIntsSame(ctx: Ctx, exprs: map<string, Expr>, ints: map<string, bool>, exprs': map<string, Expr>,
                                       ints': map<string, bool>, es: PyExprs)
    requires exprs.Keys == exprs'.Keys && forall id | id in exprs :: Flag(ints, id) == Flag(ints', id)
    ensures AllInt(ctx, exprs, ints, es) == AllInt(ctx, exprs', ints', es)
    decreases EsSize(es), 1
  {
    if es.ECons? {
      IntsSame(ctx, exprs, ints, exprs', ints', es.hd);
      AllIntsSame(ctx, exprs, ints, exprs', ints', es.tl);
    }
  }

  lemma {:induction false} KindIs(ctx: Ctx, loc: Locals, kinds: map<string, bool>, e: PyExpr)
    requires Kinds(loc, kinds)
    ensures KindOf(ctx, kinds, e) == IsInt(ctx, loc.exprs, loc.ints, e)
  {
    IntsSame(ctx, loc.exprs, loc.ints, map n | n in kinds :: Lit(CI(0)), kinds, e);
  }

  lemma {:induction false} FairUnshadowed(sc: Scope, ctx: Ctx, e: PyExpr, exprs: map<string, Expr>, ints: map<string, bool>)
    requires Fair(sc, e) && IsInt(ctx, exprs, ints, e) && sc.globals == ctx.globals && ctx.bound.Keys <= sc.own
    ensures Unshadowed(ctx, exprs, e)
    decreases ESize(e), 0
  {
    if Constant(ctx, exprs, e).Some? {
      ConstantUnshadowed(sc, ctx, e, exprs);
    } else {
      match e
      case EBin(_, l, r) =>
        FairUnshadowed(sc, ctx, l, exprs, ints);
        FairUnshadowed(sc, ctx, r, exprs, ints);
      case ENeg(x) => FairUnshadowed(sc, ctx, x, exprs, ints);
      case EIfExp(_, x, y) =>
        FairUnshadowed(sc, ctx, x, exprs, ints);
        FairUnshadowed(sc, ctx, y, exprs, ints);
      case ECall(f, args, _) =>
        if BuiltinOf(f) in {Some(BAbs), Some(BMin), Some(BMax)} { AllFairUnshadowed(sc, ctx, args, exprs, ints); }
      case _ =>
    }
  }

  lemma {:induction false} AllFairUnshadowed(sc: Scope, ctx: Ctx, es: PyExprs, exprs: map<string, Expr>, ints: map<string, bool>)
    requires AllFair(sc, es) && AllInt(ctx, exprs, ints, es) && sc.globals == ctx.globals && ctx.bound.Keys <= sc.own
    ensures AllUnshadowed(ctx, exprs, es)
    decreases EsSize(es), 1
  {
    if es.ECons? {
      FairUnshadowed(sc, ctx, es.hd, exprs, ints);
      AllFairUnshadowed(sc, ctx, es.tl, exprs, ints);
    }
  }

  lemma {:induction false} ConstantUnshadowed(sc: Scope, ctx: Ctx, e: PyExpr, exprs: map<string, Expr>)
    requires Fair(sc, e) && Constant(ctx, exprs, e).Some? && sc.globals == ctx.globals && ctx.bound.Keys <= sc.own
    ensures Unshadowed(ctx, exprs, e)
  {
    match e case ENeg(x) => ConstantUnshadowed(sc, ctx, x, exprs); case _ =>
  }

  lemma {:induction false} NotMisread(sc: Scope, ctx: Ctx, e: PyExpr, exprs: map<string, Expr>)
    requires Fair(sc, e) && sc.globals == ctx.globals && ctx.bound.Keys <= sc.own
    ensures !Misread(ctx, exprs, e)
  {
    match e case ENeg(x) => NotMisread(sc, ctx, x, exprs); case _ =>
  }

  lemma {:induction false} NoneMisread(sc: Scope, ctx: Ctx, es: PyExprs, exprs: map<string, Expr>)
    requires AllFair(sc, es) && sc.globals == ctx.globals && ctx.bound.Keys <= sc.own
    ensures !AnyMisread(ctx, exprs, es)
  {
    if es.ECons? {
      NotMisread(sc, ctx, es.hd, exprs);
      NoneMisread(sc, ctx, es.tl, exprs);
    }
  }

  lemma {:induction false} NoneMisreadAt(sc: Scope, ctx: Ctx, loc: Locals, es: PyExprs)
    requires TameAt(sc, ctx, loc) && AllFair(sc, es)
    ensures !AnyMisread(ctx, loc.exprs, es)
  {
    NoneMisread(sc, ctx, es, loc.exprs);
  }

  lemma {:induction false} FairIsUnshadowed(sc: Scope, ctx: Ctx, loc: Locals, e: PyExpr)
    requires TameAt(sc, ctx, loc) && Fair(sc, e) && IsInt(ctx, loc.exprs, loc.ints, e)
    ensures Unshadowed(ctx, loc.exprs, e)
  {
    FairUnshadowed(sc, ctx, e, loc.exprs, loc.ints);
  }

  lemma {:induction false} IntsAgree(sc: Scope, ctx: Ctx, loc: Locals, e: PyExpr)
    requires TameAt(sc, ctx, loc) && Fair(sc, e)
    ensures IsInt(ctx, loc.exprs, loc.ints, e) == HonestInt(ctx, loc, e) && !Claimed(ctx, loc, e)
  {
    hide Fair, Unshadowed, IsInt;
    IntsSame(ctx, loc.exprs, loc.ints, loc.exprs, loc.honest, e);
    if IsInt(ctx, loc.exprs, loc.ints, e) { FairUnshadowed(sc, ctx, e, loc.exprs, loc.ints); }
  }

  lemma {:induction false} NoneAreClaimed(sc: Scope, ctx: Ctx, loc: Locals, es: PyExprs)
    requires TameAt(sc, ctx, loc) && AllFair(sc, es)
    ensures NoneClaimed(ctx, loc, es)
  {
    if es.ECons? {
      IntsAgree(sc, ctx, loc, es.hd);
      NoneAreClaimed(sc, ctx, loc, es.tl);
    }
  }

  lemma {:induction false} PlainOperand(sc: Scope, ctx: Ctx, loc: Locals, e: PyExpr)
    requires TameAt(sc, ctx, loc) && Fair(sc, e)
    ensures Plain(LowerOperand(ctx, loc, e))
    decreases MAX_INLINE_DEPTH - ctx.depth, 0, ESize(e), 2
  {
    NotMisread(sc, ctx, e, loc.exprs);
    PlainExpr(sc, ctx, loc, e);
  }

  lemma {:induction false} PlainOperands(sc: Scope, ctx: Ctx, loc: Locals, es: PyExprs)
    requires TameAt(sc, ctx, loc) && AllFair(sc, es)
    ensures LowerOperands(ctx, loc, es).Some? ==> AllPlain(LowerOperands(ctx, loc, es).value)
    decreases MAX_INLINE_DEPTH - ctx.depth, 0, EsSize(es), 3, es
  {
    if es.ECons? {
      PlainOperand(sc, ctx, loc, es.hd);
      PlainOperands(sc, ctx, loc, es.tl);
    }
  }

  lemma {:induction false} PlainExpr(sc: Scope, ctx: Ctx, loc: Locals, e: PyExpr)
    requires TameAt(sc, ctx, loc) && Fair(sc, e)
    ensures LowerExpr(ctx, loc, e).Low? ==> LowerExpr(ctx, loc, e).plain
    decreases MAX_INLINE_DEPTH - ctx.depth, 0, ESize(e), 1
  {
    hide IsInt, HonestInt, Constant, Constants, RowKey, BinTree, TameAt;
    hide Claimed, MethodTree, LowerCall, LowerBool, LowerLink, LowerChain;
    match e
    case EBin(_, l, r) =>
      PlainOperand(sc, ctx, loc, l);
      PlainOperand(sc, ctx, loc, r);
      IntsAgree(sc, ctx, loc, l);
      IntsAgree(sc, ctx, loc, r);
    case ENeg(x) => PlainOperand(sc, ctx, loc, x);
    case ENot(x) => PlainExpr(sc, ctx, loc, x);
    case EBool(isAnd, first, rest) =>
      PlainExpr(sc, ctx, loc, first);
      var a := LowerExpr(ctx, loc, first);
      if a.Low? { PlainBool(sc, ctx, loc, isAnd, a.e, a.plain, rest); }
    case ECompare(l, chain) =>
      if chain.CCons? {
        assert ESize(e) == 1 + ESize(l) + ESize(chain.right) + ChainSize(chain.tail);
        PlainLink(sc, ctx, loc, l, chain.cop, chain.right);
        var a := LowerLink(ctx, loc, l, chain.cop, chain.right);
        if a.Low? { PlainChain(sc, ctx, loc, a.e, a.plain, chain.right, chain.tail); }
      }
    case EIfExp(c, x, y) =>
      PlainExpr(sc, ctx, loc, c);
      PlainExpr(sc, ctx, loc, x);
      PlainExpr(sc, ctx, loc, y);
    case ECall(f, args, _) => PlainCall(sc, ctx, loc, f, args);
    case EMethod(target, _, args, _) =>
      PlainExpr(sc, ctx, loc, target);
      NoneMisreadAt(sc, ctx, loc, args);
      if args.ECons? {
        assert ESize(e) >= 1 + EsSize(args);
        PlainExpr(sc, ctx, loc, args.hd);
      }
    case _ =>
  }

  lemma {:induction false} PlainBool(sc: Scope, ctx: Ctx, loc: Locals, isAnd: bool, out: Expr, plain: bool, rest: PyExprs)
    requires TameAt(sc, ctx, loc) && AllFair(sc, rest) && plain
    ensures LowerBool(ctx, loc, isAnd, out, plain, rest).Low? ==> LowerBool(ctx, loc, isAnd, out, plain, rest).plain
    decreases MAX_INLINE_DEPTH - ctx.depth, 0, EsSize(rest), 3
  {
    if rest.ECons? {
      PlainExpr(sc, ctx, loc, rest.hd);
      var t := LowerExpr(ctx, loc, rest.hd);
      if t.Low? {
        PlainBool(sc, ctx, loc, isAnd, Bin(Logical(if isAnd then And else Or), out, t.e), plain && t.plain, rest.tl);
      }
    }
  }

  lemma {:induction false} PlainChain(sc: Scope, ctx: Ctx, loc: Locals, out: Expr, plain: bool, l: PyExpr, chain: PyChain)
    requires TameAt(sc, ctx, loc) && Fair(sc, l) && FairChain(sc, chain) && plain
    ensures LowerChain(ctx, loc, out, plain, l, chain).Low? ==> LowerChain(ctx, loc, out, plain, l, chain).plain
    decreases MAX_INLINE_DEPTH - ctx.depth, 0, ESize(l) + ChainSize(chain), 4
  {
    if chain.CCons? {
      PlainLink(sc, ctx, loc, l, chain.cop, chain.right);
      var t := LowerLink(ctx, loc, l, chain.cop, chain.right);
      if t.Low? { PlainChain(sc, ctx, loc, Bin(Logical(And), out, t.e), plain && t.plain, chain.right, chain.tail); }
    }
  }

  lemma {:induction false} PlainLink(sc: Scope, ctx: Ctx, loc: Locals, l: PyExpr, op: PyCmpOp, r: PyExpr)
    requires TameAt(sc, ctx, loc) && Fair(sc, l) && Fair(sc, r) && FairLink(sc, op, r)
    ensures LowerLink(ctx, loc, l, op, r).Low? ==> LowerLink(ctx, loc, l, op, r).plain
    decreases MAX_INLINE_DEPTH - ctx.depth, 0, ESize(l) + ESize(r), 3
  {
    match op
    case CIn => PlainMember(sc, ctx, loc, l, r, false);
    case CNotIn => PlainMember(sc, ctx, loc, l, r, true);
    case CIs => PlainNullTest(sc, ctx, loc, l, r, true);
    case CIsNot => PlainNullTest(sc, ctx, loc, l, r, false);
    case _ => PlainOrder(sc, ctx, loc, l, CmpOf(op).value, r);
  }

  lemma {:induction false} PlainOrder(sc: Scope, ctx: Ctx, loc: Locals, l: PyExpr, op: CmpOp, r: PyExpr)
    requires TameAt(sc, ctx, loc) && Fair(sc, l) && Fair(sc, r)
    ensures LowerOrder(ctx, loc, l, op, r).Low? ==> LowerOrder(ctx, loc, l, op, r).plain
    decreases MAX_INLINE_DEPTH - ctx.depth, 0, ESize(l) + ESize(r), 2
  {
    PlainOperand(sc, ctx, loc, l);
    PlainOperand(sc, ctx, loc, r);
  }

  lemma {:induction false} PlainNullTest(sc: Scope, ctx: Ctx, loc: Locals, l: PyExpr, r: PyExpr, missing: bool)
    requires TameAt(sc, ctx, loc) && Fair(sc, l) && Fair(sc, r)
    ensures LowerNullTest(ctx, loc, l, r, missing).Low? ==> LowerNullTest(ctx, loc, l, r, missing).plain
    decreases MAX_INLINE_DEPTH - ctx.depth, 0, ESize(l) + ESize(r), 2
  {
    PlainOperand(sc, ctx, loc, l);
    PlainOperand(sc, ctx, loc, r);
  }

  /** A list that can be searched is read as Python reads it. */
  lemma {:induction false} ListFair(sc: Scope, ctx: Ctx, loc: Locals, r: PyExpr)
    requires TameAt(sc, ctx, loc) && Fair(sc, r) && FairLink(sc, CIn, r) && ListOf(ctx, loc.exprs, r).Some?
    ensures !NamesString(ctx, r) && !ListMisread(ctx, loc.exprs, r)
  {
    hide TameFuns, Misread, Constants, ConstsOf;
    if r.EList? { NoneMisread(sc, ctx, r.elts, loc.exprs); }
  }

  lemma {:induction false} PlainMember(sc: Scope, ctx: Ctx, loc: Locals, l: PyExpr, r: PyExpr, negate: bool)
    requires TameAt(sc, ctx, loc) && Fair(sc, l) && Fair(sc, r) && FairLink(sc, CIn, r)
    ensures LowerMember(ctx, loc, l, r, negate).Low? ==> LowerMember(ctx, loc, l, r, negate).plain
    decreases MAX_INLINE_DEPTH - ctx.depth, 0, ESize(l) + ESize(r), 2
  {
    hide LowerExpr, LowerOperand, TameAt, Fair, FairLink, NamesString, ListMisread, ListOf;
    PlainOperand(sc, ctx, loc, l);
    PlainExpr(sc, ctx, loc, r);
    if ListOf(ctx, loc.exprs, r).Some? { ListFair(sc, ctx, loc, r); }
  }

  lemma {:induction false} PlainCall(sc: Scope, ctx: Ctx, loc: Locals, f: string, args: PyExprs)
    requires TameAt(sc, ctx, loc) && (BuiltinOf(f).Some? ==> f !in sc.globals) && AllFair(sc, args)
    ensures LowerCall(ctx, loc, f, args).Low? ==> LowerCall(ctx, loc, f, args).plain
    decreases MAX_INLINE_DEPTH - ctx.depth, 0, EsSize(args), 5
  {
    PlainOperands(sc, ctx, loc, args);
    if args.ECons? { PlainExpr(sc, ctx, loc, args.hd); }
    if f in ctx.globals && ctx.globals[f].GFun? { PlainInline(sc, ctx, loc, ctx.globals[f].f, args); }
  }

  lemma {:induction false} PlainInline(sc: Scope, ctx: Ctx, loc: Locals, callee: string, args: PyExprs)
    requires TameAt(sc, ctx, loc) && AllFair(sc, args)
    ensures Inline(ctx, loc, callee, args).Low? ==> Inline(ctx, loc, callee, args).plain
    decreases MAX_INLINE_DEPTH - ctx.depth, 0, EsSize(args), 4
  {
    PlainOperands(sc, ctx, loc, args);
    NoneAreClaimed(sc, ctx, loc, args);
    if Inline(ctx, loc, callee, args).Low? {
      var fd := ctx.funs[callee];
      BindKeys(fd.params, ArgTrees(LowerOperands(ctx, loc, args).value));
      PlainBody(ScopeOf(fd), InlineCtx(ctx, loc, fd, LowerOperands(ctx, loc, args).value, args), fd);
    }
  }

  lemma {:induction false} PlainBody(sc: Scope, ctx: Ctx, fd: FunDef)
    requires sc == ScopeOf(fd) && TameAt(sc, ctx, NoLocals()) && Tame(fd)
    ensures LowerBody(ctx, fd.body).Low? ==> LowerBody(ctx, fd.body).plain
    decreases MAX_INLINE_DEPTH - ctx.depth, 2
  {
    match fd.body
    case Lambda(e) => PlainExpr(sc, ctx, NoLocals(), e);
    case Def(ss) => PlainBlock(sc, ctx, NoLocals(), map[], DropDocs(ss));
  }

  /** The flags a branch leaves behind change nothing for the names in force. */
  lemma {:induction false} TameAfter(sc: Scope, ctx: Ctx, loc: Locals, kinds: map<string, bool>, ints: map<string, bool>)
    requires TameAt(sc, ctx, loc) && Kinds(loc, kinds) && forall id | id in loc.exprs :: Flag(ints, id) == Flag(loc.ints, id)
    ensures TameAt(sc, ctx, loc.(ints := ints)) && Kinds(loc.(ints := ints), kinds)
  {
    hide TameFuns;
  }

  lemma {:induction false} TameFlagged(sc: Scope, ctx: Ctx, loc: Locals, kinds: map<string, bool>, x: string, k: bool)
    requires TameAt(sc, ctx, loc) && Kinds(loc, kinds) && (x in kinds ==> kinds[x] == k)
    ensures TameAt(sc, ctx, loc.(ints := loc.ints[x := k])) && Kinds(loc.(ints := loc.ints[x := k]), kinds)
  {
    hide TameFuns;
  }

  lemma {:induction false} TameNamed(sc: Scope, ctx: Ctx, loc: Locals, kinds: map<string, bool>, x: string, k: bool, t: Expr)
    requires TameAt(sc, ctx, loc) && Kinds(loc, kinds) && x in sc.own
    ensures var loc' := Locals(loc.exprs[x := t], loc.ints[x := k], loc.honest[x := k]);
            TameAt(sc, ctx, loc') && Kinds(loc', kinds[x := k])
  {
    hide TameFuns;
  }

  /** An assignment that keeps a name's int-ness. */
  lemma {:induction false} TameAssigned(sc: Scope, ctx: Ctx, loc: Locals, kinds: map<string, bool>, x: string, e: PyExpr, t: Expr)
    requires TameAt(sc, ctx, loc) && Kinds(loc, kinds) && Fair(sc, e) && (x in kinds ==> kinds[x] == KindOf(ctx, kinds, e))
    requires x in sc.own
    ensures TameAt(sc, ctx, Assigning(ctx, loc, x, e)) && Kinds(Assigning(ctx, loc, x, e), kinds)
    ensures TameAt(sc, ctx, Assigned(ctx, loc, x, e, t)) && Kinds(Assigned(ctx, loc, x, e, t), kinds[x := KindOf(ctx, kinds, e)])
  {
    hide KindOf, Fair, TameAt, Kinds, IsInt, HonestInt, Unshadowed, Claimed, Constant;
    KindIs(ctx, loc, kinds, e);
    IntsAgree(sc, ctx, loc, e);
    TameFlagged(sc, ctx, loc, kinds, x, KindOf(ctx, kinds, e));
    TameNamed(sc, ctx, loc, kinds, x, KindOf(ctx, kinds, e), t);
  }

  lemma {:induction false} PlainBlock(sc: Scope, ctx: Ctx, loc: Locals, kinds: map<string, bool>, ss: PyStmts)
    requires TameAt(sc, ctx, loc) && Kinds(loc, kinds) && Steady(ctx, kinds, ss) && FairBlock(sc, ss)
    requires AssignedIn(ss) <= sc.own
    ensures LowerBlock(ctx, loc, ss).res.Value? ==> LowerBlock(ctx, loc, ss).res.plain
    ensures forall id | id in loc.exprs :: Flag(LowerBlock(ctx, loc, ss).ints, id) == Flag(loc.ints, id)
    decreases MAX_INLINE_DEPTH - ctx.depth, 1, Size(ss)
  {
    hide Constant, RowKey, LowerExpr, KindOf, Fair, TameAt, Kinds, IsInt, Unshadowed, HonestInt;
    match ss
    case SNil =>
    case SCons(s, rest) =>
      match s
      case SReturn(Some(e)) => PlainExpr(sc, ctx, loc, e);
      case SAssign(x, e) =>
        var loc1 := Assigning(ctx, loc, x, e);
        var t := LowerExpr(ctx, loc1, e);
        TameAssigned(sc, ctx, loc, kinds, x, e, Lit(CI(0)));
        PlainExpr(sc, ctx, loc1, e);
        FlagsKept(loc, kinds, loc1);
        if t.Low? {
          TameAssigned(sc, ctx, loc, kinds, x, e, t.e);
          PlainBlock(sc, ctx, Assigned(ctx, loc, x, e, t.e), kinds[x := KindOf(ctx, kinds, e)], rest);
        }
      case SIf(test, body, orelse) =>
        assert Size(ss) == 1 + Size(body) + Size(orelse) + Size(rest);
        PlainExpr(sc, ctx, loc, test);
        PlainBlock(sc, ctx, loc, kinds, body);
        FairAppend(sc, orelse, rest);
        AssignedAppend(orelse, rest);
        var ints := LowerBlock(ctx, loc, body).ints;
        TameAfter(sc, ctx, loc, kinds, ints);
        PlainBlock(sc, ctx, loc.(ints := ints), kinds, Append(orelse, rest));
      case SPass => PlainBlock(sc, ctx, loc, kinds, rest);
      case _ =>
  }

  lemma {:induction false} FlagsKept(loc: Locals, kinds: map<string, bool>, loc': Locals)
    requires Kinds(loc, kinds) && Kinds(loc', kinds)
    ensures forall id | id in loc.exprs :: Flag(loc'.ints, id) == Flag(loc.ints, id)
  {
  }

  /** Functions that are fair and steady lower faithfully. */
  lemma TameLowersPlain(funs: Funs, fd: FunDef, columns: Option<set<string>>, intInputs: map<string, bool>)
    requires TameFuns(funs) && Tame(fd) && Transpile(funs, fd, columns, intInputs).Low?
    ensures Transpile(funs, fd, columns, intInputs).plain
  {
    PlainBody(ScopeOf(fd), EntryCtx(funs, fd, columns, intInputs), fd);
  }
}
