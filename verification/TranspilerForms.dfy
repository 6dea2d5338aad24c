/** Which functions have an engine form: the grammar the lowering accepts, by the names and syntax alone, with nothing of
    what it builds. */
module TranspilerForms {
  import opened Options
  import opened Exprs
  import opened PythonSubset
  import opened Transpiler
  import opened PythonNames

  /** What a function's names stand for: its globals, its row and the row's columns, its parameters, and how deep in
      inlined calls it is. */
  datatype Names = Names(funs: Funs, globals: map<string, Global>, row: Option<string>, columns: Option<set<string>>,
                         bound: set<string>, depth: nat)

  function NamesOf(ctx: Ctx): Names { Names(ctx.funs, ctx.globals, ctx.rowParam, ctx.columns, ctx.bound.Keys, ctx.depth) }

  const DEEPEST := 8

  // ---- constants -------------------------------------------------------------------------------------------

  /** A number or string written out, or the name of one among the globals; a number may be negated. */
  function ConstIn(ns: Names, locals: set<string>, e: PyExpr): Option<Const> {
    match e
    case EConst(KInt(n)) => Some(CI(n))
    case EConst(KFloat(r)) => Some(CF(r))
    case EConst(KStr(s)) => Some(CS(s))
    case EName(id) =>
      if id in locals || id !in ns.globals then None
      else (match ns.globals[id]
            case GNum(c) => if c.CS? then None else Some(c)
            case GStr(s) => Some(CS(s))
            case _ => None)
    case ENeg(x) =>
      (match ConstIn(ns, locals, x)
       case Some(CI(n)) => Some(CI(-n))
       case Some(CF(r)) => Some(CF(-r))
       case _ => None)
    case _ => None
  }

  predicate IsNumeral(ns: Names, locals: set<string>, e: PyExpr) { var c := ConstIn(ns, locals, e); c.Some? && !c.value.CS? }
  predicate IsText(ns: Names, locals: set<string>, e: PyExpr) { var c := ConstIn(ns, locals, e); c.Some? && c.value.CS? }

  predicate AllText(ns: Names, locals: set<string>, es: PyExprs) {
    es.ENil? || (IsText(ns, locals, es.hd) && AllText(ns, locals, es.tl))
  }

  predicate AllWhole(ns: Names, locals: set<string>, es: PyExprs) {
    es.ENil? || (ConstIn(ns, locals, es.hd).Some? && ConstIn(ns, locals, es.hd).value.CI? && AllWhole(ns, locals, es.tl))
  }

  /** What may stand on the right of `in` for a column: whole numbers or strings, listed or in a global, or a global
      string. */
  predicate IsChoice(ns: Names, locals: set<string>, r: PyExpr) {
    match r
    case EList(es) => AllWhole(ns, locals, es) || AllText(ns, locals, es)
    case EName(id) =>
      id in ns.globals &&
      (match ns.globals[id]
       case GList(vs) => (forall i | 0 <= i < |vs| :: vs[i].KInt?) || (forall i | 0 <= i < |vs| :: vs[i].KStr?)
       case GStr(_) => true
       case _ => false)
    case _ => false
  }

  // ---- expressions -------------------------------------------------------------------------------------------

  predicate IsField(ns: Names, e: PyExpr) {
    match e
    case ESubscript(EName(r), EConst(KStr(k))) => ns.row == Some(r) && ns.columns.Some? && k in ns.columns.value
    case EAttr(EName(r), k) => ns.row == Some(r) && ns.columns.Some? && k in ns.columns.value
    case _ => false
  }

  predicate IsPowerOf(c: Option<Const>) { c == Some(CF(0.5)) || (c.Some? && c.value.CI? && 0 <= c.value.i <= 8) }

  predicate OneArgument(f: string) { f in {"abs", "int", "float", "len", "round"} }
  predicate ManyArguments(f: string) { f in {"min", "max"} }
  predicate IsMathName(f: string) { f in {"sqrt", "log", "exp", "floor", "ceil"} }

  predicate HasForm(ns: Names, locals: set<string>, e: PyExpr)
    decreases DEEPEST - ns.depth, 0, ESize(e), 1
  {
    match e
    case EConst(c) => c.KInt? || c.KFloat?
    case EName(id) =>
      ns.row != Some(id) && (id in locals || id in ns.bound || (id in ns.globals && ns.globals[id].GNum? && !ns.globals[id].c.CS?))
    case ESubscript(_, _) => IsField(ns, e)
    case EAttr(_, _) => IsField(ns, e)
    case EBin(op, l, r) =>
      (match op
       case OpAdd | OpSub | OpMul =>
         || (IsTree(ns, locals, l) && (IsTree(ns, locals, r) || IsNumeral(ns, locals, r)))
         || (IsNumeral(ns, locals, l) && IsTree(ns, locals, r))
       case OpDiv | OpFloorDiv | OpMod => IsTree(ns, locals, l) && (IsTree(ns, locals, r) || IsNumeral(ns, locals, r))
       case OpPow => IsTree(ns, locals, l) && IsPowerOf(ConstIn(ns, locals, r))
       case OpOther => false)
    case ENeg(x) => IsNumeral(ns, locals, x) || IsTree(ns, locals, x)
    case ENot(x) => HasForm(ns, locals, x)
    case EBool(_, first, rest) => HasForm(ns, locals, first) && AllForms(ns, locals, rest)
    case ECompare(l, chain) => chain.CCons? && ChainForm(ns, locals, l, chain)
    case EIfExp(c, x, y) => HasForm(ns, locals, c) && HasForm(ns, locals, x) && HasForm(ns, locals, y)
    case ECall(f, args, keywords) => !keywords && CallForm(ns, locals, f, args)
    case EMethod(target, name, args, keywords) =>
      !keywords &&
      if target.EName? && target.id in ns.globals && ns.globals[target.id].GMath? then
        IsMathName(name) && Length(args) == 1 && AllForms(ns, locals, args)
      else
        HasForm(ns, locals, target)
        && (|| (name in {"lower", "upper", "strip", "lstrip", "rstrip"} && args.ENil?)
            || (name in {"startswith", "endswith"} && Length(args) == 1 && AllText(ns, locals, args))
            || (name == "replace" && Length(args) == 2 && AllText(ns, locals, args)))
    case EList(_) => false
    case EOther => false
  }

  /** An expression that is no constant. */
  predicate IsTree(ns: Names, locals: set<string>, e: PyExpr)
    decreases DEEPEST - ns.depth, 0, ESize(e), 2
  { ConstIn(ns, locals, e).None? && HasForm(ns, locals, e) }

  predicate IsOperand(ns: Names, locals: set<string>, e: PyExpr)
    decreases DEEPEST - ns.depth, 0, ESize(e), 2
  { ConstIn(ns, locals, e).Some? || HasForm(ns, locals, e) }

  predicate AllForms(ns: Names, locals: set<string>, es: PyExprs)
    decreases DEEPEST - ns.depth, 0, EsSize(es), 3, es
  { es.ENil? || (HasForm(ns, locals, es.hd) && AllForms(ns, locals, es.tl)) }

  predicate AllOperands(ns: Names, locals: set<string>, es: PyExprs)
    decreases DEEPEST - ns.depth, 0, EsSize(es), 3, es
  { es.ENil? || (IsOperand(ns, locals, es.hd) && AllOperands(ns, locals, es.tl)) }

  predicate SomeTree(ns: Names, locals: set<string>, es: PyExprs)
    decreases DEEPEST - ns.depth, 0, EsSize(es), 3, es
  { es.ECons? && (IsTree(ns, locals, es.hd) || SomeTree(ns, locals, es.tl)) }

  predicate ChainForm(ns: Names, locals: set<string>, l: PyExpr, chain: PyChain)
    decreases DEEPEST - ns.depth, 0, ESize(l) + ChainSize(chain), 4
  { chain.CNil? || (LinkForm(ns, locals, l, chain.cop, chain.right) && ChainForm(ns, locals, chain.right, chain.tail)) }

  predicate LinkForm(ns: Names, locals: set<string>, l: PyExpr, op: PyCmpOp, r: PyExpr)
    decreases DEEPEST - ns.depth, 0, ESize(l) + ESize(r), 3
  {
    match op
    case CIn | CNotIn => (IsText(ns, locals, l) && HasForm(ns, locals, r)) || (IsTree(ns, locals, l) && IsChoice(ns, locals, r))
    case CIs | CIsNot => (l == EConst(KNone)) != (r == EConst(KNone)) && IsTree(ns, locals, if l == EConst(KNone) then r else l)
    case _ => IsOperand(ns, locals, l) && IsOperand(ns, locals, r) && (IsTree(ns, locals, l) || IsTree(ns, locals, r))
  }

  /** A builtin at its number of arguments, else a function of the globals. */
  predicate CallForm(ns: Names, locals: set<string>, f: string, args: PyExprs)
    decreases DEEPEST - ns.depth, 0, EsSize(args), 5
  {
    if OneArgument(f) && Length(args) == 1 then AllForms(ns, locals, args)
    else if ManyArguments(f) && Length(args) >= 2 then AllOperands(ns, locals, args) && SomeTree(ns, locals, args)
    else f in ns.globals && ns.globals[f].GFun? && AllOperands(ns, locals, args) && CalleeForm(ns, ns.globals[f].f, Length(args))
  }

  /** A function of the module, less than eight calls deep, with a parameter for each argument. */
  predicate CalleeForm(ns: Names, callee: string, arguments: nat)
    decreases DEEPEST - ns.depth, 0, 0, 0
  {
    && ns.depth < DEEPEST && callee in ns.funs && |ns.funs[callee].params| == arguments && Distinct(ns.funs[callee].params)
    && var fd := ns.funs[callee];
       BodyForm(Names(ns.funs, fd.globals, None, None, (set p | p in fd.params), ns.depth + 1), fd.body)
  }

  // ---- bodies --------------------------------------------------------------------------------------------------

  predicate BodyForm(ns: Names, body: Body)
    decreases DEEPEST - ns.depth, 2
  {
    match body
    case Lambda(e) => HasForm(ns, {}, e)
    case Def(ss) => Returns(ns, {}, DropDocs(ss))
  }

  /** Every path through the statements assigns and tests expressions with a form, and returns one. */
  predicate Returns(ns: Names, locals: set<string>, ss: PyStmts)
    decreases DEEPEST - ns.depth, 1, Size(ss)
  {
    match ss
    case SNil => false
    case SCons(s, rest) =>
      match s
      case SReturn(None) => false
      case SReturn(Some(e)) => HasForm(ns, locals, e)
      case SAssign(x, e) => HasForm(ns, locals, e) && Returns(ns, locals + {x}, rest)
      case SIf(test, body, orelse) =>
        assert Size(ss) == 1 + Size(body) + Size(orelse) + Size(rest);
        HasForm(ns, locals, test) && Returns(ns, locals, body) && Returns(ns, locals, Append(orelse, rest))
      case SPass => Returns(ns, locals, rest)
      case SDoc => false
      case SOther => false
  }

  // ---- the lowering accepts exactly these ------------------------------------------------------------------------

  lemma {:induction false} ConstsAgree(ctx: Ctx, exprs: map<string, Expr>, e: PyExpr)
    ensures ConstIn(NamesOf(ctx), exprs.Keys, e) == Constant(ctx, exprs, e)
  {
    match e
    case ENeg(x) => ConstsAgree(ctx, exprs, x);
    case _ =>
  }

  lemma ConsAll(c: Const, cs: seq<Const>)
    ensures Exprs.AllStrs([c] + cs) <==> c.CS? && Exprs.AllStrs(cs)
    ensures AllInts([c] + cs) <==> c.CI? && AllInts(cs)
  {
    assert ([c] + cs)[0] == c && forall i | 0 <= i < |cs| :: ([c] + cs)[i + 1] == cs[i];
  }

  lemma OneLong(es: PyExprs)
    ensures Length(es) == 1 <==> es.ECons? && es.tl.ENil?
  {
    assert es.ECons? && es.tl.ECons? ==> Length(es) >= 2;
  }

  lemma {:induction false} TextsAgree(ctx: Ctx, exprs: map<string, Expr>, es: PyExprs)
    ensures AllText(NamesOf(ctx), exprs.Keys, es) <==> Constants(ctx, exprs, es).Some? && Exprs.AllStrs(Constants(ctx, exprs, es).value)
    ensures AllWhole(NamesOf(ctx), exprs.Keys, es) <==> Constants(ctx, exprs, es).Some? && AllInts(Constants(ctx, exprs, es).value)
    ensures Constants(ctx, exprs, es).Some? ==> |Constants(ctx, exprs, es).value| == Length(es)
  {
    if es.ECons? {
      ConstsAgree(ctx, exprs, es.hd);
      TextsAgree(ctx, exprs, es.tl);
      if Constants(ctx, exprs, es).Some? { ConsAll(Constant(ctx, exprs, es.hd).value, Constants(ctx, exprs, es.tl).value); }
    }
  }

  lemma {:induction false} ListsAgree(vs: seq<PyConst>)
    ensures ConstsOf(vs).Some? && AllInts(ConstsOf(vs).value) <==> forall i | 0 <= i < |vs| :: vs[i].KInt?
    ensures ConstsOf(vs).Some? && Exprs.AllStrs(ConstsOf(vs).value) <==> forall i | 0 <= i < |vs| :: vs[i].KStr?
  {
    if vs != [] {
      ListsAgree(vs[1..]);
      assert forall i | 0 < i < |vs| :: vs[i] == vs[1..][i - 1];
      assert forall i | 0 <= i < |vs| - 1 :: vs[1..][i] == vs[i + 1];
      if ConstsOf(vs).Some? { ConsAll(ConstOf(vs[0]).value, ConstsOf(vs[1..]).value); }
    }
  }

  lemma {:induction false} ChoicesAgree(ctx: Ctx, exprs: map<string, Expr>, t: Expr, r: PyExpr, negate: bool)
    ensures IsChoice(NamesOf(ctx), exprs.Keys, r) <==> MemberTree(t, ListOf(ctx, exprs, r), negate).Some?
  {
    match r
    case EList(es) => TextsAgree(ctx, exprs, es);
    case EName(id) => if id in ctx.globals && ctx.globals[id].GList? { ListsAgree(ctx.globals[id].values); }
    case _ =>
  }

  lemma NamesKnown(f: string)
    ensures OneArgument(f) <==> BuiltinOf(f).Some? && Builtin1(BuiltinOf(f).value).Some?
    ensures ManyArguments(f) <==> BuiltinOf(f).Some? && Builtin1(BuiltinOf(f).value).None?
    ensures IsMathName(f) <==> MathOf(f).Some?
  {
  }

  lemma MethodsKnown(name: string, t: Expr, none: bool, cs: Option<seq<Const>>)
    requires none ==> cs == Some([])
    ensures MethodOf(name).Some? && MethodTree(t, MethodOf(name).value, none, cs).Some? <==>
              || (name in {"lower", "upper", "strip", "lstrip", "rstrip"} && none)
              || (name in {"startswith", "endswith"} && cs.Some? && |cs.value| == 1 && Exprs.AllStrs(cs.value))
              || (name == "replace" && cs.Some? && |cs.value| == 2 && Exprs.AllStrs(cs.value))
  {
  }

  /** An expression lowers if and only if it has a form. */
  lemma {:induction false} LowersExactly(ctx: Ctx, loc: Locals, e: PyExpr)
    ensures LowerExpr(ctx, loc, e).Low? <==> HasForm(NamesOf(ctx), loc.exprs.Keys, e)
    decreases DEEPEST - ctx.depth, 0, ESize(e), 1
  {
    hide Constant, ConstIn, IsInt, Claimed, MethodTree, MethodOf, MathOf, BuiltinOf, IsMathName;
    hide LowerCall, CallForm, LowerCompare, ChainForm;
    match e
    case EBin(op, l, r) => BinExactly(ctx, loc, op, l, r);
    case ENeg(x) =>
      ConstsAgree(ctx, loc.exprs, x);
      LowersExactly(ctx, loc, x);
    case ENot(x) => LowersExactly(ctx, loc, x);
    case EBool(isAnd, first, rest) =>
      LowersExactly(ctx, loc, first);
      if LowerExpr(ctx, loc, first).Low? {
        BoolExactly(ctx, loc, isAnd, LowerExpr(ctx, loc, first).e, LowerExpr(ctx, loc, first).plain, rest);
      }
    case ECompare(l, chain) => CompareExactly(ctx, loc, l, chain);
    case EIfExp(c, x, y) =>
      LowersExactly(ctx, loc, c);
      LowersExactly(ctx, loc, x);
      LowersExactly(ctx, loc, y);
    case ECall(f, args, _) => CallExactly(ctx, loc, f, args);
    case EMethod(_, _, _, _) => MethodExactly(ctx, loc, e);
    case _ =>
  }

  lemma OneForm(ns: Names, locals: set<string>, es: PyExprs)
    ensures es.ECons? && es.tl.ENil? ==> (AllForms(ns, locals, es) <==> HasForm(ns, locals, es.hd))
  {
    hide HasForm;
    assert AllForms(ns, locals, ENil);
  }

  /** A call of `math`, as it is lowered and as the grammar has it. */
  predicate OnMath(ctx: Ctx, e: PyExpr)
    requires e.EMethod?
  { e.target.EName? && e.target.id in ctx.globals && ctx.globals[e.target.id].GMath? }

  lemma {:induction false} MethodExactly(ctx: Ctx, loc: Locals, e: PyExpr)
    requires e.EMethod?
    ensures LowerExpr(ctx, loc, e).Low? <==> HasForm(NamesOf(ctx), loc.exprs.Keys, e)
    decreases DEEPEST - ctx.depth, 0, ESize(e), 0
  {
    assert ESize(e) == 1 + ESize(e.target) + EsSize(e.args);
    if OnMath(ctx, e) {
      MathExactly(ctx, loc, e);
    } else {
      hide Constant, ConstIn, MethodTree, MethodOf, MathOf, IsMathName, Constants, AllText;
      LowersExactly(ctx, loc, e.target);
      TextsAgree(ctx, loc.exprs, e.args);
      if LowerExpr(ctx, loc, e.target).Low? {
        assert e.args.ENil? ==> Constants(ctx, loc.exprs, e.args) == Some([]) by { NoConstants(ctx, loc.exprs); }
        MethodsKnown(e.name, LowerExpr(ctx, loc, e.target).e, e.args.ENil?, Constants(ctx, loc.exprs, e.args));
      }
    }
  }

  lemma {:induction false} MathExactly(ctx: Ctx, loc: Locals, e: PyExpr)
    requires e.EMethod? && OnMath(ctx, e)
    ensures LowerExpr(ctx, loc, e).Low? <==> HasForm(NamesOf(ctx), loc.exprs.Keys, e)
    decreases DEEPEST - ctx.depth, 0, EsSize(e.args), 6
  {
    hide MathOf, IsMathName, AllForms;
    NamesKnown(e.name);
    OneLong(e.args);
    if e.args.ECons? { LowersExactly(ctx, loc, e.args.hd); }
    OneForm(NamesOf(ctx), loc.exprs.Keys, e.args);
  }

  lemma NoConstants(ctx: Ctx, exprs: map<string, Expr>)
    ensures Constants(ctx, exprs, ENil) == Some([])
  {
  }

  lemma {:induction false} OperandExactly(ctx: Ctx, loc: Locals, e: PyExpr)
    ensures ConstIn(NamesOf(ctx), loc.exprs.Keys, e) == Constant(ctx, loc.exprs, e)
    ensures LowerOperand(ctx, loc, e).Tree? <==> IsTree(NamesOf(ctx), loc.exprs.Keys, e)
    ensures LowerOperand(ctx, loc, e).Scalar? <==> ConstIn(NamesOf(ctx), loc.exprs.Keys, e).Some?
    ensures LowerOperand(ctx, loc, e).Scalar? ==> Some(LowerOperand(ctx, loc, e).c) == ConstIn(NamesOf(ctx), loc.exprs.Keys, e)
    decreases DEEPEST - ctx.depth, 0, ESize(e), 2
  {
    hide LowerExpr, HasForm;
    ConstsAgree(ctx, loc.exprs, e);
    LowersExactly(ctx, loc, e);
  }

  lemma {:induction false} BinExactly(ctx: Ctx, loc: Locals, op: PyBinOp, l: PyExpr, r: PyExpr)
    ensures LowerExpr(ctx, loc, EBin(op, l, r)).Low? <==> HasForm(NamesOf(ctx), loc.exprs.Keys, EBin(op, l, r))
    decreases DEEPEST - ctx.depth, 0, ESize(l) + ESize(r), 4
  {
    hide Constant, ConstIn, IsInt, Claimed, LowerOperand, IsTree;
    OperandExactly(ctx, loc, l);
    OperandExactly(ctx, loc, r);
  }

  lemma {:induction false} BoolExactly(ctx: Ctx, loc: Locals, isAnd: bool, out: Expr, plain: bool, rest: PyExprs)
    ensures LowerBool(ctx, loc, isAnd, out, plain, rest).Low? <==> AllForms(NamesOf(ctx), loc.exprs.Keys, rest)
    decreases DEEPEST - ctx.depth, 0, EsSize(rest), 3, rest
  {
    hide LowerExpr, HasForm;
    if rest.ECons? {
      LowersExactly(ctx, loc, rest.hd);
      var x := LowerExpr(ctx, loc, rest.hd);
      if x.Low? { BoolExactly(ctx, loc, isAnd, Bin(Logical(if isAnd then And else Or), out, x.e), plain && x.plain, rest.tl); }
    }
  }

  lemma {:induction false} CompareExactly(ctx: Ctx, loc: Locals, l: PyExpr, chain: PyChain)
    ensures LowerCompare(ctx, loc, l, chain).Low? <==> chain.CCons? && ChainForm(NamesOf(ctx), loc.exprs.Keys, l, chain)
    decreases DEEPEST - ctx.depth, 0, ESize(l) + ChainSize(chain), 5
  {
    hide LowerLink, LinkForm;
    if chain.CCons? {
      LinkExactly(ctx, loc, l, chain.cop, chain.right);
      var x := LowerLink(ctx, loc, l, chain.cop, chain.right);
      if x.Low? { ChainExactly(ctx, loc, x.e, x.plain, chain.right, chain.tail); }
    }
  }

  lemma {:induction false} ChainExactly(ctx: Ctx, loc: Locals, out: Expr, plain: bool, l: PyExpr, chain: PyChain)
    ensures LowerChain(ctx, loc, out, plain, l, chain).Low? <==> ChainForm(NamesOf(ctx), loc.exprs.Keys, l, chain)
    decreases DEEPEST - ctx.depth, 0, ESize(l) + ChainSize(chain), 4
  {
    hide LowerLink, LinkForm;
    if chain.CCons? {
      LinkExactly(ctx, loc, l, chain.cop, chain.right);
      var x := LowerLink(ctx, loc, l, chain.cop, chain.right);
      if x.Low? { ChainExactly(ctx, loc, Bin(Logical(And), out, x.e), plain && x.plain, chain.right, chain.tail); }
    }
  }

  lemma MemberLink(ctx: Ctx, loc: Locals, l: PyExpr, op: PyCmpOp, r: PyExpr)
    requires op == CIn || op == CNotIn
    ensures LowerLink(ctx, loc, l, op, r) == LowerMember(ctx, loc, l, r, op == CNotIn)
    ensures LinkForm(NamesOf(ctx), loc.exprs.Keys, l, op, r) <==>
              || (IsText(NamesOf(ctx), loc.exprs.Keys, l) && HasForm(NamesOf(ctx), loc.exprs.Keys, r))
              || (IsTree(NamesOf(ctx), loc.exprs.Keys, l) && IsChoice(NamesOf(ctx), loc.exprs.Keys, r))
  {
    hide LowerMember, IsText, HasForm, IsTree, IsChoice, NamesOf;
  }

  lemma NullLink(ctx: Ctx, loc: Locals, l: PyExpr, op: PyCmpOp, r: PyExpr)
    requires op == CIs || op == CIsNot
    ensures LowerLink(ctx, loc, l, op, r) == LowerNullTest(ctx, loc, l, r, op == CIs)
    ensures LinkForm(NamesOf(ctx), loc.exprs.Keys, l, op, r) <==>
              (l == EConst(KNone)) != (r == EConst(KNone)) && IsTree(NamesOf(ctx), loc.exprs.Keys, if l == EConst(KNone) then r else l)
  {
    hide LowerNullTest, IsTree, NamesOf;
  }

  lemma OrderLink(ctx: Ctx, loc: Locals, l: PyExpr, op: PyCmpOp, r: PyExpr)
    requires op != CIn && op != CNotIn && op != CIs && op != CIsNot
    ensures LowerLink(ctx, loc, l, op, r) == LowerOrder(ctx, loc, l, OrderingOf(op), r)
    ensures LinkForm(NamesOf(ctx), loc.exprs.Keys, l, op, r) <==>
              && IsOperand(NamesOf(ctx), loc.exprs.Keys, l) && IsOperand(NamesOf(ctx), loc.exprs.Keys, r)
              && (IsTree(NamesOf(ctx), loc.exprs.Keys, l) || IsTree(NamesOf(ctx), loc.exprs.Keys, r))
  {
    hide LowerOrder, IsOperand, IsTree, NamesOf;
  }

  lemma {:induction false} LinkExactly(ctx: Ctx, loc: Locals, l: PyExpr, op: PyCmpOp, r: PyExpr)
    ensures LowerLink(ctx, loc, l, op, r).Low? <==> LinkForm(NamesOf(ctx), loc.exprs.Keys, l, op, r)
    decreases DEEPEST - ctx.depth, 0, ESize(l) + ESize(r), 3
  {
    hide LowerLink, LinkForm, LowerOperand, IsTree, IsOperand, IsText, LowerExpr, HasForm, IsChoice, ConstIn;
    hide LowerOrder, LowerNullTest, LowerMember, Constant, NamesOf, CmpOf;
    OperandExactly(ctx, loc, l);
    if op == CIn || op == CNotIn {
      MemberLink(ctx, loc, l, op, r);
      LowersExactly(ctx, loc, r);
      MemberExactly(ctx, loc, l, r, op == CNotIn);
    } else {
      OperandExactly(ctx, loc, r);
      if op == CIs || op == CIsNot {
        NullLink(ctx, loc, l, op, r);
        NullExactly(ctx, loc, l, r, op == CIs);
      } else {
        OrderLink(ctx, loc, l, op, r);
        OrderExactly(ctx, loc, l, OrderingOf(op), r);
      }
    }
  }

  function OrderingOf(op: PyCmpOp): CmpOp
    requires op != CIn && op != CNotIn && op != CIs && op != CIsNot
  { CmpOf(op).value }

  /** An operand that lowers is a constant or a tree. */
  ghost predicate OperandKnown(ctx: Ctx, loc: Locals, e: PyExpr) {
    && (LowerOperand(ctx, loc, e).Tree? <==> IsTree(NamesOf(ctx), loc.exprs.Keys, e))
    && (LowerOperand(ctx, loc, e).Scalar? <==> ConstIn(NamesOf(ctx), loc.exprs.Keys, e).Some?)
  }

  lemma OrderOfForm(op: CmpOp, x: Operand, y: Operand)
    ensures OrderOf(op, x, y).Low? <==> !x.NoOperand? && !y.NoOperand? && (x.Tree? || y.Tree?)
  {
    hide Flip;
  }

  lemma OrderExactly(ctx: Ctx, loc: Locals, l: PyExpr, op: CmpOp, r: PyExpr)
    requires OperandKnown(ctx, loc, l) && OperandKnown(ctx, loc, r)
    ensures LowerOrder(ctx, loc, l, op, r).Low? <==>
              && IsOperand(NamesOf(ctx), loc.exprs.Keys, l) && IsOperand(NamesOf(ctx), loc.exprs.Keys, r)
              && (IsTree(NamesOf(ctx), loc.exprs.Keys, l) || IsTree(NamesOf(ctx), loc.exprs.Keys, r))
  {
    hide LowerOperand, IsTree, IsOperand, ConstIn, OrderOf;
    OperandsOnly(ctx, loc, l);
    OperandsOnly(ctx, loc, r);
    OrderOfForm(op, LowerOperand(ctx, loc, l), LowerOperand(ctx, loc, r));
  }

  lemma NullExactly(ctx: Ctx, loc: Locals, l: PyExpr, r: PyExpr, missing: bool)
    requires OperandKnown(ctx, loc, l) && OperandKnown(ctx, loc, r)
    ensures LowerNullTest(ctx, loc, l, r, missing).Low? <==>
              (l == EConst(KNone)) != (r == EConst(KNone)) && IsTree(NamesOf(ctx), loc.exprs.Keys, if l == EConst(KNone) then r else l)
  {
    hide LowerOperand, IsTree, ConstIn;
  }

  lemma {:induction false} MemberExactly(ctx: Ctx, loc: Locals, l: PyExpr, r: PyExpr, negate: bool)
    requires LowerExpr(ctx, loc, r).Low? <==> HasForm(NamesOf(ctx), loc.exprs.Keys, r)
    requires LowerOperand(ctx, loc, l).Tree? <==> IsTree(NamesOf(ctx), loc.exprs.Keys, l)
    requires LowerOperand(ctx, loc, l).Scalar? ==> Some(LowerOperand(ctx, loc, l).c) == ConstIn(NamesOf(ctx), loc.exprs.Keys, l)
    requires LowerOperand(ctx, loc, l).Scalar? <==> ConstIn(NamesOf(ctx), loc.exprs.Keys, l).Some?
    ensures LowerMember(ctx, loc, l, r, negate).Low? <==>
              || (IsText(NamesOf(ctx), loc.exprs.Keys, l) && HasForm(NamesOf(ctx), loc.exprs.Keys, r))
              || (IsTree(NamesOf(ctx), loc.exprs.Keys, l) && IsChoice(NamesOf(ctx), loc.exprs.Keys, r))
  {
    hide LowerOperand, LowerExpr, HasForm, IsChoice, MemberTree, ListOf, ConstIn;
    if LowerOperand(ctx, loc, l).Tree? { ChoicesAgree(ctx, loc.exprs, LowerOperand(ctx, loc, l).t, r, negate); }
  }

  lemma OperandsOnly(ctx: Ctx, loc: Locals, e: PyExpr)
    ensures IsOperand(NamesOf(ctx), loc.exprs.Keys, e) <==>
              ConstIn(NamesOf(ctx), loc.exprs.Keys, e).Some? || IsTree(NamesOf(ctx), loc.exprs.Keys, e)
  {
    hide HasForm, ConstIn;
  }

  lemma {:induction false} OperandsExactly(ctx: Ctx, loc: Locals, es: PyExprs)
    ensures LowerOperands(ctx, loc, es).Some? <==> AllOperands(NamesOf(ctx), loc.exprs.Keys, es)
    ensures LowerOperands(ctx, loc, es).Some? ==>
              (AnyTree(LowerOperands(ctx, loc, es).value) <==> SomeTree(NamesOf(ctx), loc.exprs.Keys, es))
    decreases DEEPEST - ctx.depth, 0, EsSize(es), 3, es
  {
    hide LowerOperand, IsTree, IsOperand, ConstIn, Constant;
    if es.ECons? {
      OperandExactly(ctx, loc, es.hd);
      OperandsOnly(ctx, loc, es.hd);
      OperandsExactly(ctx, loc, es.tl);
      if LowerOperands(ctx, loc, es).Some? {
        var os, tl := LowerOperands(ctx, loc, es).value, LowerOperands(ctx, loc, es.tl).value;
        assert os[0] == LowerOperand(ctx, loc, es.hd) && os[1..] == tl;
        assert forall i | 0 < i < |os| :: os[i] == tl[i - 1];
        assert forall i | 0 <= i < |tl| :: tl[i] == os[i + 1];
      }
    }
  }

  lemma {:induction false} CallExactly(ctx: Ctx, loc: Locals, f: string, args: PyExprs)
    ensures LowerCall(ctx, loc, f, args).Low? <==> CallForm(NamesOf(ctx), loc.exprs.Keys, f, args)
    decreases DEEPEST - ctx.depth, 0, EsSize(args), 5
  {
    hide BuiltinOf, OneArgument, ManyArguments, LowerExpr, HasForm, Inline, CalleeForm, LowerOperands, AllOperands;
    NamesKnown(f);
    OneLong(args);
    if args.ECons? { LowersExactly(ctx, loc, args.hd); }
    OneForm(NamesOf(ctx), loc.exprs.Keys, args);
    OperandsExactly(ctx, loc, args);
    if f in ctx.globals && ctx.globals[f].GFun? { InlineExactly(ctx, loc, ctx.globals[f].f, args); }
  }

  lemma {:induction false} InlineExactly(ctx: Ctx, loc: Locals, callee: string, args: PyExprs)
    ensures Inline(ctx, loc, callee, args).Low? <==>
              AllOperands(NamesOf(ctx), loc.exprs.Keys, args) && CalleeForm(NamesOf(ctx), callee, Length(args))
    decreases DEEPEST - ctx.depth, 0, EsSize(args), 4
  {
    hide LowerOperands, AllOperands, LowerBody, BodyForm;
    OperandsExactly(ctx, loc, args);
    if ctx.depth < DEEPEST && callee in ctx.funs && |ctx.funs[callee].params| == Length(args) && LowerOperands(ctx, loc, args).Some? {
      var fd, os := ctx.funs[callee], LowerOperands(ctx, loc, args).value;
      var ctx' := InlineCtx(ctx, loc, fd, os, args);
      BindKeys(fd.params, ArgTrees(os));
      assert ctx'.bound.Keys == set p | p in fd.params;
      BodyExactly(ctx', fd.body);
    }
  }

  lemma {:induction false} BodyExactly(ctx: Ctx, body: Body)
    ensures LowerBody(ctx, body).Low? <==> BodyForm(NamesOf(ctx), body)
    decreases DEEPEST - ctx.depth, 2
  {
    hide LowerExpr, HasForm, LowerBlock, Returns;
    assert NoLocals().exprs.Keys == {};
    match body
    case Lambda(e) => LowersExactly(ctx, NoLocals(), e);
    case Def(ss) => BlockExactly(ctx, NoLocals(), DropDocs(ss));
  }

  lemma {:induction false} BlockExactly(ctx: Ctx, loc: Locals, ss: PyStmts)
    ensures LowerBlock(ctx, loc, ss).res.Value? <==> Returns(NamesOf(ctx), loc.exprs.Keys, ss)
    decreases DEEPEST - ctx.depth, 1, Size(ss)
  {
    hide LowerExpr, HasForm, IsInt, HonestInt;
    match ss
    case SNil =>
    case SCons(s, rest) =>
      match s
      case SReturn(Some(e)) => LowersExactly(ctx, loc, e);
      case SAssign(x, e) =>
        LowersExactly(ctx, Assigning(ctx, loc, x, e), e);
        var t := LowerExpr(ctx, Assigning(ctx, loc, x, e), e);
        if t.Low? {
          assert Assigned(ctx, loc, x, e, t.e).exprs.Keys == loc.exprs.Keys + {x};
          BlockExactly(ctx, Assigned(ctx, loc, x, e, t.e), rest);
        }
      case SIf(test, body, orelse) =>
        assert Size(ss) == 1 + Size(body) + Size(orelse) + Size(rest);
        LowersExactly(ctx, loc, test);
        BlockExactly(ctx, loc, body);
        BlockExactly(ctx, loc.(ints := LowerBlock(ctx, loc, body).ints), Append(orelse, rest));
      case SPass => BlockExactly(ctx, loc, rest);
      case _ =>
  }

  /** A function is lowered if and only if it has one parameter and its body a form. */
  lemma {:induction false} TranspilesExactly(funs: Funs, fd: FunDef, columns: Option<set<string>>, intInputs: map<string, bool>)
    ensures Transpile(funs, fd, columns, intInputs).Low? <==>
              && |fd.params| == 1
              && var p := fd.params[0];
                 BodyForm(if columns.Some? then Names(funs, fd.globals, Some(p), columns, {}, 0)
                          else Names(funs, fd.globals, None, None, {p}, 0), fd.body)
  {
    hide LowerBody, BodyForm;
    if |fd.params| == 1 {
      var ctx := EntryCtx(funs, fd, columns, intInputs);
      var p := fd.params[0];
      assert NamesOf(ctx) == if columns.Some? then Names(funs, fd.globals, Some(p), columns, {}, 0)
                             else Names(funs, fd.globals, None, None, {p}, 0);
      BodyExactly(ctx, fd.body);
    }
  }

  // ---- which expressions are whole numbers, and what an inlined call knows of its parameters ------------------------

  /** Int-ness by syntax and names: `ints` are the locals and `bound` the parameters known to be integers, `fields` the
      integer columns. */
  predicate IsWholeForm(ns: Names, locals: set<string>, ints: set<string>, bound: set<string>, fields: set<string>, e: PyExpr) {
    var c := ConstIn(ns, locals, e);
    if c.Some? then c.value.CI?
    else
      match e
      case EName(id) => if id in locals then id in ints else id in bound
      case ESubscript(EName(r), EConst(KStr(k))) => ns.row == Some(r) && k in fields
      case EAttr(EName(r), k) => ns.row == Some(r) && k in fields
      case EBin(op, l, r) =>
        op != OpDiv && op != OpPow && IsWholeForm(ns, locals, ints, bound, fields, l) && IsWholeForm(ns, locals, ints, bound, fields, r)
      case ENeg(x) => IsWholeForm(ns, locals, ints, bound, fields, x)
      case EIfExp(_, x, y) => IsWholeForm(ns, locals, ints, bound, fields, x) && IsWholeForm(ns, locals, ints, bound, fields, y)
      case ECall(f, args, _) => f in {"int", "len"} || (f in {"abs", "min", "max"} && AllWholeForms(ns, locals, ints, bound, fields, args))
      case _ => false
  }

  predicate AllWholeForms(ns: Names, locals: set<string>, ints: set<string>, bound: set<string>, fields: set<string>, es: PyExprs) {
    es.ENil? || (IsWholeForm(ns, locals, ints, bound, fields, es.hd) && AllWholeForms(ns, locals, ints, bound, fields, es.tl))
  }

  function Flagged(m: map<string, bool>): set<string> { set k | k in m && m[k] }

  lemma IntNames(f: string)
    ensures BuiltinOf(f) == Some(BInt) || BuiltinOf(f) == Some(BLen) <==> f in {"int", "len"}
    ensures BuiltinOf(f) == Some(BAbs) || BuiltinOf(f) == Some(BMin) || BuiltinOf(f) == Some(BMax) <==> f in {"abs", "min", "max"}
  {
  }

  lemma {:induction false} IntExactly(ctx: Ctx, exprs: map<string, Expr>, ints: map<string, bool>, e: PyExpr)
    ensures IsInt(ctx, exprs, ints, e) <==>
              IsWholeForm(NamesOf(ctx), exprs.Keys, Flagged(ints), Flagged(ctx.boundInt), Flagged(ctx.intInputs), e)
  {
    hide ConstIn, Constant, BuiltinOf;
    ConstsAgree(ctx, exprs, e);
    match e
    case EBin(_, l, r) =>
      IntExactly(ctx, exprs, ints, l);
      IntExactly(ctx, exprs, ints, r);
    case ENeg(x) => IntExactly(ctx, exprs, ints, x);
    case EIfExp(_, x, y) =>
      IntExactly(ctx, exprs, ints, x);
      IntExactly(ctx, exprs, ints, y);
    case ECall(f, args, _) =>
      IntNames(f);
      IntsExactly(ctx, exprs, ints, args);
    case _ =>
  }

  lemma {:induction false} IntsExactly(ctx: Ctx, exprs: map<string, Expr>, ints: map<string, bool>, es: PyExprs)
    ensures AllInt(ctx, exprs, ints, es) <==>
              AllWholeForms(NamesOf(ctx), exprs.Keys, Flagged(ints), Flagged(ctx.boundInt), Flagged(ctx.intInputs), es)
  {
    if es.ECons? {
      IntExactly(ctx, exprs, ints, es.hd);
      IntsExactly(ctx, exprs, ints, es.tl);
    }
  }

  function Nth(es: PyExprs, i: nat): PyExpr
    requires i < Length(es)
  { if i == 0 then es.hd else Nth(es.tl, i - 1) }

  lemma {:induction false} FlagsAt(ctx: Ctx, locals: map<string, Expr>, ints: map<string, bool>, es: PyExprs, i: nat)
    requires i < Length(es)
    ensures IntFlags(ctx, locals, ints, es)[i] == IsInt(ctx, locals, ints, Nth(es, i))
  {
    hide IsInt;
    if i > 0 { FlagsAt(ctx, locals, ints, es.tl, i - 1); }
  }

  lemma {:induction false} ArgumentAt(ctx: Ctx, loc: Locals, es: PyExprs, i: nat)
    requires LowerOperands(ctx, loc, es).Some? && i < Length(es)
    ensures LowerOperands(ctx, loc, es).value[i] == LowerOperand(ctx, loc, Nth(es, i))
  {
    hide LowerOperand;
    if i > 0 { ArgumentAt(ctx, loc, es.tl, i - 1); }
  }

  /** An inlined call knows each parameter by the argument of its position: the expression it lowers to, or its constant,
      and whether it is an integer; nothing of the caller's row or locals. */
  lemma {:induction false} InlinedParameters(ctx: Ctx, loc: Locals, fd: FunDef, args: PyExprs, i: nat)
    requires LowerOperands(ctx, loc, args).Some? && |fd.params| == Length(args) && Distinct(fd.params) && i < Length(args)
    ensures var inner := InlineCtx(ctx, loc, fd, LowerOperands(ctx, loc, args).value, args);
            && fd.params[i] in inner.bound && fd.params[i] in inner.boundInt
            && (match LowerOperand(ctx, loc, Nth(args, i))
                case Tree(t, _) => inner.bound[fd.params[i]] == t
                case Scalar(c, _) => inner.bound[fd.params[i]] == Lit(c)
                case NoOperand => false)
            && inner.boundInt[fd.params[i]] == IsInt(ctx, loc.exprs, loc.ints, Nth(args, i))
            && inner.globals == fd.globals && inner.rowParam == None && inner.intInputs == map[] && inner.depth == ctx.depth + 1
  {
    hide IsInt, LowerOperand;
    var os := LowerOperands(ctx, loc, args).value;
    BindAt(fd.params, ArgTrees(os), i);
    BindAt(fd.params, IntFlags(ctx, loc.exprs, loc.ints, args), i);
    ArgumentAt(ctx, loc, args, i);
    FlagsAt(ctx, loc.exprs, loc.ints, args, i);
  }
}
