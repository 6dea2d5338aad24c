/** `_Lowering` itself: an object whose `locals` and `local_int` change as it walks statements, proved
    against the functions of `Transpiler`. A raised TranspileError, TypeError or KeyError is `None`. */
module LoweringClass {
  import opened Options
  import opened Exprs
  import opened PythonSubset
  import opened Transpiler

  function Form(l: Low): Option<Expr> { if l.NoForm? then None else Some(l.e) }

  /** An operand without its `plain` mark. */
  function Bare(o: Operand): Operand { if o.NoOperand? then o else o.(plain := true) }

  datatype BlockForm = RaisedForm | NoReturn | Returns(e: Expr)

  function FormOf(b: Block): BlockForm {
    match b
    case Raised => RaisedForm
    case FallsThrough => NoReturn
    case Value(e, _) => Returns(e)
  }


  lemma BareOrder(op: CmpOp, x: Operand, y: Operand)
    ensures Form(OrderOf(op, Bare(x), Bare(y))) == Form(OrderOf(op, x, y))
  {
  }

  lemma BareBin(op: PyBinOp, x: Operand, y: Operand, bothInt: bool)
    requires !x.NoOperand? && !y.NoOperand?
    ensures BinTree(op, Bare(x), Bare(y), bothInt) == BinTree(op, x, y, bothInt)
  {
  }

  /** Membership by the kind of its left operand. */
  lemma MemberShape(ctx: Ctx, loc: Locals, l: PyExpr, r: PyExpr, negate: bool)
    ensures var o := LowerOperand(ctx, loc, l);
            Form(LowerMember(ctx, loc, l, r, negate)) ==
            if o.NoOperand? then None
            else if o.Tree? then MemberTree(o.t, ListOf(ctx, loc.exprs, r), negate)
            else if !o.c.CS? then None
            else
              var x := Mapped(StrPred(Contains, o.c.s), LowerExpr(ctx, loc, r));
              Form(if negate then Mapped(Not, x) else x)
  {
    hide LowerOperand, LowerExpr, ListOf, MemberTree;
  }

  class Lowering {
    const ctx: Ctx
    var locals: map<string, Expr>
    var localInt: map<string, bool>
    ghost var honest: map<string, bool>

    ghost function State(): Locals reads this { Locals(locals, localInt, honest) }

    constructor (ctx: Ctx)
      ensures this.ctx == ctx && State() == NoLocals()
    {
      this.ctx := ctx;
      locals, localInt, honest := map[], map[], map[];
    }

    method Lower(body: Body) returns (r: Option<Expr>)
      requires State() == NoLocals()
      modifies this
      ensures r == Form(LowerBody(ctx, body))
      decreases MAX_INLINE_DEPTH - ctx.depth, 2
    {
      match body
      case Lambda(e) => r := LowerE(e);
      case Def(ss) =>
        var b := LowerStmts(DropDocs(ss));
        r := if b.Returns? then Some(b.e) else None;
    }

    /** Walks the statements, updating `locals` and `local_int`. An `if` lowers its body and then
        `orelse + rest` from the same saved locals; `local_int` carries over from one to the next. */
    method LowerStmts(ss: PyStmts) returns (r: BlockForm)
      modifies this
      ensures r == FormOf(LowerBlock(ctx, old(State()), ss).res)
      ensures localInt == LowerBlock(ctx, old(State()), ss).ints
      decreases MAX_INLINE_DEPTH - ctx.depth, 1, Size(ss)
    {
      var rest := ss;
      while rest.SCons?
        invariant Size(rest) <= Size(ss)
        invariant FormOf(LowerBlock(ctx, State(), rest).res) == FormOf(LowerBlock(ctx, old(State()), ss).res)
        invariant LowerBlock(ctx, State(), rest).ints == LowerBlock(ctx, old(State()), ss).ints
        decreases Size(rest)
      {
        match rest.hd {
        case SReturn(None) => return RaisedForm;
        case SReturn(Some(e)) =>
          var t := LowerE(e);
          return if t.None? then RaisedForm else Returns(t.value);
        case SAssign(x, e) =>
          ghost var was := State();
          localInt := localInt[x := IsInt(ctx, locals, localInt, e)];
          var t := LowerE(e);
          if t.None? { return RaisedForm; }
          locals := locals[x := t.value];
          honest := honest[x := HonestInt(ctx, was, e)];
        case SIf(test, body, orelse) =>
          assert Size(rest) == 1 + Size(body) + Size(orelse) + Size(rest.tl);
          var cond := LowerE(test);
          if cond.None? { return RaisedForm; }
          var saved := locals;
          ghost var savedHonest := honest;
          var then_ := LowerStmts(body);
          if then_.RaisedForm? { return RaisedForm; }
          locals, honest := saved, savedHonest;
          var otherwise := LowerStmts(Append(orelse, rest.tl));
          locals, honest := saved, savedHonest;
          if !then_.Returns? || !otherwise.Returns? { return RaisedForm; }
          return Returns(Select(cond.value, then_.e, otherwise.e));
        case SPass =>
        case SDoc => return RaisedForm;
        case SOther => return RaisedForm;
        }
        rest := rest.tl;
      }
      return NoReturn;
    }

    method LowerO(e: PyExpr) returns (r: Operand)
      ensures r == Bare(LowerOperand(ctx, State(), e))
      decreases MAX_INLINE_DEPTH - ctx.depth, 0, ESize(e), 2
    {
      var c := Constant(ctx, locals, e);
      if c.Some? { return Scalar(c.value, true); }
      var t := LowerE(e);
      r := if t.None? then NoOperand else Tree(t.value, true);
    }

    method LowerE(e: PyExpr) returns (r: Option<Expr>)
      ensures r == Form(LowerExpr(ctx, State(), e))
      decreases MAX_INLINE_DEPTH - ctx.depth, 0, ESize(e), 1
    {
      match e
      case EConst(c) => r := if ConstOf(c).Some? && !c.KStr? then Some(Lit(ConstOf(c).value)) else None;
      case EName(id) => r := Form(LowerName(ctx, locals, id));
      case ESubscript(_, _) => r := Form(LowerField(ctx, e));
      case EAttr(_, _) => r := Form(LowerField(ctx, e));
      case EBin(op, l, r0) => r := LowerBin(op, l, r0);
      case ENeg(x) => r := LowerNeg(x);
      case ENot(x) =>
        var t := LowerE(x);
        r := if t.None? then None else Some(Un(Not, t.value));
      case EBool(isAnd, first, rest) => r := LowerB(isAnd, first, rest);
      case ECompare(l, chain) => r := LowerC(l, chain);
      case EIfExp(c, x, y) =>
        var t := LowerE(c);
        var a := LowerE(x);
        var b := LowerE(y);
        r := if t.None? || a.None? || b.None? then None else Some(Select(t.value, a.value, b.value));
      case ECall(f, args, keywords) => if keywords { r := None; } else { r := LowerF(f, args); }
      case EMethod(_, _, _, _) => r := LowerM(e);
      case EList(_) => r := None;
      case EOther => r := None;
    }

    method LowerBin(op: PyBinOp, l: PyExpr, r0: PyExpr) returns (r: Option<Expr>)
      ensures r == Form(LowerExpr(ctx, State(), EBin(op, l, r0)))
      decreases MAX_INLINE_DEPTH - ctx.depth, 0, ESize(l) + ESize(r0), 3
    {
      hide Claimed, HonestInt, Unshadowed, Constant, BinTree;
      var x := LowerO(l);
      var y := LowerO(r0);
      if x.NoOperand? || y.NoOperand? { return None; }
      var bothInt := IsInt(ctx, locals, localInt, l) && IsInt(ctx, locals, localInt, r0);
      r := BinOf(op, x, y, bothInt);
      BareBin(op, LowerOperand(ctx, State(), l), LowerOperand(ctx, State(), r0), bothInt);
    }

    method LowerNeg(x: PyExpr) returns (r: Option<Expr>)
      ensures r == Form(LowerExpr(ctx, State(), ENeg(x)))
      decreases MAX_INLINE_DEPTH - ctx.depth, 0, ESize(x), 3
    {
      var o := LowerO(x);
      match o
      case NoOperand => r := None;
      case Scalar(c, _) => r := if c.CS? then None else Some(Lit(Negated(c)));
      case Tree(t, _) => r := Some(Bin(Arith(Mul), t, Lit(CI(-1))));
    }

    method LowerM(e: PyExpr) returns (r: Option<Expr>)
      requires e.EMethod?
      ensures r == Form(LowerExpr(ctx, State(), e))
      decreases MAX_INLINE_DEPTH - ctx.depth, 0, ESize(e), 0
    {
      if e.keywords { return None; }
      assert ESize(e) == 1 + ESize(e.target) + EsSize(e.args);
      if e.target.EName? && e.target.id in ctx.globals && ctx.globals[e.target.id].GMath? {
        if MathOf(e.name).None? || Length(e.args) != 1 { return None; }
        var t := LowerE(e.args.hd);
        r := if t.None? then None else Some(Un(Unary(MathOf(e.name).value), t.value));
      } else {
        var t := LowerE(e.target);
        if t.None? || MethodOf(e.name).None? { return None; }
        r := MethodTree(t.value, MethodOf(e.name).value, e.args.ENil?, Constants(ctx, locals, e.args));
      }
    }

    /** `**` multiplies in a loop; the other operators are one expression each. */
    method BinOf(op: PyBinOp, x: Operand, y: Operand, bothInt: bool) returns (r: Option<Expr>)
      ensures r == BinTree(op, x, y, bothInt)
    {
      if op == OpPow && x.Tree? && y.Scalar? && y.c.CI? && 0 < y.c.i <= 8 {
        var out := x.t;
        for k := 0 to y.c.i - 1
          invariant out == Power(x.t, k + 1)
        {
          out := Bin(Arith(Mul), out, x.t);
        }
        return Some(out);
      }
      r := BinTree(op, x, y, bothInt);
    }

    method LowerB(isAnd: bool, first: PyExpr, rest: PyExprs) returns (r: Option<Expr>)
      ensures r == Form(LowerExpr(ctx, State(), EBool(isAnd, first, rest)))
      decreases MAX_INLINE_DEPTH - ctx.depth, 0, ESize(first) + EsSize(rest), 3
    {
      var out := LowerE(first);
      if out.None? { return None; }
      ghost var goal := Form(LowerExpr(ctx, State(), EBool(isAnd, first, rest)));
      var todo := rest;
      ghost var plain := LowerExpr(ctx, State(), first).plain;
      while todo.ECons?
        invariant out.Some?
        invariant EsSize(todo) <= EsSize(rest)
        invariant Form(LowerBool(ctx, State(), isAnd, out.value, plain, todo)) == goal
        decreases todo
      {
        var t := LowerE(todo.hd);
        if t.None? { return None; }
        plain := plain && LowerExpr(ctx, State(), todo.hd).plain;
        out := Some(Bin(Logical(if isAnd then And else Or), out.value, t.value));
        todo := todo.tl;
      }
      return out;
    }

    method LowerC(l: PyExpr, chain: PyChain) returns (r: Option<Expr>)
      ensures r == Form(LowerCompare(ctx, State(), l, chain))
      decreases MAX_INLINE_DEPTH - ctx.depth, 0, ESize(l) + ChainSize(chain), 5
    {
      if chain.CNil? { return None; }
      var out := LowerL(l, chain.cop, chain.right);
      if out.None? { return None; }
      ghost var goal := Form(LowerCompare(ctx, State(), l, chain));
      ghost var plain := LowerLink(ctx, State(), l, chain.cop, chain.right).plain;
      var left, todo := chain.right, chain.tail;
      while todo.CCons?
        invariant out.Some?
        invariant ESize(left) + ChainSize(todo) <= ChainSize(chain)
        invariant Form(LowerChain(ctx, State(), out.value, plain, left, todo)) == goal
        decreases todo
      {
        var p := LowerL(left, todo.cop, todo.right);
        if p.None? { return None; }
        plain := plain && LowerLink(ctx, State(), left, todo.cop, todo.right).plain;
        out := Some(Bin(Logical(And), out.value, p.value));
        left, todo := todo.right, todo.tail;
      }
      return out;
    }

    method LowerL(l: PyExpr, op: PyCmpOp, r0: PyExpr) returns (r: Option<Expr>)
      ensures r == Form(LowerLink(ctx, State(), l, op, r0))
      decreases MAX_INLINE_DEPTH - ctx.depth, 0, ESize(l) + ESize(r0), 3
    {
      hide LowerMember, LowerOrder, LowerNullTest, Form;
      if op.CIn? { r := LowerIn(l, r0, false); }
      else if op.CNotIn? { r := LowerIn(l, r0, true); }
      else if op.CIs? { r := LowerNull(l, r0, true); }
      else if op.CIsNot? { r := LowerNull(l, r0, false); }
      else { r := LowerCmp(l, CmpOf(op).value, r0); }
    }

    method LowerCmp(l: PyExpr, op: CmpOp, r0: PyExpr) returns (r: Option<Expr>)
      ensures r == Form(LowerOrder(ctx, State(), l, op, r0))
      decreases MAX_INLINE_DEPTH - ctx.depth, 0, ESize(l) + ESize(r0), 2
    {
      hide Claimed, HonestInt, Unshadowed, Constant, BinTree;
      var x := LowerO(l);
      var y := LowerO(r0);
      r := Form(OrderOf(op, x, y));
      BareOrder(op, LowerOperand(ctx, State(), l), LowerOperand(ctx, State(), r0));
    }

    method LowerNull(l: PyExpr, r0: PyExpr, missing: bool) returns (r: Option<Expr>)
      ensures r == Form(LowerNullTest(ctx, State(), l, r0, missing))
      decreases MAX_INLINE_DEPTH - ctx.depth, 0, ESize(l) + ESize(r0), 2
    {
      if (l == EConst(KNone)) == (r0 == EConst(KNone)) { return None; }
      var o := LowerO(if l == EConst(KNone) then r0 else l);
      r := if o.Tree? then Some(Un(IsNull(missing), o.t)) else None;
    }

    method LowerIn(l: PyExpr, r0: PyExpr, negate: bool) returns (r: Option<Expr>)
      ensures r == Form(LowerMember(ctx, State(), l, r0, negate))
      decreases MAX_INLINE_DEPTH - ctx.depth, 0, ESize(l) + ESize(r0), 2
    {
      hide LowerMember, LowerExpr, ListOf, MemberTree, Mapped;
      var o := LowerO(l);
      MemberShape(ctx, State(), l, r0, negate);
      if o.NoOperand? { return None; }
      if o.Tree? { return MemberTree(o.t, ListOf(ctx, locals, r0), negate); }
      if !o.c.CS? { return None; }
      r := LowerContains(o.c.s, r0, negate);
    }

    /** A literal string `in` a value. */
    method LowerContains(sub: string, r0: PyExpr, negate: bool) returns (r: Option<Expr>)
      ensures var x := Mapped(StrPred(Contains, sub), LowerExpr(ctx, State(), r0));
              r == Form(if negate then Mapped(Not, x) else x)
      decreases MAX_INLINE_DEPTH - ctx.depth, 0, ESize(r0), 2
    {
      hide LowerExpr;
      var t := LowerE(r0);
      if t.None? { return None; }
      var x := Un(StrPred(Contains, sub), t.value);
      r := Some(if negate then Un(Not, x) else x);
    }

    /** Every argument lowered, in order. */
    method LowerArgs(es: PyExprs) returns (r: Option<seq<Operand>>)
      ensures r.Some? == LowerOperands(ctx, State(), es).Some?
      ensures r.Some? ==> |r.value| == Length(es)
      ensures r.Some? ==> forall i | 0 <= i < |r.value| :: r.value[i] == Bare(LowerOperands(ctx, State(), es).value[i])
      decreases MAX_INLINE_DEPTH - ctx.depth, 0, EsSize(es), 3
    {
      var out: seq<Operand> := [];
      var todo := es;
      ghost var goal := LowerOperands(ctx, State(), es);
      while todo.ECons?
        invariant EsSize(todo) <= EsSize(es) && |out| + Length(todo) == Length(es)
        invariant goal.Some? == LowerOperands(ctx, State(), todo).Some?
        invariant goal.Some? ==> |goal.value| == Length(es) && goal.value[|out|..] == LowerOperands(ctx, State(), todo).value
        invariant goal.Some? ==> forall i | 0 <= i < |out| :: out[i] == Bare(goal.value[i])
        decreases todo
      {
        var o := LowerO(todo.hd);
        if o.NoOperand? { return None; }
        if goal.Some? { assert goal.value[|out|..][1..] == goal.value[|out| + 1..]; }
        out := out + [o];
        todo := todo.tl;
      }
      return Some(out);
    }

    method LowerF(f: string, args: PyExprs) returns (r: Option<Expr>)
      ensures r == Form(LowerCall(ctx, State(), f, args))
      decreases MAX_INLINE_DEPTH - ctx.depth, 0, EsSize(args), 5
    {
      var b := BuiltinOf(f);
      if b.Some? && Builtin1(b.value).Some? && Length(args) == 1 {
        var t := LowerE(args.hd);
        return if t.None? then None else Some(Un(Builtin1(b.value).value, t.value));
      }
      if b.Some? && Builtin1(b.value).None? && Length(args) >= 2 {
        r := LowerExtreme(b.value.BMin?, args);
        return;
      }
      if f in ctx.globals && ctx.globals[f].GFun? {
        r := LowerInline(ctx.globals[f].f, args);
        return;
      }
      return None;
    }

    /** min / max: `out` folds over the arguments as nested selects. */
    method LowerExtreme(isMin: bool, args: PyExprs) returns (r: Option<Expr>)
      requires Length(args) >= 2
      ensures
        var os := LowerOperands(ctx, State(), args);
        r == if os.None? || !AnyTree(os.value) then None
             else Some(Fold(isMin, LitOrTree(os.value[0]), os.value[1..]))
      decreases MAX_INLINE_DEPTH - ctx.depth, 0, EsSize(args), 4
    {
      var vals := LowerArgs(args);
      ghost var os := LowerOperands(ctx, State(), args);
      if vals.None? { return None; }
      var vs := vals.value;
      if forall i | 0 <= i < |vs| :: !vs[i].Tree? {
        assert forall i | 0 <= i < |vs| :: vs[i] == Bare(os.value[i]);
        return None;
      }
      assert AnyTree(os.value) by {
        var i :| 0 <= i < |vs| && vs[i].Tree?;
        assert os.value[i].Tree?;
      }
      var out := LitOrTree(vs[0]);
      ghost var goal := Fold(isMin, LitOrTree(os.value[0]), os.value[1..]);
      for k := 1 to |vs|
        invariant Fold(isMin, out, os.value[k..]) == goal
      {
        assert os.value[k..][1..] == os.value[k + 1..] && LitOrTree(vs[k]) == LitOrTree(os.value[k]);
        out := Pick(isMin, out, LitOrTree(vs[k]));
      }
      return Some(out);
    }

    /** A fresh lowering of the callee, its parameters bound to the arguments' expressions. */
    method LowerInline(callee: string, args: PyExprs) returns (r: Option<Expr>)
      ensures r == Form(Inline(ctx, State(), callee, args))
      decreases MAX_INLINE_DEPTH - ctx.depth, 0, EsSize(args), 4
    {
      if ctx.depth >= MAX_INLINE_DEPTH || callee !in ctx.funs { return None; }
      var fd := ctx.funs[callee];
      if |fd.params| != Length(args) { return None; }
      var vals := LowerArgs(args);
      if vals.None? || !Distinct(fd.params) { return None; }
      var ctx' := InlineCtx(ctx, Locals(locals, localInt, map[]), fd, vals.value, args);
      ghost var os := LowerOperands(ctx, State(), args).value;
      assert ctx' == InlineCtx(ctx, State(), fd, os, args) by { assert ArgTrees(vals.value) == ArgTrees(os); }
      var inner := new Lowering(ctx');
      r := inner.Lower(fd.body);
    }
  }
}
