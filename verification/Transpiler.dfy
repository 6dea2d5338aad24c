/** The lowering of a Python function to a column expression, as functions: what `_Lowering` computes.

    A result carries `plain`, false where the lowering took one of four branches that do not follow
    Python: a `%` cast to Int64 on a claim of int-ness that is not the name's own at that point,
    membership in a global string, a builtin read by a name that is a global of the function, and a
    global read for a name that is the function's own. */
module Transpiler {
  import opened Options
  import opened Exprs
  import opened PythonNumbers
  import opened PythonSubset

  const MAX_INLINE_DEPTH := 8
  const TRACE_INPUT := "__x0__"

  /** What a `_Lowering` object is created with. */
  datatype Ctx = Ctx(
    funs: Funs, globals: map<string, Global>, columns: Option<set<string>>, rowParam: Option<string>,
    bound: map<string, Expr>, boundInt: map<string, bool>, intInputs: map<string, bool>, depth: nat)

  /** Its `locals` and `local_int`, and beside them the int-ness each name has on the path to here. */
  datatype Locals = Locals(exprs: map<string, Expr>, ints: map<string, bool>, honest: map<string, bool>)

  datatype Low = NoForm | Low(e: Expr, plain: bool)

  /** A Python number or string for a constant subtree, else an expression. */
  datatype Operand = NoOperand | Scalar(c: Const, plain: bool) | Tree(t: Expr, plain: bool)

  function Flag(m: map<string, bool>, k: string): bool { k in m && m[k] }

  // ---- constants and int-ness ------------------------------------------------------

  function ConstOf(c: PyConst): Option<Const> {
    match c
    case KInt(n) => Some(CI(n))
    case KFloat(r) => Some(CF(r))
    case KStr(s) => Some(CS(s))
    case _ => None
  }

  function Negated(c: Const): Const
    requires !c.CS?
  { if c.CI? then CI(-c.i) else CF(-c.r) }

  function Constant(ctx: Ctx, locals: map<string, Expr>, e: PyExpr): Option<Const> {
    match e
    case EConst(c) => ConstOf(c)
    case EName(id) =>
      if id in ctx.globals && id !in locals then
        (match ctx.globals[id]
         case GNum(c) => if c.CS? then None else Some(c)
         case GStr(s) => Some(CS(s))
         case _ => None)
      else None
    case ENeg(x) =>
      var c := Constant(ctx, locals, x);
      if c.Some? && !c.value.CS? then Some(Negated(c.value)) else None
    case _ => None
  }

  /** A constant subtree that reads a global for a parameter of the same name. */
  predicate Misread(ctx: Ctx, locals: map<string, Expr>, e: PyExpr) {
    match e
    case EName(id) => id in ctx.bound && Constant(ctx, locals, e).Some?
    case ENeg(x) => Misread(ctx, locals, x)
    case _ => false
  }

  predicate AnyMisread(ctx: Ctx, locals: map<string, Expr>, es: PyExprs) {
    es.ECons? && (Misread(ctx, locals, es.hd) || AnyMisread(ctx, locals, es.tl))
  }

  /** Whether a subtree is integer-valued, reading locals' int-ness from `ints`. */
  predicate IsInt(ctx: Ctx, locals: map<string, Expr>, ints: map<string, bool>, e: PyExpr) {
    var c := Constant(ctx, locals, e);
    if c.Some? then c.value.CI?
    else match e
      case EName(id) => if id in locals then Flag(ints, id) else Flag(ctx.boundInt, id)
      case ESubscript(_, _) => RowKey(ctx.rowParam, e).Some? && Flag(ctx.intInputs, RowKey(ctx.rowParam, e).value)
      case EAttr(_, _) => RowKey(ctx.rowParam, e).Some? && Flag(ctx.intInputs, RowKey(ctx.rowParam, e).value)
      case EBin(op, l, r) =>
        op != OpDiv && op != OpPow && IsInt(ctx, locals, ints, l) && IsInt(ctx, locals, ints, r)
      case ENeg(x) => IsInt(ctx, locals, ints, x)
      case EIfExp(_, x, y) => IsInt(ctx, locals, ints, x) && IsInt(ctx, locals, ints, y)
      case ECall(f, args, _) =>
        var b := BuiltinOf(f);
        b == Some(BInt) || b == Some(BLen)
        || ((b == Some(BAbs) || b == Some(BMin) || b == Some(BMax)) && AllInt(ctx, locals, ints, args))
      case _ => false
  }

  predicate AllInt(ctx: Ctx, locals: map<string, Expr>, ints: map<string, bool>, es: PyExprs) {
    es.ENil? || (IsInt(ctx, locals, ints, es.hd) && AllInt(ctx, locals, ints, es.tl))
  }

  /** Nothing that decides the int-ness of a subtree is a call of a builtin's name that is a global, or a parameter
      read as a global. */
  predicate Unshadowed(ctx: Ctx, locals: map<string, Expr>, e: PyExpr) {
    match e
    case EName(_) => !Misread(ctx, locals, e)
    case EBin(_, l, r) => Unshadowed(ctx, locals, l) && Unshadowed(ctx, locals, r)
    case ENeg(x) => Unshadowed(ctx, locals, x)
    case EIfExp(_, x, y) => Unshadowed(ctx, locals, x) && Unshadowed(ctx, locals, y)
    case ECall(f, args, _) =>
      f !in ctx.globals && (BuiltinOf(f) in {Some(BAbs), Some(BMin), Some(BMax)} ==> AllUnshadowed(ctx, locals, args))
    case _ => true
  }

  predicate AllUnshadowed(ctx: Ctx, locals: map<string, Expr>, es: PyExprs) {
    es.ENil? || (Unshadowed(ctx, locals, es.hd) && AllUnshadowed(ctx, locals, es.tl))
  }

  lemma {:induction false} ConstantRead(ctx: Ctx, locals: map<string, Expr>, e: PyExpr)
    requires Constant(ctx, locals, e).Some? && Unshadowed(ctx, locals, e)
    ensures !Misread(ctx, locals, e)
  {
    match e
    case ENeg(x) => ConstantRead(ctx, locals, x);
    case _ =>
  }

  /** Int-ness by the names' own flags and Python's own builtins. */
  predicate HonestInt(ctx: Ctx, loc: Locals, e: PyExpr) {
    IsInt(ctx, loc.exprs, loc.honest, e) && Unshadowed(ctx, loc.exprs, e)
  }

  /** A claim of int-ness that is not honest. */
  predicate Claimed(ctx: Ctx, loc: Locals, e: PyExpr) { IsInt(ctx, loc.exprs, loc.ints, e) && !HonestInt(ctx, loc, e) }

  // ---- operators of Expr --------------------------------------------------------------

  /** `+ - * /` where at least one side is an expression; a string never wraps, and a constant over an
      expression has no `__rtruediv__`. */
  function ArithTree(op: ArithOp, l: Operand, r: Operand): Option<Expr> {
    match (l, r)
    case (Tree(x, _), Tree(y, _)) => Some(Bin(Arith(op), x, y))
    case (Tree(x, _), Scalar(c, _)) => if c.CS? then None else Some(Bin(Arith(op), x, Lit(c)))
    case (Scalar(c, _), Tree(y, _)) => if c.CS? || op == Div then None else Some(Bin(Arith(op), Lit(c), y))
    case _ => None
  }

  function FloorTree(l: Operand, r: Operand): Option<Expr> {
    match ArithTree(Div, l, r)
    case Some(q) => Some(Un(Unary(Floor), q))
    case None => None
  }

  /** `left - floor(left / right) * right`. */
  function ModTree(l: Operand, r: Operand): Option<Expr> {
    match FloorTree(l, r)
    case None => None
    case Some(q) =>
      match ArithTree(Mul, Tree(q, true), r)
      case None => None
      case Some(p) => ArithTree(Sub, l, Tree(p, true))
  }

  function Power(x: Expr, n: nat): Expr
    requires n >= 1
  { if n == 1 then x else Bin(Arith(Mul), Power(x, n - 1), x) }

  function PowTree(l: Operand, r: Operand): Option<Expr> {
    if !l.Tree? || !r.Scalar? then None
    else if r.c == CF(0.5) then Some(Un(Unary(Sqrt), l.t))
    else if r.c == CI(0) then Some(Bin(Arith(Add), Bin(Arith(Mul), l.t, Lit(CI(0))), Lit(CI(1))))
    else if r.c.CI? && 0 < r.c.i <= 8 then Some(Power(l.t, r.c.i))
    else None
  }

  function Whole64(x: Option<Expr>, bothInt: bool): Option<Expr> {
    if x.Some? && bothInt then Some(Un(Cast(TI), x.value)) else x
  }

  function BinTree(op: PyBinOp, l: Operand, r: Operand, bothInt: bool): Option<Expr> {
    match op
    case OpAdd => ArithTree(Add, l, r)
    case OpSub => ArithTree(Sub, l, r)
    case OpMul => ArithTree(Mul, l, r)
    case OpDiv => ArithTree(Div, l, r)
    case OpFloorDiv => Whole64(FloorTree(l, r), bothInt)
    case OpMod => Whole64(ModTree(l, r), bothInt)
    case OpPow => PowTree(l, r)
    case OpOther => None
  }

  function Flip(op: CmpOp): CmpOp {
    match op
    case Lt => Gt
    case Le => Ge
    case Gt => Lt
    case Ge => Le
    case Eq => Eq
    case Ne => Ne
  }

  /** One ordering link; two expressions compare through their difference and zero. */
  function LinkTree(op: CmpOp, l: Operand, r: Operand): Option<Expr> {
    match (l, r)
    case (Tree(x, _), Scalar(c, _)) => Some(Un(Cmp(op, c), x))
    case (Scalar(c, _), Tree(y, _)) => Some(Un(Cmp(Flip(op), c), y))
    case (Tree(x, _), Tree(y, _)) => Some(Un(Cmp(op, CI(0)), Bin(Arith(Sub), x, y)))
    case _ => None
  }

  function OrderOf(op: CmpOp, x: Operand, y: Operand): Low {
    if x.NoOperand? || y.NoOperand? then NoForm else MakeLow(LinkTree(op, x, y), Plain(x) && Plain(y))
  }

  function LitOrTree(o: Operand): Expr
    requires !o.NoOperand?
  { if o.Scalar? then Lit(o.c) else o.t }

  predicate Plain(o: Operand) { !o.NoOperand? ==> o.plain }

  /** `out if out < v else v`, folded left to right. */
  function Fold(isMin: bool, out: Expr, rest: seq<Operand>): Expr
    requires forall i | 0 <= i < |rest| :: !rest[i].NoOperand?
    decreases |rest|
  {
    if rest == [] then out
    else Fold(isMin, Pick(isMin, out, LitOrTree(rest[0])), rest[1..])
  }

  function Pick(isMin: bool, out: Expr, v: Expr): Expr {
    Select(Un(Cmp(if isMin then Lt else Gt, CI(0)), Bin(Arith(Sub), out, v)), out, v)
  }

  /** The values of an `in` list, or nothing where `_IsIn` refuses them: no bools, one kind only. */
  function MemberTree(x: Expr, vs: Option<seq<Const>>, negate: bool): Option<Expr> {
    if vs.Some? && (AllInts(vs.value) || AllStrs(vs.value)) then Some(Un(IsIn(vs.value, negate), x)) else None
  }

  function Constants(ctx: Ctx, locals: map<string, Expr>, es: PyExprs): Option<seq<Const>> {
    match es
    case ENil => Some([])
    case ECons(e, tl) =>
      var c, cs := Constant(ctx, locals, e), Constants(ctx, locals, tl);
      if c.None? || cs.None? then None else Some([c.value] + cs.value)
  }

  function ConstsOf(vs: seq<PyConst>): Option<seq<Const>> {
    if vs == [] then Some([])
    else
      var c, cs := ConstOf(vs[0]), ConstsOf(vs[1..]);
      if c.None? || cs.None? then None else Some([c.value] + cs.value)
  }

  /** `list(s)` of a string: its characters. */
  function Chars(s: string): seq<Const> { seq(|s|, i requires 0 <= i < |s| => CS([s[i]])) }

  /** The list on the right of an `in`, when it is a display or a global. */
  function ListOf(ctx: Ctx, locals: map<string, Expr>, r: PyExpr): Option<seq<Const>> {
    match r
    case EList(es) => Constants(ctx, locals, es)
    case EName(id) =>
      if id in ctx.globals then
        (match ctx.globals[id]
         case GList(vs) => ConstsOf(vs)
         case GStr(s) => Some(Chars(s))
         case _ => None)
      else None
    case _ => None
  }

  function NamesString(ctx: Ctx, r: PyExpr): bool {
    r.EName? && r.id in ctx.globals && ctx.globals[r.id].GStr?
  }

  /** The list is a global read for a name of the function's own, or holds a constant that is. */
  predicate ListMisread(ctx: Ctx, locals: map<string, Expr>, r: PyExpr) {
    match r
    case EName(id) => id in locals || id in ctx.bound
    case EList(es) => AnyMisread(ctx, locals, es)
    case _ => false
  }

  function MakeLow(e: Option<Expr>, plain: bool): Low { if e.None? then NoForm else Low(e.value, plain) }

  /** Not plain where the name the lowering read is something else to Python. */
  function Unless(shadowed: bool, x: Low): Low { if x.NoForm? then NoForm else Low(x.e, x.plain && !shadowed) }

  function Mapped(op: UnOp, x: Low): Low { if x.NoForm? then NoForm else Low(Un(op, x.e), x.plain) }

  // ---- expressions ------------------------------------------------------------------------

  function LowerName(ctx: Ctx, locals: map<string, Expr>, id: string): Low {
    if ctx.rowParam == Some(id) then NoForm
    else if id in locals then Low(locals[id], true)
    else if id in ctx.bound then Low(ctx.bound[id], true)
    else if id in ctx.globals && ctx.globals[id].GNum? && !ctx.globals[id].c.CS? then Low(Lit(ctx.globals[id].c), true)
    else NoForm
  }

  function LowerField(ctx: Ctx, e: PyExpr): Low {
    var k := RowKey(ctx.rowParam, e);
    if k.Some? && ctx.columns.Some? && k.value in ctx.columns.value then Low(Col(k.value), true) else NoForm
  }

  function LowerOperand(ctx: Ctx, loc: Locals, e: PyExpr): Operand
    decreases MAX_INLINE_DEPTH - ctx.depth, 0, ESize(e), 2
  {
    var c := Constant(ctx, loc.exprs, e);
    if c.Some? then Scalar(c.value, !Misread(ctx, loc.exprs, e))
    else
      match LowerExpr(ctx, loc, e)
      case NoForm => NoOperand
      case Low(t, plain) => Tree(t, plain)
  }

  function LowerExpr(ctx: Ctx, loc: Locals, e: PyExpr): Low
    decreases MAX_INLINE_DEPTH - ctx.depth, 0, ESize(e), 1
  {
    match e
    case EConst(c) => if ConstOf(c).Some? && !c.KStr? then Low(Lit(ConstOf(c).value), true) else NoForm
    case EName(id) => LowerName(ctx, loc.exprs, id)
    case ESubscript(_, _) => LowerField(ctx, e)
    case EAttr(_, _) => LowerField(ctx, e)
    case EBin(op, l, r) =>
      var x, y := LowerOperand(ctx, loc, l), LowerOperand(ctx, loc, r);
      if x.NoOperand? || y.NoOperand? then NoForm
      else
        var bothInt := IsInt(ctx, loc.exprs, loc.ints, l) && IsInt(ctx, loc.exprs, loc.ints, r);
        var fair := op != OpMod || !bothInt || (!Claimed(ctx, loc, l) && !Claimed(ctx, loc, r));
        MakeLow(BinTree(op, x, y, bothInt), Plain(x) && Plain(y) && fair)
    case ENeg(x) =>
      (match LowerOperand(ctx, loc, x)
       case NoOperand => NoForm
       case Scalar(c, plain) => if c.CS? then NoForm else Low(Lit(Negated(c)), plain)
       case Tree(t, plain) => Low(Bin(Arith(Mul), t, Lit(CI(-1))), plain))
    case ENot(x) => Mapped(Not, LowerExpr(ctx, loc, x))
    case EBool(isAnd, first, rest) =>
      (match LowerExpr(ctx, loc, first)
       case NoForm => NoForm
       case Low(t, plain) => LowerBool(ctx, loc, isAnd, t, plain, rest))
    case ECompare(l, chain) => LowerCompare(ctx, loc, l, chain)
    case EIfExp(c, x, y) =>
      var t, a, b := LowerExpr(ctx, loc, c), LowerExpr(ctx, loc, x), LowerExpr(ctx, loc, y);
      if t.NoForm? || a.NoForm? || b.NoForm? then NoForm
      else Low(Select(t.e, a.e, b.e), t.plain && a.plain && b.plain)
    case ECall(f, args, keywords) => if keywords then NoForm else LowerCall(ctx, loc, f, args)
    case EMethod(target, name, args, keywords) =>
      if keywords then NoForm
      else if target.EName? && target.id in ctx.globals && ctx.globals[target.id].GMath? then
        (if MathOf(name).None? || Length(args) != 1 then NoForm
         else
           assert ESize(e) >= 1 + EsSize(args);
           Mapped(Unary(MathOf(name).value), LowerExpr(ctx, loc, args.hd)))
      else
        (match LowerExpr(ctx, loc, target)
         case NoForm => NoForm
         case Low(t, plain) =>
           if MethodOf(name).None? then NoForm
           else
             MakeLow(MethodTree(t, MethodOf(name).value, args.ENil?, Constants(ctx, loc.exprs, args)),
                     plain && !AnyMisread(ctx, loc.exprs, args)))
    case EList(_) => NoForm
    case EOther => NoForm
  }

  /** A string method on a value: no arguments, or literal strings. */
  function MethodTree(t: Expr, m: StrMethod, none: bool, cs: Option<seq<Const>>): Option<Expr> {
    if m.MapMethod? && none then Some(Un(StrMap(m.m), t))
    else if cs.None? || !AllStrs(cs.value) then None
    else match m
      case StartsMethod => if |cs.value| == 1 then Some(Un(StrPred(StartsWith, cs.value[0].s), t)) else None
      case EndsMethod => if |cs.value| == 1 then Some(Un(StrPred(EndsWith, cs.value[0].s), t)) else None
      case ReplaceMethod =>
        if |cs.value| == 2 then Some(Un(StrReplace(cs.value[0].s, cs.value[1].s, true), t)) else None
      case _ => None
  }

  function LowerBool(ctx: Ctx, loc: Locals, isAnd: bool, out: Expr, plain: bool, rest: PyExprs): Low
    decreases MAX_INLINE_DEPTH - ctx.depth, 0, EsSize(rest), 3
  {
    match rest
    case ENil => Low(out, plain)
    case ECons(e, tl) =>
      match LowerExpr(ctx, loc, e)
      case NoForm => NoForm
      case Low(t, p) => LowerBool(ctx, loc, isAnd, Bin(Logical(if isAnd then And else Or), out, t), plain && p, tl)
  }

  /** A chained comparison: the conjunction of its links, left to right. */
  function LowerCompare(ctx: Ctx, loc: Locals, l: PyExpr, chain: PyChain): Low
    decreases MAX_INLINE_DEPTH - ctx.depth, 0, ESize(l) + ChainSize(chain), 5
  {
    match chain
    case CNil => NoForm
    case CCons(op, r, tail) =>
      match LowerLink(ctx, loc, l, op, r)
      case NoForm => NoForm
      case Low(p, plain) => LowerChain(ctx, loc, p, plain, r, tail)
  }

  function LowerChain(ctx: Ctx, loc: Locals, out: Expr, plain: bool, l: PyExpr, chain: PyChain): Low
    decreases MAX_INLINE_DEPTH - ctx.depth, 0, ESize(l) + ChainSize(chain), 4
  {
    match chain
    case CNil => Low(out, plain)
    case CCons(op, r, tail) =>
      match LowerLink(ctx, loc, l, op, r)
      case NoForm => NoForm
      case Low(p, q) => LowerChain(ctx, loc, Bin(Logical(And), out, p), plain && q, r, tail)
  }

  function LowerLink(ctx: Ctx, loc: Locals, l: PyExpr, op: PyCmpOp, r: PyExpr): Low
    decreases MAX_INLINE_DEPTH - ctx.depth, 0, ESize(l) + ESize(r), 3
  {
    match op
    case CIn => LowerMember(ctx, loc, l, r, false)
    case CNotIn => LowerMember(ctx, loc, l, r, true)
    case CIs => LowerNullTest(ctx, loc, l, r, true)
    case CIsNot => LowerNullTest(ctx, loc, l, r, false)
    case _ => LowerOrder(ctx, loc, l, CmpOf(op).value, r)
  }

  function LowerOrder(ctx: Ctx, loc: Locals, l: PyExpr, op: CmpOp, r: PyExpr): Low
    decreases MAX_INLINE_DEPTH - ctx.depth, 0, ESize(l) + ESize(r), 2
  {
    OrderOf(op, LowerOperand(ctx, loc, l), LowerOperand(ctx, loc, r))
  }

  /** `x is None`: the null mask of `x`. */
  function LowerNullTest(ctx: Ctx, loc: Locals, l: PyExpr, r: PyExpr, missing: bool): Low
    decreases MAX_INLINE_DEPTH - ctx.depth, 0, ESize(l) + ESize(r), 2
  {
    if (l == EConst(KNone)) == (r == EConst(KNone)) then NoForm
    else
      match LowerOperand(ctx, loc, if l == EConst(KNone) then r else l)
      case Tree(t, plain) => Low(Un(IsNull(missing), t), plain)
      case _ => NoForm
  }

  function LowerMember(ctx: Ctx, loc: Locals, l: PyExpr, r: PyExpr, negate: bool): Low
    decreases MAX_INLINE_DEPTH - ctx.depth, 0, ESize(l) + ESize(r), 2
  {
    match LowerOperand(ctx, loc, l)
    case NoOperand => NoForm
    case Scalar(c, plain) =>
      if !c.CS? then NoForm
      else
        var x := Unless(!plain, Mapped(StrPred(Contains, c.s), LowerExpr(ctx, loc, r)));
        if negate then Mapped(Not, x) else x
    case Tree(t, plain) =>
      MakeLow(MemberTree(t, ListOf(ctx, loc.exprs, r), negate), plain && !NamesString(ctx, r) && !ListMisread(ctx, loc.exprs, r))
  }

  // ---- calls --------------------------------------------------------------------------------

  /** Every argument as an operand, or nothing if one has no form. */
  function LowerOperands(ctx: Ctx, loc: Locals, es: PyExprs): (r: Option<seq<Operand>>)
    ensures r.Some? ==> |r.value| == Length(es) && forall i | 0 <= i < |r.value| :: !r.value[i].NoOperand?
    decreases MAX_INLINE_DEPTH - ctx.depth, 0, EsSize(es), 3, es
  {
    match es
    case ENil => Some([])
    case ECons(e, tl) =>
      var x, xs := LowerOperand(ctx, loc, e), LowerOperands(ctx, loc, tl);
      if x.NoOperand? || xs.None? then None else Some([x] + xs.value)
  }

  predicate AllPlain(os: seq<Operand>) { forall i | 0 <= i < |os| :: Plain(os[i]) }
  predicate AnyTree(os: seq<Operand>) { exists i | 0 <= i < |os| :: os[i].Tree? }

  function IntFlags(ctx: Ctx, locals: map<string, Expr>, ints: map<string, bool>, es: PyExprs): (r: seq<bool>)
    ensures |r| == Length(es)
  {
    if es.ENil? then [] else [IsInt(ctx, locals, ints, es.hd)] + IntFlags(ctx, locals, ints, es.tl)
  }

  predicate NoneClaimed(ctx: Ctx, loc: Locals, es: PyExprs) {
    es.ENil? || (!Claimed(ctx, loc, es.hd) && NoneClaimed(ctx, loc, es.tl))
  }

  function Builtin1(f: Builtin): Option<UnOp> {
    match f
    case BAbs => Some(Unary(Abs))
    case BInt => Some(Cast(TI))
    case BFloat => Some(Cast(TF))
    case BLen => Some(StrLen(true))
    case BRound => Some(Unary(Round))
    case _ => None
  }

  /** A call by name: a builtin at its arity, else a plain function of the globals. */
  function LowerCall(ctx: Ctx, loc: Locals, f: string, args: PyExprs): Low
    decreases MAX_INLINE_DEPTH - ctx.depth, 0, EsSize(args), 5
  {
    var b := BuiltinOf(f);
    if b.Some? && Builtin1(b.value).Some? && Length(args) == 1 then
      Unless(f in ctx.globals, Mapped(Builtin1(b.value).value, LowerExpr(ctx, loc, args.hd)))
    else if b.Some? && Builtin1(b.value).None? && Length(args) >= 2 then
      var os := LowerOperands(ctx, loc, args);
      if os.None? || !AnyTree(os.value) then NoForm
      else Low(Fold(b.value.BMin?, LitOrTree(os.value[0]), os.value[1..]), AllPlain(os.value) && f !in ctx.globals)
    else if f in ctx.globals && ctx.globals[f].GFun? then Inline(ctx, loc, ctx.globals[f].f, args)
    else NoForm
  }

  function ArgTrees(os: seq<Operand>): (r: seq<Expr>)
    requires forall i | 0 <= i < |os| :: !os[i].NoOperand?
    ensures |r| == |os|
  { seq(|os|, i requires 0 <= i < |os| => LitOrTree(os[i])) }

  /** A call to a plain function: its body lowered with each parameter bound to the argument. */
  function Inline(ctx: Ctx, loc: Locals, callee: string, args: PyExprs): Low
    decreases MAX_INLINE_DEPTH - ctx.depth, 0, EsSize(args), 4
  {
    if ctx.depth >= MAX_INLINE_DEPTH || callee !in ctx.funs then NoForm
    else
      var fd := ctx.funs[callee];
      var os := LowerOperands(ctx, loc, args);
      if |fd.params| != Length(args) || os.None? || !Distinct(fd.params) then NoForm
      else
        var ctx' := InlineCtx(ctx, loc, fd, os.value, args);
        match LowerBody(ctx', fd.body)
        case NoForm => NoForm
        case Low(t, plain) => Low(t, plain && AllPlain(os.value) && NoneClaimed(ctx, loc, args))
  }

  function InlineCtx(ctx: Ctx, loc: Locals, fd: FunDef, os: seq<Operand>, args: PyExprs): Ctx
    requires |fd.params| == |os| == Length(args)
    requires forall i | 0 <= i < |os| :: !os[i].NoOperand?
  {
    Ctx(ctx.funs, fd.globals, None, None, Bind(fd.params, ArgTrees(os)),
        Bind(fd.params, IntFlags(ctx, loc.exprs, loc.ints, args)), map[], ctx.depth + 1)
  }

  // ---- statements ----------------------------------------------------------------------------

  datatype Block = Raised | FallsThrough | Value(e: Expr, plain: bool)

  /** A lowered statement list, and the `local_int` map it leaves behind. */
  datatype BlockEnd = BlockEnd(res: Block, ints: map<string, bool>)

  function DropDocs(ss: PyStmts): (r: PyStmts)
    ensures Size(r) <= Size(ss) && AssignedIn(r) == AssignedIn(ss)
  {
    match ss
    case SNil => SNil
    case SCons(s, tl) => if s.SDoc? then DropDocs(tl) else SCons(s, DropDocs(tl))
  }

  function NoLocals(): Locals { Locals(map[], map[], map[]) }

  function LowerBody(ctx: Ctx, body: Body): Low
    decreases MAX_INLINE_DEPTH - ctx.depth, 2
  {
    match body
    case Lambda(e) => LowerExpr(ctx, NoLocals(), e)
    case Def(ss) =>
      match LowerBlock(ctx, NoLocals(), DropDocs(ss)).res
      case Value(e, plain) => Low(e, plain)
      case _ => NoForm
  }

  /** The locals in force while the right side of `x = e` is lowered: `x` already has its new int-ness,
      not yet its new expression. */
  function Assigning(ctx: Ctx, loc: Locals, x: string, e: PyExpr): Locals {
    loc.(ints := loc.ints[x := IsInt(ctx, loc.exprs, loc.ints, e)])
  }

  function Assigned(ctx: Ctx, loc: Locals, x: string, e: PyExpr, t: Expr): Locals {
    Locals(loc.exprs[x := t], loc.ints[x := IsInt(ctx, loc.exprs, loc.ints, e)],
           loc.honest[x := HonestInt(ctx, loc, e)])
  }

  function LowerBlock(ctx: Ctx, loc: Locals, ss: PyStmts): BlockEnd
    decreases MAX_INLINE_DEPTH - ctx.depth, 1, Size(ss)
  {
    match ss
    case SNil => BlockEnd(FallsThrough, loc.ints)
    case SCons(s, rest) =>
      match s
      case SReturn(None) => BlockEnd(Raised, loc.ints)
      case SReturn(Some(e)) =>
        (match LowerExpr(ctx, loc, e)
         case NoForm => BlockEnd(Raised, loc.ints)
         case Low(t, plain) => BlockEnd(Value(t, plain), loc.ints))
      case SAssign(x, e) =>
        (match LowerExpr(ctx, Assigning(ctx, loc, x, e), e)
         case NoForm => BlockEnd(Raised, Assigning(ctx, loc, x, e).ints)
         case Low(t, plain) => Tainted(plain, LowerBlock(ctx, Assigned(ctx, loc, x, e, t), rest)))
      case SIf(test, body, orelse) =>
        (match LowerExpr(ctx, loc, test)
         case NoForm => BlockEnd(Raised, loc.ints)
         case Low(c, plain) =>
           assert Size(ss) == 1 + Size(body) + Size(orelse) + Size(rest);
           var a := LowerBlock(ctx, loc, body);
           if a.res.Raised? then a
           else
             var b := LowerBlock(ctx, loc.(ints := a.ints), Append(orelse, rest));
             BlockEnd(Branch(c, plain, a.res, b.res), b.ints))
      case SPass => LowerBlock(ctx, loc, rest)
      case SDoc => BlockEnd(Raised, loc.ints)
      case SOther => BlockEnd(Raised, loc.ints)
  }

  function Tainted(plain: bool, b: BlockEnd): BlockEnd {
    if b.res.Value? then b.(res := Value(b.res.e, b.res.plain && plain)) else b
  }

  /** Both arms of an `if` must return. */
  function Branch(c: Expr, plain: bool, a: Block, b: Block): Block {
    if a.Value? && b.Value? then Value(Select(c, a.e, b.e), plain && a.plain && b.plain) else Raised
  }

  // ---- entry -----------------------------------------------------------------------------------

  /** `transpile`: with columns, the one argument is a row; without, it is the value `__x0__`. */
  function EntryCtx(funs: Funs, fd: FunDef, columns: Option<set<string>>, intInputs: map<string, bool>): Ctx
    requires |fd.params| == 1
  {
    var p := fd.params[0];
    if columns.Some? then Ctx(funs, fd.globals, columns, Some(p), map[], map[], intInputs, 0)
    else
      Ctx(funs, fd.globals, None, None, map[p := Col(TRACE_INPUT)], map[p := Flag(intInputs, TRACE_INPUT)], intInputs, 0)
  }

  function Transpile(funs: Funs, fd: FunDef, columns: Option<set<string>>, intInputs: map<string, bool>): Low {
    if |fd.params| != 1 then NoForm else LowerBody(EntryCtx(funs, fd, columns, intInputs), fd.body)
  }
}
