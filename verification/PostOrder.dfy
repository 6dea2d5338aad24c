/** The serializer: an expression tree as post-order opcode tuples over positional inputs, and the native
    side that pops operands off a stack to rebuild the tree. The two opcode tables are written out
    separately, as columnar.py and columnar_eval.cpp / types.h write them. */
module PostOrder {
  import opened Options
  import opened Text
  import opened Exprs

  datatype Arg = AI(i: int) | AR(r: real) | AS(s: string) | AL(vs: seq<Const>)
  datatype Token = Token(op: int, args: seq<Arg>)

  // ---- the Python table ----------------------------------------------------------------

  function ArithCode(op: ArithOp): int { match op case Add => 0 case Sub => 1 case Mul => 2 case Div => 3 }
  function CmpCode(op: CmpOp): int {
    match op case Gt => 0 case Ge => 1 case Lt => 2 case Le => 3 case Eq => 4 case Ne => 5
  }
  function LogicalCode(op: LogicalOp): int { match op case And => 0 case Or => 1 }
  function PrimCode(p: PrimName): int {
    match p case Ilog2 => 0 case BitWidth => 1 case Popcount => 2 case Clz => 3 case Ctz => 4 case Mix64 => 5
  }
  function UnaryCode(u: UnaryName): int {
    match u
    case Abs => 0 case Round => 1 case Floor => 2 case Ceil => 3 case Log => 4 case Sqrt => 5 case Exp => 6
    case Sign => 7 case Negate => 8 case Trunc => 9 case IsNan => 10 case IsFinite => 11 case IsInfinite => 12
  }
  function StrPredCode(p: StrPredName): int {
    match p
    case Contains => 0 case StartsWith => 1 case EndsWith => 2 case Like => 3 case FullMatch => 4 case Regex => 5
  }
  function StrMapCode(m: StrMapName): int {
    match m case Lower => 0 case Upper => 1 case Strip => 2 case Lstrip => 3 case Rstrip => 4
  }
  function TypeCode(t: Base): int { match t case TB => 1 case TI => 5 case TF => 11 case TS => 12 }
  function BoolCode(b: bool): int { if b then 1 else 0 }

  function ConstArg(c: Const): Arg { match c case CI(n) => AI(n) case CF(r) => AR(r) case CS(s) => AS(s) }

  /** The tuple a one-operand node appends after its operand; None for a node that is not serialized. */
  function UnToken(op: UnOp): Option<Token> {
    match op
    case Prim(p) => Some(Token(4, [AI(PrimCode(p))]))
    case Cmp(c, rhs) => Some(Token(5, [AI(CmpCode(c)), ConstArg(rhs)]))
    case Not => Some(Token(7, []))
    case Cast(t) => Some(Token(8, [AI(TypeCode(t))]))
    case Unary(u) => Some(Token(9, [AI(UnaryCode(u))]))
    case Clip(lo, hi) => Some(Token(10, [ConstArg(lo), ConstArg(hi)]))
    case Fillna(fill) => Some(Token(11, [ConstArg(fill)]))
    case StrPred(p, pattern) => Some(Token(12, [AI(StrPredCode(p)), AS(pattern)]))
    case StrMap(m) => Some(Token(13, [AI(StrMapCode(m))]))
    case StrLen(chars) => Some(Token(14, [AI(BoolCode(chars))]))
    case StrFind(needle) => Some(Token(15, [AS(needle)]))
    case StrReplace(what, by_, all) => Some(Token(16, [AS(what), AS(by_), AI(BoolCode(all))]))
    case StrSlice(start, length) => Some(Token(17, [AI(start), AI(length)]))
    case IsIn(vs, negated) => if negated then None else Some(Token(18, [AL(vs)]))
    case IsNull(missing) => Some(Token(20, [AI(BoolCode(missing))]))
    case _ => None
  }

  function BinToken(op: BinOp): Token {
    match op
    case Arith(o) => Token(3, [AI(ArithCode(o))])
    case Logical(o) => Token(6, [AI(LogicalCode(o))])
  }

  function SelectToken(): Token { Token(19, []) }

  // ---- the native table ------------------------------------------------------------------

  function Nth<T>(xs: seq<T>, i: int): Option<T> { if 0 <= i < |xs| then Some(xs[i]) else None }

  const CMP_OPS := [Gt, Ge, Lt, Le, Eq, Ne]
  const ARITH_OPS := [Add, Sub, Mul, Div]
  const LOGICAL_OPS := [And, Or]
  const PRIM_OPS := [Ilog2, BitWidth, Popcount, Clz, Ctz, Mix64]
  const UNARY_OPS := [Abs, Round, Floor, Ceil, Log, Sqrt, Exp, Sign, Negate, Trunc, IsNan, IsFinite, IsInfinite]
  const STR_PRED_OPS := [Contains, StartsWith, EndsWith, Like, FullMatch, Regex]
  const STR_MAP_OPS := [Lower, Upper, Strip, Lstrip, Rstrip]

  function TypeAt(code: int): Option<Base> {
    if code == 1 then Some(TB) else if code == 5 then Some(TI) else if code == 11 then Some(TF)
    else if code == 12 then Some(TS) else None
  }

  function ArgConst(a: Arg): Option<Const> {
    match a case AI(n) => Some(CI(n)) case AR(r) => Some(CF(r)) case AS(s) => Some(CS(s)) case AL(_) => None
  }

  function OnSome<A, B>(a: Option<A>, f: A -> B): Option<B> { if a.None? then None else Some(f(a.value)) }

  function UnAt(t: Token): Option<UnOp> {
    var a, b, c := Nth(t.args, 0), Nth(t.args, 1), Nth(t.args, 2);
    if t.op == 7 then Some(Not)
    else if a.None? then None
    else match a.value
      case AI(i) =>
        if t.op == 4 then OnSome(Nth(PRIM_OPS, i), p => Prim(p))
        else if t.op == 5 && b.Some? && ArgConst(b.value).Some? then
          OnSome(Nth(CMP_OPS, i), o => Cmp(o, ArgConst(b.value).value))
        else if t.op == 8 then OnSome(TypeAt(i), ty => Cast(ty))
        else if t.op == 9 then OnSome(Nth(UNARY_OPS, i), u => Unary(u))
        else if t.op == 10 && b.Some? && ArgConst(b.value).Some? then Some(Clip(CI(i), ArgConst(b.value).value))
        else if t.op == 11 then Some(Fillna(CI(i)))
        else if t.op == 12 && b.Some? && b.value.AS? then OnSome(Nth(STR_PRED_OPS, i), p => StrPred(p, b.value.s))
        else if t.op == 13 then OnSome(Nth(STR_MAP_OPS, i), m => StrMap(m))
        else if t.op == 14 then Some(StrLen(i != 0))
        else if t.op == 17 && b.Some? && b.value.AI? then Some(StrSlice(i, b.value.i))
        else if t.op == 20 then Some(IsNull(i != 0))
        else None
      case AR(r) =>
        if t.op == 10 && b.Some? && ArgConst(b.value).Some? then Some(Clip(CF(r), ArgConst(b.value).value))
        else if t.op == 11 then Some(Fillna(CF(r)))
        else None
      case AS(s) =>
        if t.op == 15 then Some(StrFind(s))
        else if t.op == 16 && b.Some? && b.value.AS? && c.Some? && c.value.AI? then
          Some(StrReplace(s, b.value.s, c.value.i != 0))
        else if t.op == 10 && b.Some? && ArgConst(b.value).Some? then Some(Clip(CS(s), ArgConst(b.value).value))
        else if t.op == 11 then Some(Fillna(CS(s)))
        else None
      case AL(vs) => if t.op == 18 then Some(IsIn(vs, false)) else None
  }

  function BinAt(t: Token): Option<BinOp> {
    var a := Nth(t.args, 0);
    if a.None? || !a.value.AI? then None
    else if t.op == 3 then OnSome(Nth(ARITH_OPS, a.value.i), o => Arith(o))
    else if t.op == 6 then OnSome(Nth(LOGICAL_OPS, a.value.i), o => Logical(o))
    else None
  }

  function LeafAt(t: Token): Option<Expr> {
    var a := Nth(t.args, 0);
    if a.None? then None
    else if t.op == 0 && a.value.AI? && a.value.i >= 0 then Some(Input(a.value.i))
    else if t.op == 1 && a.value.AI? then Some(Lit(CI(a.value.i)))
    else if t.op == 2 && a.value.AR? then Some(Lit(CF(a.value.r)))
    else None
  }

  /** One tuple against the operand stack: a leaf is pushed, a node pops its operands, the last first. */
  function StepToken(t: Token, stack: seq<Expr>): Option<seq<Expr>> {
    var n := |stack|;
    if t.op == 0 || t.op == 1 || t.op == 2 then OnSome(LeafAt(t), (e: Expr) => stack + [e])
    else if t.op == 3 || t.op == 6 then
      if n < 2 || BinAt(t).None? then None
      else Some(stack[..n - 2] + [Bin(BinAt(t).value, stack[n - 2], stack[n - 1])])
    else if t.op == 19 then
      if n < 3 then None else Some(stack[..n - 3] + [Select(stack[n - 3], stack[n - 2], stack[n - 1])])
    else if n < 1 || UnAt(t).None? then None
    else Some(stack[..n - 1] + [Un(UnAt(t).value, stack[n - 1])])
  }

  function Rebuild(ts: seq<Token>, stack: seq<Expr>): Option<seq<Expr>>
    decreases |ts|
  {
    if ts == [] then Some(stack)
    else
      match StepToken(ts[0], stack)
      case None => None
      case Some(s) => Rebuild(ts[1..], s)
  }

  // ---- serialization ------------------------------------------------------------------------

  function IndexOf(cols: seq<string>, name: string): Option<nat> {
    if cols == [] then None
    else if cols[0] == name then Some(0)
    else OnSome(IndexOf(cols[1..], name), (i: nat) => i + 1)
  }

  /** What is serialized for an operator over an already serialized operand: the case-insensitive forms
      fold both sides to lower case, and a negated membership is a NOT. */
  function UnCore(K: Kernels, op: UnOp, arg: Expr): Option<Expr> {
    match op
    case IContains(sub) => Some(Un(StrPred(Contains, PyMap(K.cases, Lower, sub)), Un(StrMap(Lower), arg)))
    case ILike(p) => Some(Un(StrPred(Like, PyMap(K.cases, Lower, p)), Un(StrMap(Lower), arg)))
    case IsIn(vs, negated) =>
      var x := Un(IsIn(vs, false), arg);
      Some(if negated then Un(Not, x) else x)
    case Cmp(c, rhs) => if rhs.CS? && c != Eq && c != Ne then None else Some(Un(op, arg))
    case _ => if UnToken(op).Some? then Some(Un(op, arg)) else None
  }

  /** The tree the engine receives: columns by position, sugar removed; None where `_emit_ast` raises. */
  function Core(K: Kernels, e: Expr, cols: seq<string>): Option<Expr> {
    match e
    case Lit(c) => if c.CS? then OnSome(IntText(c.s), (n: int) => Lit(CI(n))) else Some(e)
    case Col(n) => OnSome(IndexOf(cols, n), (i: nat) => Input(i))
    case Un(op, arg) =>
      (match Core(K, arg, cols) case None => None case Some(a) => UnCore(K, op, a))
    case Bin(op, l, r) =>
      var a, b := Core(K, l, cols), Core(K, r, cols);
      if a.None? || b.None? then None else Some(Bin(op, a.value, b.value))
    case Select(c, x, y) =>
      var t, a, b := Core(K, c, cols), Core(K, x, cols), Core(K, y, cols);
      if t.None? || a.None? || b.None? then None else Some(Select(t.value, a.value, b.value))
    case _ => None
  }

  /** A tree of serializable nodes only. */
  predicate IsCore(e: Expr) {
    match e
    case Lit(c) => !c.CS?
    case Input(_) => true
    case Un(op, arg) => UnToken(op).Some? && IsCore(arg)
    case Bin(_, l, r) => IsCore(l) && IsCore(r)
    case Select(c, a, b) => IsCore(c) && IsCore(a) && IsCore(b)
    case _ => false
  }

  function Post(e: Expr): seq<Token>
    requires IsCore(e)
  {
    match e
    case Lit(CI(n)) => [Token(1, [AI(n)])]
    case Lit(CF(r)) => [Token(2, [AR(r)])]
    case Input(i) => [Token(0, [AI(i)])]
    case Un(op, arg) => Post(arg) + [UnToken(op).value]
    case Bin(op, l, r) => Post(l) + Post(r) + [BinToken(op)]
    case Select(c, a, b) => Post(c) + Post(a) + Post(b) + [SelectToken()]
  }

  lemma {:induction false} CoreIsCore(K: Kernels, e: Expr, cols: seq<string>)
    requires Core(K, e, cols).Some?
    ensures IsCore(Core(K, e, cols).value)
  {
    match e
    case Un(_, arg) => CoreIsCore(K, arg, cols);
    case Bin(_, l, r) =>
      CoreIsCore(K, l, cols);
      CoreIsCore(K, r, cols);
    case Select(c, a, b) =>
      CoreIsCore(K, c, cols);
      CoreIsCore(K, a, cols);
      CoreIsCore(K, b, cols);
    case _ =>
  }

  // ---- the two tables agree --------------------------------------------------------------------

  lemma UnTables(op: UnOp)
    requires UnToken(op).Some?
    ensures UnAt(UnToken(op).value) == Some(op)
    ensures UnToken(op).value.op !in {0, 1, 2, 3, 6, 19}
  {
    match op
    case Unary(u) => assert UNARY_OPS[UnaryCode(u)] == u;
    case Prim(p) => assert PRIM_OPS[PrimCode(p)] == p;
    case _ =>
  }

  lemma BinTables(op: BinOp)
    ensures BinAt(BinToken(op)) == Some(op)
  {
  }

  lemma StepLeaf(t: Token, e: Expr, stack: seq<Expr>, rest: seq<Token>)
    requires 0 <= t.op <= 2 && LeafAt(t) == Some(e)
    ensures Rebuild([t] + rest, stack) == Rebuild(rest, stack + [e])
  {
    assert ([t] + rest)[1..] == rest;
  }

  lemma {:induction false} StepUn(op: UnOp, arg: Expr, stack: seq<Expr>, rest: seq<Token>)
    requires UnToken(op).Some?
    ensures Rebuild([UnToken(op).value] + rest, stack + [arg]) == Rebuild(rest, stack + [Un(op, arg)])
  {
    var t := UnToken(op).value;
    UnTables(op);
    assert ([t] + rest)[1..] == rest;
    assert (stack + [arg])[..|stack|] == stack;
  }

  lemma StepBin(op: BinOp, l: Expr, r: Expr, stack: seq<Expr>, rest: seq<Token>)
    ensures Rebuild([BinToken(op)] + rest, stack + [l] + [r]) == Rebuild(rest, stack + [Bin(op, l, r)])
  {
    var t := BinToken(op);
    BinTables(op);
    assert ([t] + rest)[1..] == rest;
    assert (stack + [l] + [r])[..|stack|] == stack;
  }

  lemma StepSelect(c: Expr, a: Expr, b: Expr, stack: seq<Expr>, rest: seq<Token>)
    ensures Rebuild([SelectToken()] + rest, stack + [c] + [a] + [b]) == Rebuild(rest, stack + [Select(c, a, b)])
  {
    var t := SelectToken();
    assert ([t] + rest)[1..] == rest;
    assert (stack + [c] + [a] + [b])[..|stack|] == stack;
  }

  lemma PostUn(op: UnOp, arg: Expr, rest: seq<Token>)
    requires IsCore(Un(op, arg))
    ensures Post(Un(op, arg)) + rest == Post(arg) + ([UnToken(op).value] + rest)
  {
  }

  lemma PostBin(op: BinOp, l: Expr, r: Expr, rest: seq<Token>)
    requires IsCore(Bin(op, l, r))
    ensures Post(Bin(op, l, r)) + rest == Post(l) + (Post(r) + ([BinToken(op)] + rest))
  {
  }

  lemma PostSelect(c: Expr, a: Expr, b: Expr, rest: seq<Token>)
    requires IsCore(Select(c, a, b))
    ensures Post(Select(c, a, b)) + rest == Post(c) + (Post(a) + (Post(b) + ([SelectToken()] + rest)))
  {
  }

  lemma RebuildLeaf(e: Expr, stack: seq<Expr>, rest: seq<Token>)
    requires IsCore(e) && (e.Lit? || e.Input?)
    ensures Rebuild(Post(e) + rest, stack) == Rebuild(rest, stack + [e])
  {
    var t := Post(e)[0];
    assert Post(e) == [t];
    StepLeaf(t, e, stack, rest);
  }

  /** Rebuilding pushes exactly the tree: from any stack, with any tuples to follow. */
  lemma {:induction false} RebuildPost(e: Expr, stack: seq<Expr>, rest: seq<Token>)
    requires IsCore(e)
    ensures Rebuild(Post(e) + rest, stack) == Rebuild(rest, stack + [e])
    decreases e
  {
    match e {
      case Un(op, arg) =>
        PostUn(op, arg, rest);
        RebuildPost(arg, stack, [UnToken(op).value] + rest);
        StepUn(op, arg, stack, rest);
      case Bin(op, l, r) =>
        var ts := [BinToken(op)] + rest;
        PostBin(op, l, r, rest);
        RebuildPost(l, stack, Post(r) + ts);
        RebuildPost(r, stack + [l], ts);
        StepBin(op, l, r, stack, rest);
      case Select(c, a, b) =>
        var ts := [SelectToken()] + rest;
        PostSelect(c, a, b, rest);
        RebuildPost(c, stack, Post(a) + (Post(b) + ts));
        RebuildPost(a, stack + [c], Post(b) + ts);
        RebuildPost(b, stack + [c] + [a], ts);
        StepSelect(c, a, b, stack, rest);
      case _ => RebuildLeaf(e, stack, rest);
    }
  }

  /** The native side rebuilds the serialized tree, and no two trees serialize alike. */
  lemma {:induction false} Decodes(e: Expr, d: Expr)
    requires IsCore(e) && IsCore(d)
    ensures Rebuild(Post(e), []) == Some([e])
    ensures Post(e) == Post(d) ==> e == d
  {
    RebuildPost(e, [], []);
    RebuildPost(d, [], []);
    assert Post(e) + [] == Post(e) && Post(d) + [] == Post(d) && [] + [e] == [e] && [] + [d] == [d];
  }

  // ---- meaning -----------------------------------------------------------------------------------

  lemma {:induction false} IndexOfAt(cols: seq<string>, n: string)
    ensures IndexOf(cols, n).Some? <==> n in cols
    ensures IndexOf(cols, n).Some? ==> IndexOf(cols, n).value < |cols| && cols[IndexOf(cols, n).value] == n
  {
    if cols != [] { IndexOfAt(cols[1..], n); }
  }

  /** The inputs handed over with the tuples: one column per collected name, in order. */
  ghost predicate Positional(cols: seq<string>, row: Row, inputs: Row) {
    && |inputs.inputs| == |cols|
    && forall i | 0 <= i < |cols| :: cols[i] in row.named && inputs.inputs[i] == row.named[cols[i]]
  }

  lemma UnCoreMeans(K: Kernels, op: UnOp, arg: Expr, row: Row)
    requires UnCore(K, op, arg).Some?
    ensures Eval(K, UnCore(K, op, arg).value, row) == UnVal(K, op, Eval(K, arg, row))
    ensures !IsScalar(UnCore(K, op, arg).value)
  {
    if op.IContains? || op.ILike? { FoldedMeans(K, op, arg, row); }
    else if op.IsIn? { MemberMeans(K, op, arg, row); }
  }

  /** Folding both sides to lower case is the case-insensitive test, cell by cell. */
  lemma FoldedVal(K: Kernels, op: UnOp, v: Val)
    requires op.IContains? || op.ILike?
    ensures op.IContains? ==> UnVal(K, StrPred(Contains, PyMap(K.cases, Lower, op.sub)), UnVal(K, StrMap(Lower), v)) == UnVal(K, op, v)
    ensures op.ILike? ==> UnVal(K, StrPred(Like, PyMap(K.cases, Lower, op.ipattern)), UnVal(K, StrMap(Lower), v)) == UnVal(K, op, v)
  {
  }

  lemma FoldedMeans(K: Kernels, op: UnOp, arg: Expr, row: Row)
    requires op.IContains? || op.ILike?
    ensures Eval(K, UnCore(K, op, arg).value, row) == UnVal(K, op, Eval(K, arg, row))
  {
    hide UnVal;
    FoldedVal(K, op, Eval(K, arg, row));
    assert Eval(K, Un(StrMap(Lower), arg), row) == UnVal(K, StrMap(Lower), Eval(K, arg, row));
  }

  lemma MemberMeans(K: Kernels, op: UnOp, arg: Expr, row: Row)
    requires op.IsIn?
    ensures Eval(K, UnCore(K, op, arg).value, row) == UnVal(K, op, Eval(K, arg, row))
  {
    var v := Eval(K, arg, row);
    assert Eval(K, Un(IsIn(op.values, false), arg), row) == UnVal(K, IsIn(op.values, false), v);
  }

  /** Serialization keeps the meaning: positions for names, the lower-case and NOT forms for the sugar. */
  lemma {:induction false} CoreMeans(K: Kernels, e: Expr, cols: seq<string>, row: Row, inputs: Row)
    requires Core(K, e, cols).Some? && Positional(cols, row, inputs)
    ensures Eval(K, Core(K, e, cols).value, inputs) == Eval(K, e, row)
    ensures IsScalar(Core(K, e, cols).value) == IsScalar(e)
  {
    match e
    case Lit(_) =>
    case Col(n) => IndexOfAt(cols, n);
    case Un(op, arg) =>
      CoreMeans(K, arg, cols, row, inputs);
      UnCoreMeans(K, op, Core(K, arg, cols).value, inputs);
    case Bin(_, l, r) =>
      CoreMeans(K, l, cols, row, inputs);
      CoreMeans(K, r, cols, row, inputs);
    case Select(c, a, b) =>
      CoreMeans(K, c, cols, row, inputs);
      CoreMeans(K, a, cols, row, inputs);
      CoreMeans(K, b, cols, row, inputs);
  }

  ghost predicate PositionalTypes(cols: seq<string>, sch: Schema, isch: Schema) {
    && |isch.inputTypes| == |cols|
    && forall i | 0 <= i < |cols| :: cols[i] in sch.namedTypes && isch.inputTypes[i] == sch.namedTypes[cols[i]]
  }

  lemma UnCoreTypes(K: Kernels, op: UnOp, arg: Expr, sch: Schema)
    requires UnCore(K, op, arg).Some? && TypeOf(arg, sch).Some?
    ensures TypeOf(UnCore(K, op, arg).value, sch) == TypeOf(Un(op, arg), sch)
  {
  }

  /** The engine's static check accepts the serialized tree exactly when it accepts the expression. */
  lemma {:induction false} CoreTypes(K: Kernels, e: Expr, cols: seq<string>, sch: Schema, isch: Schema)
    requires Core(K, e, cols).Some? && PositionalTypes(cols, sch, isch)
    ensures TypeOf(Core(K, e, cols).value, isch) == TypeOf(e, sch)
  {
    match e
    case Lit(_) =>
    case Col(n) => IndexOfAt(cols, n);
    case Un(op, arg) =>
      CoreTypes(K, arg, cols, sch, isch);
      var a := Core(K, arg, cols).value;
      if TypeOf(a, isch).Some? { UnCoreTypes(K, op, a, isch); } else { UnCoreUntyped(K, op, a, isch); }
    case Bin(_, l, r) =>
      CoreTypes(K, l, cols, sch, isch);
      CoreTypes(K, r, cols, sch, isch);
    case Select(c, a, b) =>
      CoreTypes(K, c, cols, sch, isch);
      CoreTypes(K, a, cols, sch, isch);
      CoreTypes(K, b, cols, sch, isch);
  }

  lemma UnCoreUntyped(K: Kernels, op: UnOp, arg: Expr, sch: Schema)
    requires UnCore(K, op, arg).Some? && TypeOf(arg, sch).None?
    ensures TypeOf(UnCore(K, op, arg).value, sch).None?
  {
  }

  // ---- `_emit_ast` over a growing list -------------------------------------------------------------

  class TokenList {
    var tokens: seq<Token>
    constructor ()
      ensures tokens == []
    { tokens := []; }
  }

  /** What a list holds once `e` is serialized onto `before`. */
  predicate Appended(K: Kernels, e: Expr, cols: seq<string>, before: seq<Token>, after: seq<Token>) {
    var c := Core(K, e, cols);
    c.Some? && IsCore(c.value) && after == before + Post(c.value)
  }

  /** Appends the tuples of `e`, operands before their node; false where the source raises. */
  method EmitAst(K: Kernels, e: Expr, cols: seq<string>, ast: TokenList) returns (ok: bool)
    modifies ast
    ensures ok == Core(K, e, cols).Some?
    ensures ok ==> Appended(K, e, cols, old(ast.tokens), ast.tokens)
    decreases e, 0
  {
    match e
    case Lit(c) =>
      var n := if c.CI? then Some(c.i) else if c.CS? then IntText(c.s) else None;
      if c.CS? && n.None? { return false; }
      ast.tokens := ast.tokens + [if c.CF? then Token(2, [AR(c.r)]) else Token(1, [AI(n.value)])];
      return true;
    case Col(n) =>
      var i := IndexOf(cols, n);
      if i.None? { return false; }
      ast.tokens := ast.tokens + [Token(0, [AI(i.value)])];
      return true;
    case Un(op, arg) => ok := EmitUn(K, op, arg, cols, ast);
    case Bin(op, l, r) => ok := EmitBin(K, op, l, r, cols, ast);
    case Select(c, a, b) => ok := EmitSelect(K, c, a, b, cols, ast);
    case _ => return false;
  }

  method EmitBin(K: Kernels, op: BinOp, l: Expr, r: Expr, cols: seq<string>, ast: TokenList) returns (ok: bool)
    modifies ast
    ensures ok == Core(K, Bin(op, l, r), cols).Some?
    ensures ok ==> Appended(K, Bin(op, l, r), cols, old(ast.tokens), ast.tokens)
    decreases Bin(op, l, r), -1
  {
    ok := EmitAst(K, l, cols, ast);
    if !ok { return; }
    ok := EmitAst(K, r, cols, ast);
    if !ok { return; }
    ast.tokens := ast.tokens + [BinToken(op)];
  }

  method EmitSelect(K: Kernels, c: Expr, a: Expr, b: Expr, cols: seq<string>, ast: TokenList) returns (ok: bool)
    modifies ast
    ensures ok == Core(K, Select(c, a, b), cols).Some?
    ensures ok ==> Appended(K, Select(c, a, b), cols, old(ast.tokens), ast.tokens)
    decreases Select(c, a, b), -1
  {
    ok := EmitAst(K, c, cols, ast);
    if !ok { return; }
    ok := EmitAst(K, a, cols, ast);
    if !ok { return; }
    ok := EmitAst(K, b, cols, ast);
    if !ok { return; }
    ast.tokens := ast.tokens + [SelectToken()];
  }

  /** The tuples an operator adds after its operand's. */
  function UnTail(K: Kernels, op: UnOp): seq<Token> {
    match op
    case IContains(sub) => [Token(13, [AI(0)]), Token(12, [AI(0), AS(PyMap(K.cases, Lower, sub))])]
    case ILike(p) => [Token(13, [AI(0)]), Token(12, [AI(3), AS(PyMap(K.cases, Lower, p))])]
    case IsIn(vs, negated) => [Token(18, [AL(vs)])] + if negated then [Token(7, [])] else []
    case _ => if UnToken(op).Some? then [UnToken(op).value] else []
  }

  lemma UnPost(K: Kernels, op: UnOp, arg: Expr)
    requires IsCore(arg) && UnCore(K, op, arg).Some?
    ensures IsCore(UnCore(K, op, arg).value) && Post(UnCore(K, op, arg).value) == Post(arg) + UnTail(K, op)
  {
    hide PyMap;
    var u := UnCore(K, op, arg).value;
    if u.Un? && u.arg != arg { assert Post(u) == (Post(arg) + [UnToken(u.arg.op).value]) + [UnToken(u.op).value]; }
  }

  method EmitUn(K: Kernels, op: UnOp, arg: Expr, cols: seq<string>, ast: TokenList) returns (ok: bool)
    modifies ast
    ensures ok == Core(K, Un(op, arg), cols).Some?
    ensures ok ==> Appended(K, Un(op, arg), cols, old(ast.tokens), ast.tokens)
    decreases Un(op, arg), -1
  {
    hide PyMap, Post, IsCore;
    if op.CmpBool? || op.IRegex? || (op.Cmp? && op.rhs.CS? && op.cmp != Eq && op.cmp != Ne) { return false; }
    ok := EmitAst(K, arg, cols, ast);
    if !ok { return; }
    UnPost(K, op, Core(K, arg, cols).value);
    label operand:
    if op.IContains? {
      ast.tokens := ast.tokens + [Token(13, [AI(0)])] + [Token(12, [AI(0), AS(PyMap(K.cases, Lower, op.sub))])];
    } else if op.ILike? {
      ast.tokens := ast.tokens + [Token(13, [AI(0)])] + [Token(12, [AI(3), AS(PyMap(K.cases, Lower, op.ipattern))])];
    } else if op.IsIn? {
      ast.tokens := ast.tokens + [Token(18, [AL(op.values)])];
      if op.negated { ast.tokens := ast.tokens + [Token(7, [])]; }
    } else {
      ast.tokens := ast.tokens + [UnToken(op).value];
    }
    assert ast.tokens == old@operand(ast.tokens) + UnTail(K, op);
  }

  // ---- `_collect_columns` ----------------------------------------------------------------------------

  function AddNew(seen: seq<string>, n: string): seq<string> { if n in seen then seen else seen + [n] }

  /** The column names an expression reads, in order of first occurrence, after `seen`; None where a
      case-insensitive regex is refused. A group aggregate reads its own columns, not the row's. */
  function Collect(e: Expr, seen: seq<string>): Option<seq<string>>
    decreases e
  {
    match e
    case Col(n) => Some(AddNew(seen, n))
    case Un(op, arg) => if op.IRegex? then None else Collect(arg, seen)
    case Bin(_, l, r) =>
      (match Collect(l, seen) case None => None case Some(s) => Collect(r, s))
    case Select(c, a, b) =>
      (match Collect(c, seen)
       case None => None
       case Some(s) => match Collect(a, s) case None => None case Some(t) => Collect(b, t))
    case ColumnOpNode(arg, spec) =>
      (match Collect(arg, seen)
       case None => None
       case Some(s) =>
         match (if spec.column2.Some? then Collect(spec.column2.value, s) else Some(s))
         case None => None
         case Some(t) => Some(AddAll(t, if spec.over.Some? then spec.over.value else [])))
    case _ => Some(seen)
  }

  function AddAll(seen: seq<string>, ns: seq<string>): seq<string>
    decreases |ns|
  { if ns == [] then seen else AddAll(AddNew(seen, ns[0]), ns[1..]) }

  class Seen {
    var names: seq<string>
    constructor ()
      ensures names == []
    { names := []; }

    method Note(n: string)
      modifies this
      ensures names == AddNew(old(names), n)
    {
      if n !in names { names := names + [n]; }
    }

    method Walk(e: Expr) returns (ok: bool)
      modifies this
      ensures ok == Collect(e, old(names)).Some?
      ensures ok ==> names == Collect(e, old(names)).value
      decreases e
    {
      ok := true;
      match e
      case Col(n) => Note(n);
      case Un(op, arg) =>
        if op.IRegex? { return false; }
        ok := Walk(arg);
      case Bin(_, l, r) =>
        ok := Walk(l);
        if ok { ok := Walk(r); }
      case Select(c, a, b) =>
        ok := Walk(c);
        if ok { ok := Walk(a); }
        if ok { ok := Walk(b); }
      case ColumnOpNode(arg, spec) =>
        ok := Walk(arg);
        if ok && spec.column2.Some? { ok := Walk(spec.column2.value); }
        if ok && spec.over.Some? { NoteAll(spec.over.value); }
      case _ =>
    }

    method NoteAll(ns: seq<string>)
      modifies this
      ensures names == AddAll(old(names), ns)
    {
      var k := 0;
      while k < |ns|
        invariant 0 <= k <= |ns|
        invariant AddAll(names, ns[k..]) == AddAll(old(names), ns)
      {
        assert ns[k..][1..] == ns[k + 1..];
        Note(ns[k]);
        k := k + 1;
      }
    }
  }

  /** The columns the evaluator reads on a row. */
  function Reads(e: Expr): set<string> {
    match e
    case Col(n) => {n}
    case Un(_, arg) => Reads(arg)
    case Bin(_, l, r) => Reads(l) + Reads(r)
    case Select(c, a, b) => Reads(c) + Reads(a) + Reads(b)
    case _ => {}
  }

  ghost predicate NoDuplicates(s: seq<string>) { forall i, j | 0 <= i < j < |s| :: s[i] != s[j] }

  predicate OnlyRowNodes(e: Expr) {
    match e
    case Un(_, arg) => OnlyRowNodes(arg)
    case Bin(_, l, r) => OnlyRowNodes(l) && OnlyRowNodes(r)
    case Select(c, a, b) => OnlyRowNodes(c) && OnlyRowNodes(a) && OnlyRowNodes(b)
    case ColumnOpNode(_, _) => false
    case _ => true
  }

  /** The names the collection comes to, from left to right: the columns read outside group aggregates, and of a column op
      those of its argument, those of its second column, and the keys it runs over. */
  function Occurring(e: Expr): seq<string>
    decreases e
  {
    match e
    case Col(n) => [n]
    case Un(_, arg) => Occurring(arg)
    case Bin(_, l, r) => Occurring(l) + Occurring(r)
    case Select(c, a, b) => Occurring(c) + Occurring(a) + Occurring(b)
    case ColumnOpNode(arg, spec) =>
      Occurring(arg) + (if spec.column2.Some? then Occurring(spec.column2.value) else [])
      + (if spec.over.Some? then spec.over.value else [])
    case _ => []
  }

  function Collected(e: Expr): set<string> { set n | n in Occurring(e) }

  /** Where a name first occurs. */
  predicate FirstAt(names: seq<string>, n: string, i: int) { 0 <= i < |names| && names[i] == n && n !in names[..i] }

  /** The names of `all`, each once, in the order of their first occurrences. */
  ghost predicate Firsts(out: seq<string>, all: seq<string>) {
    && NoDuplicates(out) && (forall n :: n in out <==> n in all)
    && forall a, b, i, j | 0 <= a < b < |out| && FirstAt(all, out[a], i) && FirstAt(all, out[b], j) :: i < j
  }

  lemma {:induction false} FirstsNext(out: seq<string>, all: seq<string>, n: string)
    requires Firsts(out, all)
    ensures Firsts(AddNew(out, n), all + [n])
  {
    var out', all' := AddNew(out, n), all + [n];
    forall a, b, i, j | 0 <= a < b < |out'| && FirstAt(all', out'[a], i) && FirstAt(all', out'[b], j) ensures i < j {
      assert out'[a] == out[a];
      FirstIn(all, n, out[a], i);
      if out'[b] in all { FirstIn(all, n, out'[b], j); }
    }
  }

  lemma FirstIn(all: seq<string>, n: string, x: string, i: int)
    requires x in all && FirstAt(all + [n], x, i)
    ensures FirstAt(all, x, i)
  {
    assert (all + [n])[..|all|] == all;
    if i < |all| { assert (all + [n])[..i] == all[..i]; }
  }

  lemma {:induction false} AllFirsts(out: seq<string>, all: seq<string>, ns: seq<string>)
    requires Firsts(out, all)
    ensures Firsts(AddAll(out, ns), all + ns)
    decreases |ns|
  {
    hide Firsts;
    if ns == [] {
      assert all + ns == all;
    } else {
      FirstsNext(out, all, ns[0]);
      AllFirsts(AddNew(out, ns[0]), all + [ns[0]], ns[1..]);
      assert all + [ns[0]] + ns[1..] == all + ns;
    }
  }

  /** No case-insensitive regex where the collection walks. */
  predicate NoIRegex(e: Expr)
    decreases e
  {
    match e
    case Un(op, arg) => !op.IRegex? && NoIRegex(arg)
    case Bin(_, l, r) => NoIRegex(l) && NoIRegex(r)
    case Select(c, a, b) => NoIRegex(c) && NoIRegex(a) && NoIRegex(b)
    case ColumnOpNode(arg, spec) => NoIRegex(arg) && (spec.column2.Some? ==> NoIRegex(spec.column2.value))
    case _ => true
  }

  /** The collection fails exactly on a case-insensitive regex, and otherwise holds the names it comes to, each once, in
      order of first occurrence. */
  lemma {:induction false} CollectFirsts(e: Expr, seen: seq<string>, all: seq<string>)
    requires Firsts(seen, all)
    ensures Collect(e, seen).Some? <==> NoIRegex(e)
    ensures NoIRegex(e) ==> Firsts(Collect(e, seen).value, all + Occurring(e))
    decreases e
  {
    hide Firsts;
    match e
    case Col(n) => FirstsNext(seen, all, n);
    case Un(_, arg) => CollectFirsts(arg, seen, all);
    case Bin(_, l, r) =>
      CollectFirsts(l, seen, all);
      if NoIRegex(l) {
        CollectFirsts(r, Collect(l, seen).value, all + Occurring(l));
        assert all + Occurring(l) + Occurring(r) == all + Occurring(e);
      }
    case Select(c, a, b) =>
      CollectFirsts(c, seen, all);
      if NoIRegex(c) {
        CollectFirsts(a, Collect(c, seen).value, all + Occurring(c));
        if NoIRegex(a) {
          CollectFirsts(b, Collect(a, Collect(c, seen).value).value, all + Occurring(c) + Occurring(a));
          assert all + Occurring(c) + Occurring(a) + Occurring(b) == all + Occurring(e);
        }
      }
    case ColumnOpNode(arg, spec) => OpFirsts(arg, spec, seen, all);
    case _ => assert all + Occurring(e) == all;
  }

  lemma {:induction false} OpFirsts(arg: Expr, spec: ColumnOp, seen: seq<string>, all: seq<string>)
    requires Firsts(seen, all)
    ensures var e := ColumnOpNode(arg, spec);
            && (Collect(e, seen).Some? <==> NoIRegex(e))
            && (NoIRegex(e) ==> Firsts(Collect(e, seen).value, all + Occurring(e)))
    decreases ColumnOpNode(arg, spec), 0
  {
    hide Firsts, AddAll;
    CollectFirsts(arg, seen, all);
    if NoIRegex(arg) {
      var s, more := Collect(arg, seen).value, all + Occurring(arg);
      if spec.column2.Some? {
        CollectFirsts(spec.column2.value, s, more);
        if NoIRegex(spec.column2.value) {
          var t := Collect(spec.column2.value, s).value;
          KeysFirsts(t, all, Occurring(arg), Occurring(spec.column2.value), if spec.over.Some? then spec.over.value else []);
        }
      } else {
        assert more + [] == more;
        KeysFirsts(s, all, Occurring(arg), [], if spec.over.Some? then spec.over.value else []);
      }
    }
  }

  lemma {:induction false} KeysFirsts(out: seq<string>, all: seq<string>, a: seq<string>, b: seq<string>, keys: seq<string>)
    requires Firsts(out, all + a + b)
    ensures Firsts(AddAll(out, keys), all + (a + b + keys))
  {
    hide Firsts, AddAll;
    AllFirsts(out, all + a + b, keys);
    assert all + a + b + keys == all + (a + b + keys);
  }

  /** From the start: every name the expression collects and no other, each once, in order of first occurrence. */
  lemma {:induction false} CollectGathers(e: Expr)
    ensures Collect(e, []).Some? <==> NoIRegex(e)
    ensures NoIRegex(e) ==> Firsts(Collect(e, []).value, Occurring(e))
  {
    CollectFirsts(e, [], []);
    assert [] + Occurring(e) == Occurring(e);
  }

  /** Without column ops those are the columns the evaluator reads: each is collected exactly once, and nothing else is. */
  lemma {:induction false} CollectReads(e: Expr)
    requires Collect(e, []).Some?
    ensures NoDuplicates(Collect(e, []).value) && forall n :: n in Collect(e, []).value <==> n in Collected(e)
    ensures Reads(e) <= Collected(e) && (OnlyRowNodes(e) ==> Collected(e) == Reads(e))
  {
    CollectGathers(e);
    CollectedReads(e);
  }

  lemma {:induction false} CollectedReads(e: Expr)
    ensures Reads(e) <= Collected(e) && (OnlyRowNodes(e) ==> Collected(e) == Reads(e))
  {
    match e
    case Un(_, arg) => CollectedReads(arg);
    case Bin(_, l, r) =>
      CollectedReads(l);
      CollectedReads(r);
    case Select(c, a, b) =>
      CollectedReads(c);
      CollectedReads(a);
      CollectedReads(b);
    case _ =>
  }

  /** Evaluation depends on the collected columns alone. */
  lemma {:induction false} EvalReads(K: Kernels, e: Expr, row: Row, row': Row)
    requires row.inputs == row'.inputs
    requires forall n | n in Reads(e) :: (n in row.named <==> n in row'.named) && (n in row.named ==> row.named[n] == row'.named[n])
    ensures Eval(K, e, row) == Eval(K, e, row')
  {
    match e
    case Un(_, arg) => EvalReads(K, arg, row, row');
    case Bin(_, l, r) =>
      EvalReads(K, l, row, row');
      EvalReads(K, r, row, row');
    case Select(c, a, b) =>
      EvalReads(K, c, row, row');
      EvalReads(K, a, row, row');
      EvalReads(K, b, row, row');
    case _ =>
  }

  /** Whether `_emit_ast` has a tuple for every node of the expression. */
  predicate Serializable(e: Expr) {
    match e
    case Lit(c) => c.CS? ==> IntText(c.s).Some?
    case Col(_) => true
    case Un(op, arg) =>
      Serializable(arg) && !op.CmpBool? && !op.IRegex? && (op.Cmp? && op.rhs.CS? ==> op.cmp == Eq || op.cmp == Ne)
    case Bin(_, l, r) => Serializable(l) && Serializable(r)
    case Select(c, a, b) => Serializable(c) && Serializable(a) && Serializable(b)
    case _ => false
  }

  /** With any list of names holding those it reads, serialization succeeds exactly on the serializable
      expressions; the collected names are such a list. */
  lemma {:induction false} CoreDefined(K: Kernels, e: Expr, cols: seq<string>)
    requires forall n | n in Reads(e) :: n in cols
    ensures Core(K, e, cols).Some? <==> Serializable(e)
  {
    match e
    case Col(n) => IndexOfAt(cols, n);
    case Un(_, arg) => CoreDefined(K, arg, cols);
    case Bin(_, l, r) =>
      CoreDefined(K, l, cols);
      CoreDefined(K, r, cols);
    case Select(c, a, b) =>
      CoreDefined(K, c, cols);
      CoreDefined(K, a, cols);
      CoreDefined(K, b, cols);
    case _ =>
  }

  lemma {:induction false} SerializableCollects(e: Expr, seen: seq<string>)
    requires Serializable(e)
    ensures OnlyRowNodes(e) && Collect(e, seen).Some?
  {
    match e
    case Un(_, arg) => SerializableCollects(arg, seen);
    case Bin(_, l, r) =>
      SerializableCollects(l, seen);
      SerializableCollects(r, Collect(l, seen).value);
    case Select(c, a, b) =>
      SerializableCollects(c, seen);
      SerializableCollects(a, Collect(c, seen).value);
      SerializableCollects(b, Collect(a, Collect(c, seen).value).value);
    case _ =>
  }

  // ---- `eval_many`: one shared list of inputs ---------------------------------------------------------

  function Union(lists: seq<seq<string>>, seen: seq<string>): seq<string>
    decreases |lists|
  { if lists == [] then seen else Union(lists[1..], AddAll(seen, lists[0])) }

  function Flat(lists: seq<seq<string>>): seq<string>
    decreases |lists|
  { if lists == [] then [] else lists[0] + Flat(lists[1..]) }

  lemma {:induction false} UnionFirsts(lists: seq<seq<string>>, out: seq<string>, all: seq<string>)
    requires Firsts(out, all)
    ensures Firsts(Union(lists, out), all + Flat(lists))
    decreases |lists|
  {
    hide Firsts;
    if lists == [] {
      assert all + Flat(lists) == all;
    } else {
      AllFirsts(out, all, lists[0]);
      UnionFirsts(lists[1..], AddAll(out, lists[0]), all + lists[0]);
      assert all + lists[0] + Flat(lists[1..]) == all + Flat(lists);
    }
  }

  /** The union of the expressions' columns: every name of the lists and no other, each once, in order of first occurrence. */
  method UnionColumns(lists: seq<seq<string>>) returns (union: seq<string>)
    ensures union == Union(lists, []) && Firsts(union, Flat(lists))
  {
    union := [];
    for i := 0 to |lists|
      invariant Union(lists[i..], union) == Union(lists, [])
    {
      ghost var start := union;
      for j := 0 to |lists[i]|
        invariant AddAll(union, lists[i][j..]) == AddAll(start, lists[i])
      {
        assert lists[i][j..][1..] == lists[i][j + 1..];
        union := AddNew(union, lists[i][j]);
      }
      assert lists[i..][1..] == lists[i + 1..];
    }
    UnionFirsts(lists, [], []);
    assert [] + Flat(lists) == Flat(lists);
  }

  /** Over any two lists of inputs that hold the columns an expression reads, such as its own and a
      shared union, the serialized expression has the same value. */
  lemma {:induction false} SharedInputs(K: Kernels, e: Expr, own: seq<string>, shared: seq<string>, row: Row, a: Row, b: Row)
    requires Serializable(e) && (forall n | n in Reads(e) :: n in own && n in shared)
    requires Positional(own, row, a) && Positional(shared, row, b)
    ensures Core(K, e, own).Some? && Core(K, e, shared).Some?
    ensures Eval(K, Core(K, e, own).value, a) == Eval(K, Core(K, e, shared).value, b) == Eval(K, e, row)
  {
    CoreDefined(K, e, own);
    CoreDefined(K, e, shared);
    CoreMeans(K, e, own, row, a);
    CoreMeans(K, e, shared, row, b);
  }
}
