/** The column expression language: the tree the Python front end builds, the static type check the
    engine runs before any row, and the value an expression has on one row.

    The node classes of columnar.py are grouped by arity: every class with one `arg` operand is an
    `Un` node, every class with two operands a `Bin` node. */
module Exprs {
  import opened Options
  import opened Text

  /** A Python number or string used as an operand. */
  datatype Const = CI(i: int) | CF(r: real) | CS(s: string)

  datatype ArithOp = Add | Sub | Mul | Div
  datatype CmpOp = Gt | Ge | Lt | Le | Eq | Ne
  datatype LogicalOp = And | Or
  datatype PrimName = Ilog2 | BitWidth | Popcount | Clz | Ctz | Mix64
  datatype UnaryName =
    | Abs | Round | Floor | Ceil | Log | Sqrt | Exp | Sign | Negate | Trunc
    | IsNan | IsFinite | IsInfinite
  datatype StrPredName = Contains | StartsWith | EndsWith | Like | FullMatch | Regex

  /** The element type of a column; every integer width is `TI`. */
  datatype Base = TI | TF | TB | TS

  datatype UnOp =
    | Prim(prim: PrimName)
    | Unary(unary: UnaryName)
    | Clip(lo: Const, hi: Const)
    | Cast(target: Base)
    | Fillna(fill: Const)
    | Cmp(cmp: CmpOp, rhs: Const)
    | CmpBool(cmpBool: CmpOp, flag: bool)
    | Not
    | StrPred(pred: StrPredName, pattern: string)
    | StrMap(map1: StrMapName)
    | StrLen(chars: bool)
    | StrFind(needle: string)
    | StrReplace(what: string, by_: string, all: bool)
    | StrSlice(start: int, length: int)
    | IsIn(values: seq<Const>, negated: bool)
    | IsNull(missing: bool)
    | IContains(sub: string)
    | ILike(ipattern: string)
    | IRegex(rpattern: string)

  datatype BinOp = Arith(arith: ArithOp) | Logical(logical: LogicalOp)

  datatype Expr =
    | Lit(c: Const)
    | Col(name: string)
    | Input(i: nat)                    // a column by position, in the serialized form
    | Un(op: UnOp, arg: Expr)
    | Bin(bop: BinOp, left: Expr, right: Expr)
    | Select(cond: Expr, a: Expr, b: Expr)
    | ColumnOpNode(carg: Expr, spec: ColumnOp)
    | AggLeaf(agg: Agg)

  datatype Agg = Agg(aop: string, value: Option<Expr>, out: Option<string>, param: real, aby: Option<Expr>)

  datatype ColumnOp = ColumnOp(
    cop: string, column2: Option<Expr>, ca: Const, cb: Const, text: Option<string>,
    over: Option<seq<string>>, kind: Option<string>, n: int, cagg: Option<Agg>)

  // ---- values ----------------------------------------------------------------

  /** One cell. A null keeps its column type and the payload bit the kernels leave under it, which
      the Boolean kernels read without looking at validity. `Fault` is an operation no kernel takes. */
  datatype Val = VI(i: int) | VF(r: real) | VB(b: bool) | VS(s: string) | VNull(t: Base, bit: bool) | Fault
  {
    function Tag(): Option<Base> {
      match this
      case VI(_) => Some(TI)
      case VF(_) => Some(TF)
      case VB(_) => Some(TB)
      case VS(_) => Some(TS)
      case VNull(t, _) => Some(t)
      case Fault => None
    }
  }

  datatype Row = Row(named: map<string, Val>, inputs: seq<Val>)
  datatype Schema = Schema(namedTypes: map<string, Base>, inputTypes: seq<Base>)

  /** The real functions the kernels and Python share, what Python's case mapping does beyond ASCII, and what a kernel
      leaves in the cases the engine does not define (a zero divisor, the bits under a null). */
  datatype Kernels = Kernels(
    real1: (UnaryName, real) -> real,
    div0: real -> real,
    cases: Cases,
    strPred: (StrPredName, string, string) -> bool,
    other: (UnOp, Val) -> Val,
    nullBit: (CmpOp, Const) -> bool)

  function Truncate(r: real): int { if r >= 0.0 then r.Floor else -((-r).Floor) }

  function Ceiling(r: real): int { -((-r).Floor) }

  /** To the nearest integer, a tie to the even one. */
  function Nearest(r: real): int {
    var n := r.Floor;
    var d := r - n as real;
    if d < 0.5 || (d == 0.5 && n % 2 == 0) then n else n + 1
  }

  function BoolInt(b: bool): int { if b then 1 else 0 }

  predicate IsNum(v: Val) { v.VI? || v.VF? || v.VB? }

  /** The number a cell stands for in mixed arithmetic: a Bool column casts to 0 / 1. */
  function NumOf(v: Val): real
    requires IsNum(v)
  {
    match v
    case VI(n) => n as real
    case VF(r) => r
    case VB(b) => BoolInt(b) as real
  }

  function IntOf(v: Val): int
    requires v.VI? || v.VB?
  { if v.VI? then v.i else BoolInt(v.b) }

  predicate CmpReal(op: CmpOp, x: real, y: real) {
    match op
    case Gt => x > y
    case Ge => x >= y
    case Lt => x < y
    case Le => x <= y
    case Eq => x == y
    case Ne => x != y
  }

  // ---- kernels, one cell at a time ---------------------------------------------

  function IntArith(op: ArithOp, x: int, y: int): int {
    match op
    case Add => x + y
    case Sub => x - y
    case _ => x * y
  }

  function RealArith(K: Kernels, op: ArithOp, x: real, y: real): real {
    match op
    case Add => x + y
    case Sub => x - y
    case Mul => x * y
    case Div => if y == 0.0 then K.div0(x) else x / y
  }

  function ArithBase(op: ArithOp, s: Base, t: Base): Base {
    if op == Div || s == TF || t == TF then TF else TI
  }

  /** Arithmetic on two cells: division and any float operand go to Float64, else Int64; a null on
      either side is null. */
  function ArithVal(K: Kernels, op: ArithOp, a: Val, b: Val): Val {
    if a.Fault? || b.Fault? || a.Tag().value == TS || b.Tag().value == TS then Fault
    else
      var t := ArithBase(op, a.Tag().value, b.Tag().value);
      if a.VNull? || b.VNull? then VNull(t, false)
      else if t == TI then VI(IntArith(op, IntOf(a), IntOf(b)))
      else VF(RealArith(K, op, NumOf(a), NumOf(b)))
  }

  predicate HasBit(v: Val) { v.VB? || (v.VNull? && v.t == TB) }
  function Bit(v: Val): bool
    requires HasBit(v)
  { if v.VB? then v.b else v.bit }

  /** AND / OR / NOT are bitwise over the packed bits: their result is never null. */
  function LogicalVal(op: LogicalOp, a: Val, b: Val): Val {
    if !HasBit(a) || !HasBit(b) then Fault
    else if op == And then VB(Bit(a) && Bit(b))
    else VB(Bit(a) || Bit(b))
  }

  /** A comparison runs in the column's own type: an integer column truncates a float operand. */
  function CmpVal(K: Kernels, op: CmpOp, v: Val, c: Const): Val {
    match (v, c)
    case (VS(s), CS(t)) => if op == Eq then VB(s == t) else if op == Ne then VB(s != t) else Fault
    case (VI(n), CI(m)) => VB(CmpReal(op, n as real, m as real))
    case (VI(n), CF(r)) => VB(CmpReal(op, n as real, Truncate(r) as real))
    case (VF(x), CI(m)) => VB(CmpReal(op, x, m as real))
    case (VF(x), CF(r)) => VB(CmpReal(op, x, r))
    case (VNull(t, _), _) =>
      if CmpTypes(op, t, c) then VNull(TB, K.nullBit(op, c)) else Fault
    case _ => Fault
  }

  predicate CmpTypes(op: CmpOp, t: Base, c: Const) {
    if c.CS? then t == TS && (op == Eq || op == Ne) else t == TI || t == TF
  }

  function CastVal(t: Base, v: Val): Val {
    if t == TB || t == TS then Fault
    else match v
      case VNull(s, _) => if s == TS then Fault else VNull(t, false)
      case VI(n) => if t == TI then v else VF(n as real)
      case VF(r) => if t == TI then VI(Truncate(r)) else v
      case VB(b) => if t == TI then VI(BoolInt(b)) else VF(BoolInt(b) as real)
      case _ => Fault
  }

  function UnaryBase(u: UnaryName, t: Base): Option<Base> {
    if t != TI && t != TF then None
    else match u
      case IsNan | IsFinite | IsInfinite => Some(TB)
      case Log | Sqrt | Exp => Some(TF)
      case _ => Some(t)
  }

  function SignOf(r: real): int { if r > 0.0 then 1 else if r < 0.0 then -1 else 0 }

  function UnaryVal(K: Kernels, u: UnaryName, v: Val): Val {
    if v.Fault? || UnaryBase(u, v.Tag().value).None? then Fault
    else
      var t := UnaryBase(u, v.Tag().value).value;
      match v
      case VNull(_, _) => VNull(t, false)
      case VI(n) =>
        if t == TF then VF(K.real1(u, n as real))
        else if t == TB then VB(u == IsFinite)
        else if u == Abs then VI(if n < 0 then -n else n)
        else if u == Negate then VI(-n)
        else if u == Sign then VI(SignOf(n as real))
        else v
      case VF(r) =>
        if t == TB then VB(u == IsFinite)
        else if u == Abs then VF(if r < 0.0 then -r else r)
        else if u == Floor then VF(r.Floor as real)
        else if u == Ceil then VF(Ceiling(r) as real)
        else if u == Trunc then VF(Truncate(r) as real)
        else if u == Round then VF(Nearest(r) as real)
        else if u == Negate then VF(-r)
        else if u == Sign then VF(SignOf(r) as real)
        else VF(K.real1(u, r))
      case _ => Fault
  }

  predicate AllInts(cs: seq<Const>) { forall i | 0 <= i < |cs| :: cs[i].CI? }
  predicate AllStrs(cs: seq<Const>) { forall i | 0 <= i < |cs| :: cs[i].CS? }

  /** Membership compares numbers as numbers and strings as strings; a null is no member. */
  function IsInVal(cs: seq<Const>, v: Val): Val {
    match v
    case VI(n) => if AllInts(cs) then VB(CI(n) in cs) else Fault
    case VF(r) => if AllInts(cs) then VB(r == r.Floor as real && CI(r.Floor) in cs) else Fault
    case VS(s) => if AllStrs(cs) then VB(CS(s) in cs) else Fault
    case VNull(t, _) => VB(false)
    case _ => Fault
  }

  function StrPredVal(K: Kernels, p: StrPredName, pattern: string, s: string): bool {
    match p
    case Contains => IsSubstring(pattern, s)
    case StartsWith => IsPrefix(pattern, s)
    case EndsWith => IsSuffix(pattern, s)
    case _ => K.strPred(p, pattern, s)
  }

  /** The column type an operator yields on a column operand of type `t`; None where the engine
      refuses the expression. */
  function UnBase(op: UnOp, t: Base): Option<Base> {
    match op
    case Prim(_) => if t == TS then None else Some(TI)
    case Unary(u) => UnaryBase(u, t)
    case Clip(lo, hi) => if (t == TI || t == TF) && !lo.CS? && !hi.CS? then Some(t) else None
    case Cast(target) => if (target == TI || target == TF) && t != TS then Some(target) else None
    case Fillna(fill) => if (t == TI || t == TF) && !fill.CS? then Some(t) else None
    case Cmp(c, rhs) => if CmpTypes(c, t, rhs) then Some(TB) else None
    case CmpBool(_, _) => None
    case Not => if t == TB then Some(TB) else None
    case StrPred(_, _) => if t == TS then Some(TB) else None
    case StrMap(_) => if t == TS then Some(TS) else None
    case StrLen(_) => if t == TS then Some(TI) else None
    case StrFind(_) => if t == TS then Some(TI) else None
    case StrReplace(_, _, _) => if t == TS then Some(TS) else None
    case StrSlice(_, _) => if t == TS then Some(TS) else None
    case IsIn(vs, _) =>
      if |vs| > 0 && ((AllInts(vs) && (t == TI || t == TF)) || (AllStrs(vs) && t == TS)) then Some(TB) else None
    case IsNull(_) => Some(TB)
    case IContains(_) => if t == TS then Some(TB) else None
    case ILike(_) => if t == TS then Some(TB) else None
    case IRegex(_) => None
  }

  function Retag(t: Base, v: Val): Val { if v.Tag() == Some(t) then v else VNull(t, false) }

  /** One cell through a one-operand node. */
  function UnVal(K: Kernels, op: UnOp, v: Val): Val {
    if v.Fault? || UnBase(op, v.Tag().value).None? then Fault
    else
      var t := UnBase(op, v.Tag().value).value;
      match op
      case Unary(u) => UnaryVal(K, u, v)
      case Cast(target) => CastVal(target, v)
      case Cmp(c, rhs) => CmpVal(K, c, v, rhs)
      case Not => VB(!Bit(v))
      case IsIn(vs, negated) => if negated then NotVal(IsInVal(vs, v)) else IsInVal(vs, v)
      case IsNull(missing) => VB(v.VNull? == missing)
      case StrPred(p, pattern) => if v.VNull? then VNull(TB, false) else VB(StrPredVal(K, p, pattern, v.s))
      case StrMap(m) => if v.VNull? then VNull(TS, false) else VS(EngineMap(m, v.s))
      case StrLen(chars) =>
        if v.VNull? then VNull(TI, false) else if chars then VI(|v.s|) else Retag(TI, K.other(op, v))
      case StrReplace(what, by_, all) =>
        if v.VNull? then VNull(TS, false) else VS(EngineReplace(v.s, what, by_, all))
      case IContains(sub) =>
        if v.VNull? then VNull(TB, false) else VB(IsSubstring(PyMap(K.cases, Lower, sub), EngineMap(Lower, v.s)))
      case ILike(p) =>
        if v.VNull? then VNull(TB, false) else VB(K.strPred(Like, PyMap(K.cases, Lower, p), EngineMap(Lower, v.s)))
      case _ => Retag(t, K.other(op, v))
  }

  function NotVal(v: Val): Val { if HasBit(v) then VB(!Bit(v)) else Fault }

  function BinVal(K: Kernels, op: BinOp, a: Val, b: Val): Val {
    match op
    case Arith(o) => ArithVal(K, o, a, b)
    case Logical(o) => LogicalVal(o, a, b)
  }

  /** Whether a tree holds no column, so the engine folds it to a scalar. */
  predicate IsScalar(e: Expr) {
    match e
    case Lit(_) => true
    case Bin(Arith(_), l, r) => IsScalar(l) && IsScalar(r)
    case _ => false
  }

  /** The common type of two select arms, as arithmetic promotes; None for a mix no cast bridges. */
  function SelectBase(s: Base, sScalar: bool, t: Base, tScalar: bool): Option<Base> {
    if (s == TS && !sScalar) || (t == TS && !tScalar) then
      if s == TS && t == TS && !sScalar && !tScalar then Some(TS) else None
    else if s == TF || t == TF then Some(TF)
    else if sScalar && tScalar then Some(TI)
    else if sScalar then Some(t)
    else if tScalar then Some(s)
    else if s == t then Some(s)
    else Some(TI)
  }

  /** An arm cast or broadcast to the common type. A scalar broadcast into a Bool column keeps only
      whether it is nonzero. */
  function ArmVal(t: Base, v: Val): Val {
    if v.Tag() == Some(t) then v
    else if t == TB then (if v.VI? then VB(v.i != 0) else Fault)
    else CastVal(t, v)
  }

  /** `cond ? a : b`; a null condition takes `b`. */
  function SelectVal(c: Val, a: Val, aScalar: bool, b: Val, bScalar: bool): Val {
    if !HasBit(c) || a.Fault? || b.Fault? then Fault
    else
      match SelectBase(a.Tag().value, aScalar, b.Tag().value, bScalar)
      case None => Fault
      case Some(t) => if c.VB? && c.b then ArmVal(t, a) else ArmVal(t, b)
  }

  /** A literal; a string one reaches the engine as the integer it reads as. */
  function LitVal(c: Const): Val {
    match c
    case CI(n) => VI(n)
    case CF(r) => VF(r)
    case CS(s) => if IntText(s).Some? then VI(IntText(s).value) else Fault
  }

  /** The value of an expression on one row. */
  function Eval(K: Kernels, e: Expr, row: Row): Val {
    match e
    case Lit(c) => LitVal(c)
    case Col(n) => if n in row.named then row.named[n] else Fault
    case Input(i) => if i < |row.inputs| then row.inputs[i] else Fault
    case Un(op, arg) => UnVal(K, op, Eval(K, arg, row))
    case Bin(op, l, r) => BinVal(K, op, Eval(K, l, row), Eval(K, r, row))
    case Select(c, a, b) =>
      SelectVal(Eval(K, c, row), Eval(K, a, row), IsScalar(a), Eval(K, b, row), IsScalar(b))
    case ColumnOpNode(_, _) => Fault
    case AggLeaf(_) => Fault
  }

  // ---- the engine's static check -------------------------------------------------

  /** A compiled operand: a scalar known at compile time, or a column of a type. */
  datatype Ty = Ty(scalar: bool, base: Base)

  function BinTy(op: BinOp, s: Ty, t: Ty): Option<Ty> {
    match op
    case Logical(_) =>
      if s == Ty(false, TB) && t == Ty(false, TB) then Some(Ty(false, TB)) else None
    case Arith(o) =>
      if s.scalar && t.scalar then Some(Ty(true, ArithBase(o, s.base, t.base)))
      else if s.base == TS || t.base == TS then None
      else if s.scalar && (o == Sub || o == Div) then None
      else if ArithBase(o, s.base, t.base) == TF then Some(Ty(false, TF))
      else if !s.scalar && !t.scalar then (if s.base == TB && t.base == TB then None else Some(Ty(false, TI)))
      else if (if s.scalar then t.base else s.base) == TB then None
      else Some(Ty(false, TI))
  }

  /** The type the engine infers, or None where it refuses: no kernel, an operand that must be a
      column, or a node that never reaches the evaluator. */
  function TypeOf(e: Expr, sch: Schema): Option<Ty> {
    match e
    case Lit(CI(_)) => Some(Ty(true, TI))
    case Lit(CF(_)) => Some(Ty(true, TF))
    case Lit(CS(s)) => if IntText(s).Some? then Some(Ty(true, TI)) else None
    case Col(n) => if n in sch.namedTypes then Some(Ty(false, sch.namedTypes[n])) else None
    case Input(i) => if i < |sch.inputTypes| then Some(Ty(false, sch.inputTypes[i])) else None
    case Un(op, arg) =>
      var t := TypeOf(arg, sch);
      if t.None? || t.value.scalar then None
      else (match UnBase(op, t.value.base) case None => None case Some(b) => Some(Ty(false, b)))
    case Bin(op, l, r) =>
      var s, t := TypeOf(l, sch), TypeOf(r, sch);
      if s.None? || t.None? then None else BinTy(op, s.value, t.value)
    case Select(c, a, b) =>
      var tc, s, t := TypeOf(c, sch), TypeOf(a, sch), TypeOf(b, sch);
      if s.None? || t.None? || tc != Some(Ty(false, TB)) then None
      else
        (match SelectBase(s.value.base, s.value.scalar, t.value.base, t.value.scalar)
         case None => None
         case Some(u) => Some(Ty(false, u)))
    case ColumnOpNode(_, _) => None
    case AggLeaf(_) => None
  }

  ghost predicate RowFits(row: Row, sch: Schema) {
    && row.named.Keys == sch.namedTypes.Keys
    && |row.inputs| == |sch.inputTypes|
    && (forall n | n in row.named :: row.named[n].Tag() == Some(sch.namedTypes[n]))
    && (forall i | 0 <= i < |row.inputs| :: row.inputs[i].Tag() == Some(sch.inputTypes[i]))
  }

  lemma UnValTag(K: Kernels, op: UnOp, v: Val)
    requires !v.Fault? && UnBase(op, v.Tag().value).Some?
    ensures UnVal(K, op, v).Tag() == UnBase(op, v.Tag().value)
  {
  }

  lemma SelectValTag(c: Val, a: Val, s: Ty, b: Val, t: Ty)
    requires HasBit(c) && a.Tag() == Some(s.base) && b.Tag() == Some(t.base)
    requires s.scalar ==> (a.VI? || a.VF?)
    requires t.scalar ==> (b.VI? || b.VF?)
    requires SelectBase(s.base, s.scalar, t.base, t.scalar).Some?
    ensures SelectVal(c, a, s.scalar, b, t.scalar).Tag() == SelectBase(s.base, s.scalar, t.base, t.scalar)
  {
  }

  /** Type soundness: an expression the engine accepts never faults, and every value it produces has
      the inferred column type. */
  lemma {:induction false} TypeSound(K: Kernels, e: Expr, row: Row, sch: Schema)
    requires RowFits(row, sch)
    requires TypeOf(e, sch).Some?
    ensures Eval(K, e, row).Tag() == Some(TypeOf(e, sch).value.base)
    ensures IsScalar(e) == TypeOf(e, sch).value.scalar
    ensures IsScalar(e) ==> Eval(K, e, row).VI? || Eval(K, e, row).VF?
  {
    match e
    case Lit(_) =>
    case Col(_) =>
    case Input(_) =>
    case Un(op, arg) =>
      TypeSound(K, arg, row, sch);
      UnValTag(K, op, Eval(K, arg, row));
    case Bin(op, l, r) =>
      TypeSound(K, l, row, sch);
      TypeSound(K, r, row, sch);
    case Select(c, a, b) =>
      TypeSound(K, c, row, sch);
      TypeSound(K, a, row, sch);
      TypeSound(K, b, row, sch);
      SelectValTag(Eval(K, c, row), Eval(K, a, row), TypeOf(a, sch).value,
                   Eval(K, b, row), TypeOf(b, sch).value);
  }
}
