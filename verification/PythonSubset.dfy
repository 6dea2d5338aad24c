/** The Python functions the transpiler reads: their syntax trees, and what running one does.

    A run is given `fuel` calls; it yields a value, or nothing when Python raises, when the fuel runs
    out, or when the construct has no engine form at all (so lowering refuses it as well). */
module PythonSubset {
  import opened Options
  import opened Text
  import opened Exprs
  import opened PythonNumbers

  // ---- syntax ------------------------------------------------------------------

  datatype PyConst = KInt(n: int) | KFloat(r: real) | KStr(s: string) | KBool(b: bool) | KNone | KOther

  datatype PyBinOp = OpAdd | OpSub | OpMul | OpDiv | OpFloorDiv | OpMod | OpPow | OpOther
  datatype PyCmpOp = CLt | CLe | CGt | CGe | CEq | CNe | CIn | CNotIn | CIs | CIsNot

  datatype PyExpr =
    | EConst(c: PyConst)
    | EName(id: string)
    | ESubscript(base: PyExpr, key: PyExpr)
    | EAttr(base: PyExpr, attr: string)
    | EBin(op: PyBinOp, left: PyExpr, right: PyExpr)
    | ENeg(arg: PyExpr)
    | ENot(arg: PyExpr)
    | EBool(isAnd: bool, first: PyExpr, rest: PyExprs)
    | ECompare(left: PyExpr, chain: PyChain)
    | EIfExp(test: PyExpr, body: PyExpr, orelse: PyExpr)
    | ECall(func: string, args: PyExprs, keywords: bool)
    | EMethod(target: PyExpr, name: string, args: PyExprs, keywords: bool)
    | EList(elts: PyExprs)
    | EOther

  datatype PyExprs = ENil | ECons(hd: PyExpr, tl: PyExprs)
  datatype PyChain = CNil | CCons(cop: PyCmpOp, right: PyExpr, tail: PyChain)

  datatype PyStmt =
    | SReturn(value: Option<PyExpr>)
    | SAssign(name: string, rhs: PyExpr)
    | SIf(test: PyExpr, body: PyStmts, orelse: PyStmts)
    | SPass
    | SDoc
    | SOther

  datatype PyStmts = SNil | SCons(hd: PyStmt, tl: PyStmts)

  datatype Body = Lambda(e: PyExpr) | Def(stmts: PyStmts)

  /** A global or closure name of a function. */
  datatype Global =
    | GNum(c: Const)
    | GStr(s: string)
    | GList(values: seq<PyConst>)
    | GFun(f: string)
    | GMath
    | GOther

  datatype FunDef = FunDef(params: seq<string>, body: Body, globals: map<string, Global>)
  type Funs = map<string, FunDef>

  function Length(es: PyExprs): nat { if es.ENil? then 0 else 1 + Length(es.tl) }

  function ESize(e: PyExpr): (n: nat)
    ensures n >= 1
  {
    match e
    case ESubscript(b, k) => 1 + ESize(b) + ESize(k)
    case EAttr(b, _) => 1 + ESize(b)
    case EBin(_, l, r) => 1 + ESize(l) + ESize(r)
    case ENeg(x) => 1 + ESize(x)
    case ENot(x) => 1 + ESize(x)
    case EBool(_, x, rest) => 1 + ESize(x) + EsSize(rest)
    case ECompare(l, chain) => 1 + ESize(l) + ChainSize(chain)
    case EIfExp(c, x, y) => 1 + ESize(c) + ESize(x) + ESize(y)
    case ECall(_, args, _) => 1 + EsSize(args)
    case EMethod(t, _, args, _) => 1 + ESize(t) + EsSize(args)
    case EList(es) => 1 + EsSize(es)
    case _ => 1
  }

  function EsSize(es: PyExprs): nat { if es.ENil? then 0 else ESize(es.hd) + EsSize(es.tl) }

  function ChainSize(c: PyChain): nat { if c.CNil? then 0 else ESize(c.right) + ChainSize(c.tail) }

  /** The statement count, the measure under which `orelse + rest` shrinks. */
  function Size(ss: PyStmts): nat {
    match ss
    case SNil => 0
    case SCons(s, tl) => StmtSize(s) + Size(tl)
  }

  function StmtSize(s: PyStmt): (n: nat)
    ensures n >= 1
  {
    match s
    case SIf(_, body, orelse) => 1 + Size(body) + Size(orelse)
    case _ => 1
  }

  function Append(a: PyStmts, b: PyStmts): (c: PyStmts)
    ensures Size(c) == Size(a) + Size(b)
  {
    match a
    case SNil => b
    case SCons(s, tl) => SCons(s, Append(tl, b))
  }

  predicate Distinct(xs: seq<string>) {
    forall i, j | 0 <= i < j < |xs| :: xs[i] != xs[j]
  }

  // ---- values --------------------------------------------------------------------

  datatype PVal = PInt(n: int) | PFloat(r: real) | PBool(b: bool) | PStr(s: string) | PNone

  predicate IsNumber(v: PVal) { v.PInt? || v.PFloat? || v.PBool? }
  predicate IsWhole(v: PVal) { v.PInt? || v.PBool? }

  function Whole(v: PVal): int
    requires IsWhole(v)
  { if v.PInt? then v.n else BoolInt(v.b) }

  function Number(v: PVal): real
    requires IsNumber(v)
  { if v.PFloat? then v.r else Whole(v) as real }

  function Truthy(v: PVal): Option<bool> {
    match v
    case PStr(s) => Some(|s| > 0)
    case PNone => None
    case _ => Some(Number(v) != 0.0)
  }

  function ConstVal(c: PyConst): Option<PVal> {
    match c
    case KInt(n) => Some(PInt(n))
    case KFloat(r) => Some(PFloat(r))
    case KStr(s) => Some(PStr(s))
    case KBool(b) => Some(PBool(b))
    case KNone => Some(PNone)
    case KOther => None
  }

  function NumConst(c: Const): PVal {
    match c
    case CI(n) => PInt(n)
    case CF(r) => PFloat(r)
    case CS(s) => PStr(s)
  }

  // ---- operators -------------------------------------------------------------------

  function PyIntBin(op: PyBinOp, a: int, b: int): Option<PVal> {
    match op
    case OpAdd => Some(PInt(a + b))
    case OpSub => Some(PInt(a - b))
    case OpMul => Some(PInt(a * b))
    case OpDiv => if b == 0 then None else Some(PFloat(a as real / b as real))
    case OpFloorDiv => if b == 0 then None else Some(PInt(FloorDiv(a, b)))
    case OpMod => if b == 0 then None else Some(PInt(FloorMod(a, b)))
    case OpPow => if b < 0 then None else Some(PInt(IntPow(a, b)))
    case OpOther => None
  }

  function PyRealBin(op: PyBinOp, a: real, b: real): Option<PVal> {
    match op
    case OpAdd => Some(PFloat(a + b))
    case OpSub => Some(PFloat(a - b))
    case OpMul => Some(PFloat(a * b))
    case OpDiv => if b == 0.0 then None else Some(PFloat(a / b))
    case OpFloorDiv => if b == 0.0 then None else Some(PFloat((a / b).Floor as real))
    case OpMod => if b == 0.0 then None else Some(PFloat(RealMod(a, b)))
    case _ => None
  }

  /** `a ** b`: whole exponents from zero, and the square root; a negative base has no real root. */
  function PyPow(K: Kernels, a: PVal, b: PVal): Option<PVal>
    requires IsNumber(a) && IsNumber(b)
  {
    if IsWhole(a) && IsWhole(b) then PyIntBin(OpPow, Whole(a), Whole(b))
    else if IsWhole(b) then (if Whole(b) < 0 then None else Some(PFloat(RealPow(Number(a), Whole(b)))))
    else if b.r == 0.5 && Number(a) >= 0.0 then Some(PFloat(K.real1(Sqrt, Number(a))))
    else None
  }

  function PyBin(K: Kernels, op: PyBinOp, a: PVal, b: PVal): Option<PVal> {
    if !IsNumber(a) || !IsNumber(b) then None
    else if op == OpPow then PyPow(K, a, b)
    else if IsWhole(a) && IsWhole(b) then PyIntBin(op, Whole(a), Whole(b))
    else PyRealBin(op, Number(a), Number(b))
  }

  function PyNeg(a: PVal): Option<PVal> {
    if !IsNumber(a) then None
    else if IsWhole(a) then Some(PInt(-Whole(a))) else Some(PFloat(-a.r))
  }

  predicate PyEq(a: PVal, b: PVal) {
    if IsNumber(a) && IsNumber(b) then Number(a) == Number(b) else a == b
  }

  function CmpOf(op: PyCmpOp): Option<CmpOp> {
    match op
    case CLt => Some(Lt)
    case CLe => Some(Le)
    case CGt => Some(Gt)
    case CGe => Some(Ge)
    case CEq => Some(Eq)
    case CNe => Some(Ne)
    case _ => None
  }

  /** `a op b` for the six orderings; ordering strings, and comparing None with `==`, are not modelled. */
  function PyCmp(op: CmpOp, a: PVal, b: PVal): Option<bool> {
    if IsNumber(a) && IsNumber(b) then Some(CmpReal(op, Number(a), Number(b)))
    else if a.PNone? || b.PNone? then None
    else if op == Eq then Some(PyEq(a, b))
    else if op == Ne then Some(!PyEq(a, b))
    else None
  }

  function PyMember(a: PVal, vs: seq<PVal>): Option<bool> {
    if a.PNone? then None else Some(exists i | 0 <= i < |vs| :: PyEq(a, vs[i]))
  }

  /** The functions of the `math` module that have an engine kernel. */
  function MathOf(fn: string): Option<UnaryName> {
    if fn == "sqrt" then Some(Sqrt)
    else if fn == "log" then Some(Log)
    else if fn == "exp" then Some(Exp)
    else if fn == "floor" then Some(Floor)
    else if fn == "ceil" then Some(Ceil)
    else None
  }

  function PyMath(K: Kernels, u: UnaryName, a: PVal): Option<PVal> {
    if !IsNumber(a) then None
    else
      var x := Number(a);
      match u
      case Sqrt => if x < 0.0 then None else Some(PFloat(K.real1(Sqrt, x)))
      case Log => if x <= 0.0 then None else Some(PFloat(K.real1(Log, x)))
      case Exp => Some(PFloat(K.real1(Exp, x)))
      case Floor => Some(PInt(x.Floor))
      case Ceil => Some(PInt(Ceiling(x)))
      case _ => None
  }

  datatype StrMethod = MapMethod(m: StrMapName) | StartsMethod | EndsMethod | ReplaceMethod

  function MethodOf(name: string): Option<StrMethod> {
    if name == "lower" then Some(MapMethod(Lower))
    else if name == "upper" then Some(MapMethod(Upper))
    else if name == "strip" then Some(MapMethod(Strip))
    else if name == "lstrip" then Some(MapMethod(Lstrip))
    else if name == "rstrip" then Some(MapMethod(Rstrip))
    else if name == "startswith" then Some(StartsMethod)
    else if name == "endswith" then Some(EndsMethod)
    else if name == "replace" then Some(ReplaceMethod)
    else None
  }

  function PyMethod(K: Kernels, a: PVal, m: StrMethod, args: seq<PVal>): Option<PVal> {
    if !a.PStr? || !AllStr(args) then None
    else match m
      case MapMethod(f) => if |args| == 0 then Some(PStr(PyMap(K.cases, f, a.s))) else None
      case StartsMethod => if |args| == 1 then Some(PBool(IsPrefix(args[0].s, a.s))) else None
      case EndsMethod => if |args| == 1 then Some(PBool(IsSuffix(args[0].s, a.s))) else None
      case ReplaceMethod => if |args| == 2 then Some(PStr(PyReplace(a.s, args[0].s, args[1].s))) else None
  }

  predicate AllStr(vs: seq<PVal>) { forall i | 0 <= i < |vs| :: vs[i].PStr? }

  /** min / max keep the first of equal values. */
  function PyExtreme(isMin: bool, best: PVal, rest: seq<PVal>): Option<PVal>
    decreases |rest|
  {
    if !IsNumber(best) then None
    else if rest == [] then Some(best)
    else if !IsNumber(rest[0]) then None
    else
      var better := if isMin then Number(rest[0]) < Number(best) else Number(rest[0]) > Number(best);
      PyExtreme(isMin, if better then rest[0] else best, rest[1..])
  }

  datatype Builtin = BAbs | BMin | BMax | BInt | BFloat | BLen | BRound

  function BuiltinOf(name: string): Option<Builtin> {
    if name == "abs" then Some(BAbs)
    else if name == "min" then Some(BMin)
    else if name == "max" then Some(BMax)
    else if name == "int" then Some(BInt)
    else if name == "float" then Some(BFloat)
    else if name == "len" then Some(BLen)
    else if name == "round" then Some(BRound)
    else None
  }

  function PyBuiltin(K: Kernels, f: Builtin, args: seq<PVal>): Option<PVal> {
    if f.BMin? || f.BMax? then (if |args| >= 2 then PyExtreme(f.BMin?, args[0], args[1..]) else None)
    else if |args| != 1 then None
    else PyBuiltin1(K, f, args[0])
  }

  function PyBuiltin1(K: Kernels, f: Builtin, a: PVal): Option<PVal> {
    if f.BLen? then (if a.PStr? then Some(PInt(|a.s|)) else None)
    else if !IsNumber(a) then None
    else match f
      case BAbs =>
        if IsWhole(a) then Some(PInt(if Whole(a) < 0 then -Whole(a) else Whole(a)))
        else Some(PFloat(if a.r < 0.0 then -a.r else a.r))
      case BInt => if IsWhole(a) then Some(PInt(Whole(a))) else Some(PInt(Truncate(a.r)))
      case BFloat => Some(PFloat(Number(a)))
      case BRound => if IsWhole(a) then Some(PInt(Whole(a))) else Some(PInt(Nearest(a.r)))
      case _ => None
  }

  // ---- running ---------------------------------------------------------------------

  function AssignedIn(ss: PyStmts): set<string> {
    match ss
    case SNil => {}
    case SCons(SAssign(x, _), tl) => {x} + AssignedIn(tl)
    case SCons(SIf(_, a, b), tl) => AssignedIn(a) + AssignedIn(b) + AssignedIn(tl)
    case SCons(_, tl) => AssignedIn(tl)
  }

  lemma {:induction false} AssignedAppend(a: PyStmts, b: PyStmts)
    ensures AssignedIn(Append(a, b)) == AssignedIn(a) + AssignedIn(b)
  {
    if a.SCons? { AssignedAppend(a.tl, b); }
  }

  /** A function's own names: its parameters and every name its body assigns. Python never looks one up among the
      globals, assigned yet or not. */
  function OwnNames(fd: FunDef): set<string> {
    (set p | p in fd.params) + if fd.body.Def? then AssignedIn(fd.body.stmts) else {}
  }

  /** Where a function body runs: its globals, its own names, and its row when it is a row function. */
  datatype Frame = Frame(globals: map<string, Global>, own: set<string>, rowParam: Option<string>, row: map<string, PVal>)

  function FrameOf(fd: FunDef, rowParam: Option<string>, row: map<string, PVal>): Frame {
    Frame(fd.globals, OwnNames(fd), rowParam, row)
  }

  datatype Outcome = Returned(v: PVal) | Fell(vars: map<string, PVal>) | Stuck

  function PyName(fr: Frame, vars: map<string, PVal>, id: string): Option<PVal> {
    if id in vars then Some(vars[id])
    else if id in fr.own || fr.rowParam == Some(id) then None
    else if id in fr.globals then
      (match fr.globals[id]
       case GNum(c) => Some(NumConst(c))
       case GStr(s) => Some(PStr(s))
       case _ => None)
    else None
  }

  function RowKey(rowParam: Option<string>, e: PyExpr): (k: Option<string>)
    ensures k.Some? ==> rowParam.Some?
  {
    match e
    case EAttr(EName(id), attr) => if rowParam == Some(id) then Some(attr) else None
    case ESubscript(EName(id), EConst(KStr(k))) => if rowParam == Some(id) then Some(k) else None
    case _ => None
  }

  predicate IsMath(fr: Frame, vars: map<string, PVal>, e: PyExpr) {
    e.EName? && e.id !in vars && e.id !in fr.own && e.id in fr.globals && fr.globals[e.id].GMath?
  }

  function PyEval(K: Kernels, funs: Funs, fr: Frame, vars: map<string, PVal>, e: PyExpr, fuel: nat): Option<PVal>
    decreases fuel, 0, ESize(e), 1
  {
    match e
    case EConst(c) => ConstVal(c)
    case EName(id) => PyName(fr, vars, id)
    case ESubscript(_, _) => PyField(fr, vars, e)
    case EAttr(_, _) => PyField(fr, vars, e)
    case EBin(op, l, r) =>
      var a, b := PyEval(K, funs, fr, vars, l, fuel), PyEval(K, funs, fr, vars, r, fuel);
      if a.None? || b.None? then None else PyBin(K, op, a.value, b.value)
    case ENeg(x) =>
      var a := PyEval(K, funs, fr, vars, x, fuel);
      if a.None? then None else PyNeg(a.value)
    case ENot(x) =>
      var a := PyEval(K, funs, fr, vars, x, fuel);
      if a.None? || Truthy(a.value).None? then None else Some(PBool(!Truthy(a.value).value))
    case EBool(isAnd, first, rest) =>
      var a := PyEval(K, funs, fr, vars, first, fuel);
      if a.None? then None else PyBoolRest(K, funs, fr, vars, isAnd, a.value, rest, fuel)
    case ECompare(l, chain) => PyCompare(K, funs, fr, vars, l, chain, fuel)
    case EIfExp(c, x, y) =>
      var t := PyEval(K, funs, fr, vars, c, fuel);
      if t.None? || Truthy(t.value).None? then None
      else if Truthy(t.value).value then PyEval(K, funs, fr, vars, x, fuel)
      else PyEval(K, funs, fr, vars, y, fuel)
    case ECall(f, args, keywords) =>
      var vs := PyEvals(K, funs, fr, vars, args, fuel);
      if keywords || vs.None? || f in vars || f in fr.own || fr.rowParam == Some(f) then None
      else if f in fr.globals then
        (if fr.globals[f].GFun? && fuel > 0 then PyCall(K, funs, fr.globals[f].f, vs.value, fuel - 1) else None)
      else if BuiltinOf(f).Some? then PyBuiltin(K, BuiltinOf(f).value, vs.value)
      else None
    case EMethod(target, name, args, keywords) =>
      var vs := PyEvals(K, funs, fr, vars, args, fuel);
      if keywords || vs.None? then None
      else if IsMath(fr, vars, target) then
        (if |vs.value| == 1 && MathOf(name).Some? then PyMath(K, MathOf(name).value, vs.value[0]) else None)
      else
        var a := PyEval(K, funs, fr, vars, target, fuel);
        if a.None? || MethodOf(name).None? then None else PyMethod(K, a.value, MethodOf(name).value, vs.value)
    case EList(_) => None
    case EOther => None
  }

  function PyEvals(K: Kernels, funs: Funs, fr: Frame, vars: map<string, PVal>, es: PyExprs, fuel: nat)
    : (r: Option<seq<PVal>>)
    ensures r.Some? ==> |r.value| == Length(es)
    decreases fuel, 0, EsSize(es), 2, es
  {
    match es
    case ENil => Some([])
    case ECons(e, tl) =>
      var v, vs := PyEval(K, funs, fr, vars, e, fuel), PyEvals(K, funs, fr, vars, tl, fuel);
      if v.None? || vs.None? then None else Some([v.value] + vs.value)
  }

  /** `and` / `or`: the first operand that decides, or the last one. */
  function PyBoolRest(K: Kernels, funs: Funs, fr: Frame, vars: map<string, PVal>, isAnd: bool, a: PVal,
                      rest: PyExprs, fuel: nat): Option<PVal>
    decreases fuel, 0, EsSize(rest), 2
  {
    if Truthy(a).None? then None
    else match rest
      case ENil => Some(a)
      case ECons(e, tl) =>
        if Truthy(a).value != isAnd then Some(a)
        else
          var b := PyEval(K, funs, fr, vars, e, fuel);
          if b.None? then None else PyBoolRest(K, funs, fr, vars, isAnd, b.value, tl, fuel)
  }

  /** A chained comparison: each link in turn until one is false. */
  function PyCompare(K: Kernels, funs: Funs, fr: Frame, vars: map<string, PVal>, l: PyExpr, chain: PyChain,
                     fuel: nat): Option<PVal>
    decreases fuel, 0, ESize(l) + ChainSize(chain), 3
  {
    match chain
    case CNil => None
    case CCons(op, r, tail) =>
      var p := PyLink(K, funs, fr, vars, l, op, r, fuel);
      if p.None? then None
      else if !p.value || tail.CNil? then Some(PBool(p.value))
      else PyCompare(K, funs, fr, vars, r, tail, fuel)
  }

  /** One link `l op r`; `is` is modelled against None only. */
  function PyLink(K: Kernels, funs: Funs, fr: Frame, vars: map<string, PVal>, l: PyExpr, op: PyCmpOp, r: PyExpr,
                  fuel: nat): Option<bool>
    decreases fuel, 0, ESize(l) + ESize(r), 2
  {
    var a := PyEval(K, funs, fr, vars, l, fuel);
    if a.None? then None
    else if op == CIn || op == CNotIn then
      var m := PyIn(K, funs, fr, vars, a.value, r, fuel);
      if m.None? then None else Some(m.value != (op == CNotIn))
    else
      var b := PyEval(K, funs, fr, vars, r, fuel);
      if b.None? then None
      else if op == CIs || op == CIsNot then
        (if (l == EConst(KNone)) == (r == EConst(KNone)) then None
         else Some((a.value == b.value) != (op == CIsNot)))
      else PyCmp(CmpOf(op).value, a.value, b.value)
  }

  /** Membership in a list display, a global list, or a string. */
  function PyIn(K: Kernels, funs: Funs, fr: Frame, vars: map<string, PVal>, a: PVal, r: PyExpr, fuel: nat)
    : Option<bool>
    decreases fuel, 0, ESize(r), 2
  {
    if r.EList? then
      var vs := PyEvals(K, funs, fr, vars, r.elts, fuel);
      if vs.None? then None else PyMember(a, vs.value)
    else if r.EName? && fr.rowParam != Some(r.id) && r.id !in vars && r.id !in fr.own && r.id in fr.globals && fr.globals[r.id].GList? then
      var vs := ConstVals(fr.globals[r.id].values);
      if vs.None? then None else PyMember(a, vs.value)
    else
      var b := PyEval(K, funs, fr, vars, r, fuel);
      if b.None? || !b.value.PStr? || !a.PStr? then None else Some(IsSubstring(a.s, b.value.s))
  }

  /** A call: parameters bound to argument values, the body run, and None for a fall-through. */
  function PyCall(K: Kernels, funs: Funs, f: string, args: seq<PVal>, fuel: nat): Option<PVal>
    decreases fuel, 3
  {
    if f !in funs || |funs[f].params| != |args| then None
    else
      PyBody(K, funs, FrameOf(funs[f], None, map[]), Bind(funs[f].params, args), funs[f].body, fuel)
  }

  function PyBody(K: Kernels, funs: Funs, fr: Frame, vars: map<string, PVal>, body: Body, fuel: nat): Option<PVal>
    decreases fuel, 2
  {
    match body
    case Lambda(e) => PyEval(K, funs, fr, vars, e, fuel)
    case Def(stmts) =>
      match Exec(K, funs, fr, vars, stmts, fuel)
      case Returned(v) => Some(v)
      case Fell(_) => Some(PNone)
      case Stuck => None
  }

  function Exec(K: Kernels, funs: Funs, fr: Frame, vars: map<string, PVal>, ss: PyStmts, fuel: nat): Outcome
    decreases fuel, 1, ss
  {
    match ss
    case SNil => Fell(vars)
    case SCons(s, rest) =>
      match s
      case SReturn(None) => Returned(PNone)
      case SReturn(Some(e)) =>
        (match PyEval(K, funs, fr, vars, e, fuel) case Some(v) => Returned(v) case None => Stuck)
      case SAssign(x, e) =>
        var v := PyEval(K, funs, fr, vars, e, fuel);
        if v.None? then Stuck else Exec(K, funs, fr, vars[x := v.value], rest, fuel)
      case SIf(test, body, orelse) =>
        var t := PyEval(K, funs, fr, vars, test, fuel);
        if t.None? || Truthy(t.value).None? then Stuck
        else
          (match Exec(K, funs, fr, vars, if Truthy(t.value).value then body else orelse, fuel)
           case Fell(vars') => Exec(K, funs, fr, vars', rest, fuel)
           case o => o)
      case SPass => Exec(K, funs, fr, vars, rest, fuel)
      case SDoc => Exec(K, funs, fr, vars, rest, fuel)
      case SOther => Stuck
  }

  function ConstVals(cs: seq<PyConst>): Option<seq<PVal>> {
    if cs == [] then Some([])
    else
      var v, vs := ConstVal(cs[0]), ConstVals(cs[1..]);
      if v.None? || vs.None? then None else Some([v.value] + vs.value)
  }

  function Bind<V>(params: seq<string>, args: seq<V>): map<string, V>
    requires |params| == |args|
  {
    if params == [] then map[] else Bind(params[1..], args[1..])[params[0] := args[0]]
  }

  lemma {:induction false} BindKeys<V>(params: seq<string>, xs: seq<V>)
    requires |params| == |xs|
    ensures forall k | k in Bind(params, xs) :: k in params
    ensures forall k | k in params :: k in Bind(params, xs)
  {
    if params != [] { BindKeys(params[1..], xs[1..]); }
  }

  function PyField(fr: Frame, vars: map<string, PVal>, e: PyExpr): Option<PVal> {
    var k := RowKey(fr.rowParam, e);
    if k.Some? && fr.rowParam.value !in vars && k.value in fr.row then Some(fr.row[k.value]) else None
  }
}
