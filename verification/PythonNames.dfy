/** What the Python names and operators of the subset mean, said without the tables that recognise them: by value on the
    Python side for any arguments, and on the engine for the functions that apply them to one column. */
module PythonNames {
  import opened Options
  import opened Text
  import opened Exprs
  import opened PythonNumbers
  import opened PythonSubset
  import opened Transpiler

  // ---- what each name computes --------------------------------------------------------------------------

  predicate IsAbs(x: real, y: real) { y >= 0.0 && (y == x || y == -x) }

  /** The whole number next to `x` on the side of zero. */
  predicate IsTruncation(x: real, y: int) {
    if x >= 0.0 then 0 <= y && y as real <= x < y as real + 1.0 else y <= 0 && y as real - 1.0 < x <= y as real
  }

  /** A nearest whole number, the even one of two. */
  predicate IsNearest(x: real, y: int) {
    && -0.5 <= x - y as real <= 0.5
    && (x - y as real == 0.5 || x - y as real == -0.5 ==> y % 2 == 0)
  }

  predicate IsFloor(x: real, y: int) { y as real <= x < y as real + 1.0 }
  predicate IsCeiling(x: real, y: int) { y as real - 1.0 < x <= y as real }

  lemma BoolNumbers()
    ensures Number(PBool(true)) == 1.0 && Number(PBool(false)) == 0.0
    ensures NumOf(VB(true)) == 1.0 && NumOf(VB(false)) == 0.0
  {
  }

  lemma RoundsMean(x: real)
    ensures IsTruncation(x, Truncate(x)) && IsNearest(x, Nearest(x)) && IsFloor(x, x.Floor) && IsCeiling(x, Ceiling(x))
  {
    var n := x.Floor;
    assert n as real <= x < n as real + 1.0;
    var m := (-x).Floor;
    assert m as real <= -x < m as real + 1.0;
  }

  /** Two whole numbers cannot both be the nearest, the floor, the ceiling or the truncation. */
  lemma RoundsUnique(x: real, y: int, z: int)
    ensures IsNearest(x, y) && IsNearest(x, z) ==> y == z
    ensures IsFloor(x, y) && IsFloor(x, z) ==> y == z
    ensures IsCeiling(x, y) && IsCeiling(x, z) ==> y == z
    ensures IsTruncation(x, y) && IsTruncation(x, z) ==> y == z
  {
  }

  // ---- calls by name, for any arguments -------------------------------------------------------------------

  /** A call of Python's own `f`: nothing of the function's goes by that name. */
  predicate OwnCall(fr: Frame, vars: map<string, PVal>, f: string) {
    f !in vars && f !in fr.own && fr.rowParam != Some(f) && f !in fr.globals
  }

  predicate AllNumbers(vs: seq<PVal>) { forall i | 0 <= i < |vs| :: IsNumber(vs[i]) }

  /** The first of the least. */
  predicate IsLeast(vs: seq<PVal>, i: nat) {
    && i < |vs| && AllNumbers(vs)
    && (forall j | 0 <= j < |vs| :: Number(vs[i]) <= Number(vs[j]))
    && forall j | 0 <= j < i :: Number(vs[i]) < Number(vs[j])
  }

  /** The first of the greatest. */
  predicate IsGreatest(vs: seq<PVal>, i: nat) {
    && i < |vs| && AllNumbers(vs)
    && (forall j | 0 <= j < |vs| :: Number(vs[i]) >= Number(vs[j]))
    && forall j | 0 <= j < i :: Number(vs[i]) > Number(vs[j])
  }

  /** The scan so far: `best` is the first extreme of the values seen, at `at`. */
  lemma {:induction false} ExtremeScan(isMin: bool, vs: seq<PVal>, at: nat, n: nat)
    requires 0 < n <= |vs| && at < n && AllNumbers(vs)
    requires if isMin then IsLeast(vs[..n], at) else IsGreatest(vs[..n], at)
    ensures PyExtreme(isMin, vs[at], vs[n..]).Some?
    ensures exists i: nat :: i < |vs| && PyExtreme(isMin, vs[at], vs[n..]) == Some(vs[i]) &&
              if isMin then IsLeast(vs, i) else IsGreatest(vs, i)
    decreases |vs| - n
  {
    if n == |vs| {
      assert vs[..n] == vs && vs[n..] == [];
    } else {
      assert vs[n..][0] == vs[n] && vs[n..][1..] == vs[n + 1..];
      var better := if isMin then Number(vs[n]) < Number(vs[at]) else Number(vs[n]) > Number(vs[at]);
      assert forall j | 0 <= j < n :: vs[..n + 1][j] == vs[..n][j];
      ExtremeScan(isMin, vs, if better then n else at, n + 1);
    }
  }

  lemma {:induction false} ExtremeOf(isMin: bool, vs: seq<PVal>)
    requires |vs| >= 2 && AllNumbers(vs)
    ensures exists i: nat :: i < |vs| && PyExtreme(isMin, vs[0], vs[1..]) == Some(vs[i]) &&
              if isMin then IsLeast(vs, i) else IsGreatest(vs, i)
  {
    assert vs[..1] == [vs[0]];
    ExtremeScan(isMin, vs, 0, 1);
  }

  /** `min` and `max` of two numbers or more. */
  lemma {:induction false} ExtremeMeans(K: Kernels, funs: Funs, fr: Frame, vars: map<string, PVal>, args: PyExprs, fuel: nat, vs: seq<PVal>)
    requires PyEvals(K, funs, fr, vars, args, fuel) == Some(vs) && |vs| >= 2 && AllNumbers(vs)
    ensures OwnCall(fr, vars, "min") ==>
              exists i: nat :: IsLeast(vs, i) && PyEval(K, funs, fr, vars, ECall("min", args, false), fuel) == Some(vs[i])
    ensures OwnCall(fr, vars, "max") ==>
              exists i: nat :: IsGreatest(vs, i) && PyEval(K, funs, fr, vars, ECall("max", args, false), fuel) == Some(vs[i])
  {
    hide IsLeast, IsGreatest, AllNumbers, PyExtreme;
    ExtremeOf(true, vs);
    ExtremeOf(false, vs);
  }

  /** What a builtin of one argument gives on a value, by its name. */
  predicate CallGives(f: string, a: PVal, w: Option<PVal>) {
    && (f == "abs" && IsWhole(a) ==> w.Some? && w.value.PInt? && IsAbs(Number(a), Number(w.value)))
    && (f == "abs" && a.PFloat? ==> w.Some? && w.value.PFloat? && IsAbs(a.r, w.value.r))
    && (f == "int" && IsNumber(a) ==> w.Some? && w.value.PInt? && IsTruncation(Number(a), w.value.n))
    && (f == "round" && IsNumber(a) ==> w.Some? && w.value.PInt? && IsNearest(Number(a), w.value.n))
    && (f == "float" && IsNumber(a) ==> w == Some(PFloat(Number(a))))
    && (f == "len" && a.PStr? ==> w == Some(PInt(|a.s|)))
  }

  lemma BuiltinGives(K: Kernels, f: string, a: PVal)
    requires f in {"abs", "int", "round", "float", "len"}
    ensures BuiltinOf(f).Some? && CallGives(f, a, PyBuiltin(K, BuiltinOf(f).value, [a]))
  {
    hide IsTruncation, IsNearest, IsFloor, IsCeiling, Truncate, Nearest, Ceiling;
    assert PyBuiltin(K, BuiltinOf(f).value, [a]) == PyBuiltin1(K, BuiltinOf(f).value, a);
    if IsNumber(a) {
      RoundsMean(Number(a));
      if IsWhole(a) { WholeRounds(Whole(a)); }
    }
  }

  lemma WholeRounds(n: int)
    ensures IsTruncation(n as real, n) && IsNearest(n as real, n)
  {
  }

  /** `abs`, `int`, `float` and `round` of a number, and `len` of a string. */
  lemma CallMeans(K: Kernels, funs: Funs, fr: Frame, vars: map<string, PVal>, f: string, arg: PyExpr, fuel: nat, a: PVal)
    requires f in {"abs", "int", "round", "float", "len"}
    requires OwnCall(fr, vars, f) && PyEval(K, funs, fr, vars, arg, fuel) == Some(a)
    ensures CallGives(f, a, PyEval(K, funs, fr, vars, ECall(f, ECons(arg, ENil), false), fuel))
  {
    hide CallGives, BuiltinOf, PyBuiltin;
    BuiltinGives(K, f, a);
    assert [a] + [] == [a];
    assert PyEvals(K, funs, fr, vars, ENil, fuel) == Some([]);
    assert PyEvals(K, funs, fr, vars, ECons(arg, ENil), fuel) == Some([a]);
  }

  /** The functions of `math`. */
  lemma MathMeans(K: Kernels, funs: Funs, fr: Frame, vars: map<string, PVal>, m: string, f: string, arg: PyExpr, fuel: nat, a: PVal)
    requires IsMath(fr, vars, EName(m)) && PyEval(K, funs, fr, vars, arg, fuel) == Some(a) && IsNumber(a)
    ensures var x, w := Number(a), PyEval(K, funs, fr, vars, EMethod(EName(m), f, ECons(arg, ENil), false), fuel);
            && (f == "floor" ==> w.Some? && w.value.PInt? && IsFloor(x, w.value.n))
            && (f == "ceil" ==> w.Some? && w.value.PInt? && IsCeiling(x, w.value.n))
            && (f == "sqrt" ==> w == if x < 0.0 then None else Some(PFloat(K.real1(Sqrt, x))))
            && (f == "log" ==> w == if x <= 0.0 then None else Some(PFloat(K.real1(Log, x))))
            && (f == "exp" ==> w == Some(PFloat(K.real1(Exp, x))))
  {
    assert [a] + [] == [a];
    assert PyEvals(K, funs, fr, vars, ENil, fuel) == Some([]);
    assert PyEvals(K, funs, fr, vars, ECons(arg, ENil), fuel) == Some([a]);
    RoundsMean(Number(a));
  }

  // ---- literals and arithmetic ---------------------------------------------------------------------------------

  /** A literal is its own value; nothing else written out has one. */
  lemma LiteralMeans(K: Kernels, funs: Funs, fr: Frame, vars: map<string, PVal>, fuel: nat, n: int, r: real, s: string, b: bool)
    ensures PyEval(K, funs, fr, vars, EConst(KInt(n)), fuel) == Some(PInt(n))
    ensures PyEval(K, funs, fr, vars, EConst(KFloat(r)), fuel) == Some(PFloat(r))
    ensures PyEval(K, funs, fr, vars, EConst(KStr(s)), fuel) == Some(PStr(s))
    ensures PyEval(K, funs, fr, vars, EConst(KBool(b)), fuel) == Some(PBool(b))
    ensures PyEval(K, funs, fr, vars, EConst(KNone), fuel) == Some(PNone)
  {
  }

  predicate IsQuotient(x: real, y: real, z: real) { z * y == x }

  /** The whole number `z` of times the divisor goes into the dividend, the rest on the divisor's side. */
  predicate IsFloorQuotient(x: real, y: real, z: real) {
    z == z.Floor as real && if y > 0.0 then z * y <= x < z * y + y else z * y + y < x <= z * y
  }

  predicate IsTimes(q: int, y: real, x: real) { q as real * y == x }

  ghost predicate IsMultiple(y: real, d: real) { exists q: int :: IsTimes(q, y, d) }

  /** What is left of the dividend: of the divisor's sign and less than it, and a whole number of divisors away. */
  ghost predicate IsRemainder(x: real, y: real, z: real) {
    (if y > 0.0 then 0.0 <= z < y else y < z <= 0.0) && IsMultiple(y, x - z)
  }

  /** What an operator on numbers gives. */
  ghost predicate Gives(op: PyBinOp, x: real, y: real, z: real) {
    match op
    case OpAdd => z == x + y
    case OpSub => z == x - y
    case OpMul => z == x * y
    case OpDiv => y != 0.0 && IsQuotient(x, y, z)
    case OpFloorDiv => y != 0.0 && IsFloorQuotient(x, y, z)
    case OpMod => y != 0.0 && IsRemainder(x, y, z)
    case _ => false
  }

  predicate Divides(op: PyBinOp) { op == OpDiv || op == OpFloorDiv || op == OpMod }

  lemma FloorQuotientIs(x: real, y: real)
    requires y != 0.0
    ensures IsFloorQuotient(x, y, (x / y).Floor as real)
  {
    RealModBounds(x, y);
    assert RealMod(x, y) == x - (x / y).Floor as real * y;
  }

  lemma RemainderIs(x: real, y: real)
    requires y != 0.0
    ensures IsRemainder(x, y, RealMod(x, y))
  {
    RealModBounds(x, y);
    assert IsTimes((x / y).Floor, y, x - RealMod(x, y));
  }

  lemma RealsGive(op: PyBinOp, x: real, y: real)
    requires op != OpPow
    ensures PyRealBin(op, x, y).Some? <==> op != OpOther && (Divides(op) ==> y != 0.0)
    ensures PyRealBin(op, x, y).Some? ==> PyRealBin(op, x, y).value.PFloat? && Gives(op, x, y, PyRealBin(op, x, y).value.r)
  {
    hide IsFloorQuotient, IsRemainder, RealMod;
    if y != 0.0 {
      TimesDivisor(x, y);
      FloorQuotientIs(x, y);
      RemainderIs(x, y);
    }
  }

  lemma WholesGive(op: PyBinOp, m: int, n: int)
    requires op != OpPow
    ensures PyIntBin(op, m, n).Some? <==> op != OpOther && (Divides(op) ==> n != 0)
    ensures PyIntBin(op, m, n).Some? ==>
              && (if op == OpDiv then PyIntBin(op, m, n).value.PFloat? else PyIntBin(op, m, n).value.PInt?)
              && Gives(op, m as real, n as real, Number(PyIntBin(op, m, n).value))
  {
    hide IsFloorQuotient, IsRemainder, FloorDiv, FloorMod;
    match op
    case OpMul => IntTimesReal(m, n);
    case OpDiv => if n != 0 { TimesDivisor(m as real, n as real); }
    case OpFloorDiv =>
      if n != 0 {
        FloorOfQuotient(m, n);
        FloorQuotientIs(m as real, n as real);
      }
    case OpMod =>
      if n != 0 {
        RealModOfInts(m, n);
        RemainderIs(m as real, n as real);
      }
    case _ =>
  }

  /** `+ - * / // %`: defined on any two numbers but for a division by zero, and whole of whole operands but for `/`. */
  lemma ArithmeticMeans(K: Kernels, op: PyBinOp, a: PVal, b: PVal)
    requires op != OpPow
    ensures PyBin(K, op, a, b).Some? <==> IsNumber(a) && IsNumber(b) && op != OpOther && (Divides(op) ==> Number(b) != 0.0)
    ensures PyBin(K, op, a, b).Some? ==>
              && (if IsWhole(a) && IsWhole(b) && op != OpDiv then PyBin(K, op, a, b).value.PInt? else PyBin(K, op, a, b).value.PFloat?)
              && Gives(op, Number(a), Number(b), Number(PyBin(K, op, a, b).value))
  {
    hide Gives, PyIntBin, PyRealBin;
    if IsNumber(a) && IsNumber(b) {
      if IsWhole(a) && IsWhole(b) { WholesGive(op, Whole(a), Whole(b)); } else { RealsGive(op, Number(a), Number(b)); }
    }
  }

  /** Where a power is defined: for a whole exponent from zero, and for one half where there is a root, which it then is. */
  lemma PowerTakes(K: Kernels, a: PVal, b: PVal)
    ensures PyBin(K, OpPow, a, b).Some? <==>
              && IsNumber(a) && IsNumber(b)
              && ((IsWhole(b) && Whole(b) >= 0) || (b == PFloat(0.5) && Number(a) >= 0.0))
    ensures IsNumber(a) && b == PFloat(0.5) && Number(a) >= 0.0 ==> PyBin(K, OpPow, a, b) == Some(PFloat(K.real1(Sqrt, Number(a))))
  {
    hide IntPow, RealPow;
  }

  /** The power of zero is one, and each step up is one factor more. */
  lemma PowerSteps(K: Kernels, a: PVal, n: nat)
    requires IsNumber(a)
    ensures PyBin(K, OpPow, a, PInt(0)) == Some(if IsWhole(a) then PInt(1) else PFloat(1.0))
    ensures var p, q := PyBin(K, OpPow, a, PInt(n)), PyBin(K, OpPow, a, PInt(n + 1));
            p.Some? && q.Some? && IsNumber(p.value) && IsNumber(q.value) && Number(q.value) == Number(p.value) * Number(a)
  {
    if IsWhole(a) {
      assert PyBin(K, OpPow, a, PInt(n)) == Some(PInt(IntPow(Whole(a), n)));
      assert PyBin(K, OpPow, a, PInt(n + 1)) == Some(PInt(IntPow(Whole(a), n) * Whole(a)));
      IntTimesReal(IntPow(Whole(a), n), Whole(a));
    } else {
      assert PyBin(K, OpPow, a, PInt(n)) == Some(PFloat(RealPow(a.r, n)));
      assert RealPow(a.r, n + 1) == RealPow(a.r, n) * a.r;
      assert PyBin(K, OpPow, a, PInt(n + 1)) == Some(PFloat(RealPow(a.r, n + 1)));
    }
  }

  /** Negation. */
  lemma NegationMeans(K: Kernels, funs: Funs, fr: Frame, vars: map<string, PVal>, x: PyExpr, fuel: nat, a: PVal)
    requires PyEval(K, funs, fr, vars, x, fuel) == Some(a) && IsNumber(a)
    ensures var w := PyEval(K, funs, fr, vars, ENeg(x), fuel);
            w.Some? && IsNumber(w.value) && Number(w.value) == -Number(a) && (w.value.PFloat? <==> a.PFloat?)
  {
  }

  // ---- comparisons ---------------------------------------------------------------------------------------------

  /** Python's six orderings on numbers. */
  predicate Compared(op: PyCmpOp, x: real, y: real) {
    match op
    case CLt => x < y
    case CLe => x <= y
    case CGt => x > y
    case CGe => x >= y
    case CEq => x == y
    case CNe => x != y
    case _ => false
  }

  predicate IsOrdering(op: PyCmpOp) { op in {CLt, CLe, CGt, CGe, CEq, CNe} }

  /** A comparison with one link is that link. */
  lemma OneLink(K: Kernels, funs: Funs, fr: Frame, vars: map<string, PVal>, l: PyExpr, op: PyCmpOp, r: PyExpr, fuel: nat)
    ensures var p := PyLink(K, funs, fr, vars, l, op, r, fuel);
            PyEval(K, funs, fr, vars, ECompare(l, CCons(op, r, CNil)), fuel) == if p.None? then None else Some(PBool(p.value))
  {
    hide PyLink;
    assert PyEval(K, funs, fr, vars, ECompare(l, CCons(op, r, CNil)), fuel) == PyCompare(K, funs, fr, vars, l, CCons(op, r, CNil), fuel);
  }

  lemma OrderingMeans(op: PyCmpOp, a: PVal, b: PVal)
    requires IsOrdering(op)
    ensures CmpOf(op).Some?
    ensures IsNumber(a) && IsNumber(b) ==> PyCmp(CmpOf(op).value, a, b) == Some(Compared(op, Number(a), Number(b)))
    ensures a.PStr? && b.PStr? && op == CEq ==> PyCmp(CmpOf(op).value, a, b) == Some(a.s == b.s)
    ensures a.PStr? && b.PStr? && op == CNe ==> PyCmp(CmpOf(op).value, a, b) == Some(a.s != b.s)
  {
  }

  /** A comparison of numbers is their ordering; strings compare for equality. */
  lemma CompareMeans(K: Kernels, funs: Funs, fr: Frame, vars: map<string, PVal>, l: PyExpr, op: PyCmpOp, r: PyExpr,
                     fuel: nat, a: PVal, b: PVal)
    requires PyEval(K, funs, fr, vars, l, fuel) == Some(a) && PyEval(K, funs, fr, vars, r, fuel) == Some(b) && IsOrdering(op)
    ensures var w := PyEval(K, funs, fr, vars, ECompare(l, CCons(op, r, CNil)), fuel);
            && (IsNumber(a) && IsNumber(b) ==> w == Some(PBool(Compared(op, Number(a), Number(b)))))
            && (a.PStr? && b.PStr? && op == CEq ==> w == Some(PBool(a.s == b.s)))
            && (a.PStr? && b.PStr? && op == CNe ==> w == Some(PBool(a.s != b.s)))
  {
    hide Compared, CmpOf, PyCmp, Number;
    OrderingMeans(op, a, b);
    OneLink(K, funs, fr, vars, l, op, r, fuel);
    assert PyLink(K, funs, fr, vars, l, op, r, fuel) == PyCmp(CmpOf(op).value, a, b);
  }

  // ---- string methods ------------------------------------------------------------------------------------------

  /** What a method of a string gives, by its name and its arguments. */
  ghost predicate MethodGives(K: Kernels, name: string, s: string, args: seq<PVal>, w: PVal) {
    && (name == "lower" && args == [] ==> w == PStr(PyCased(K.cases, false, s, 0)))
    && (name == "upper" && args == [] ==> w == PStr(PyCased(K.cases, true, s, 0)))
    && (name == "strip" && args == [] ==> w.PStr? && Stripped(c => PySpace(c), true, true, s, w.s))
    && (name == "lstrip" && args == [] ==> w.PStr? && Stripped(c => PySpace(c), true, false, s, w.s))
    && (name == "rstrip" && args == [] ==> w.PStr? && Stripped(c => PySpace(c), false, true, s, w.s))
    && (name == "startswith" && |args| == 1 && args[0].PStr? ==> w == PBool(Starts(args[0].s, s)))
    && (name == "endswith" && |args| == 1 && args[0].PStr? ==> w == PBool(Ends(args[0].s, s)))
    && (name == "replace" && |args| == 2 && args[0].PStr? && args[1].PStr? ==> w == PStr(PyReplace(s, args[0].s, args[1].s)))
  }

  predicate HasMethod(name: string, args: seq<PVal>) {
    || (name in {"lower", "upper", "strip", "lstrip", "rstrip"} && args == [])
    || (name in {"startswith", "endswith"} && |args| == 1 && args[0].PStr?)
    || (name == "replace" && |args| == 2 && args[0].PStr? && args[1].PStr?)
  }

  lemma MethodsGive(K: Kernels, name: string, s: string, args: seq<PVal>)
    requires HasMethod(name, args)
    ensures MethodOf(name).Some? && PyMethod(K, PStr(s), MethodOf(name).value, args).Some?
    ensures MethodGives(K, name, s, args, PyMethod(K, PStr(s), MethodOf(name).value, args).value)
  {
    hide Stripped, Starts, Ends, StripBy, PyCased, PyReplace, IsPrefix, IsSuffix;
    StripMeans(c => PySpace(c), s);
    if |args| == 1 {
      PrefixMeans(args[0].s, s);
      SuffixMeans(args[0].s, s);
    }
  }

  lemma MethodMeans(K: Kernels, funs: Funs, fr: Frame, vars: map<string, PVal>, t: PyExpr, name: string, args: PyExprs, fuel: nat,
                    s: string, vs: seq<PVal>)
    requires PyEval(K, funs, fr, vars, t, fuel) == Some(PStr(s)) && PyEvals(K, funs, fr, vars, args, fuel) == Some(vs)
    requires !IsMath(fr, vars, t) && HasMethod(name, vs)
    ensures var w := PyEval(K, funs, fr, vars, EMethod(t, name, args, false), fuel); w.Some? && MethodGives(K, name, s, vs, w.value)
  {
    hide MethodGives, HasMethod, PyMethod, MethodOf;
    MethodsGive(K, name, s, vs);
  }

  // ---- names, parameters and fields ------------------------------------------------------------------------------

  /** Each parameter is bound to the argument of its position. */
  lemma {:induction false} BindAt<V>(params: seq<string>, args: seq<V>, i: nat)
    requires |params| == |args| && i < |params| && Distinct(params)
    ensures params[i] in Bind(params, args) && Bind(params, args)[params[i]] == args[i]
  {
    if i > 0 {
      BindAt(params[1..], args[1..], i - 1);
      assert params[1..][i - 1] == params[i] && params[0] != params[i];
    }
  }

  /** A row's field, by index or by attribute. */
  lemma FieldMeans(K: Kernels, funs: Funs, fr: Frame, vars: map<string, PVal>, r: string, k: string, fuel: nat)
    requires fr.rowParam == Some(r) && r !in vars && k in fr.row
    ensures PyEval(K, funs, fr, vars, ESubscript(EName(r), EConst(KStr(k))), fuel) == Some(fr.row[k])
    ensures PyEval(K, funs, fr, vars, EAttr(EName(r), k), fuel) == Some(fr.row[k])
  {
  }

  /** What decides a branch: a number other than zero, a string other than the empty one. */
  predicate Decides(a: PVal) {
    match a
    case PInt(n) => n != 0
    case PFloat(r) => r != 0.0
    case PBool(b) => b
    case PStr(s) => s != ""
    case PNone => false
  }

  lemma BranchMeans(K: Kernels, funs: Funs, fr: Frame, vars: map<string, PVal>, c: PyExpr, x: PyExpr, y: PyExpr, fuel: nat, a: PVal)
    requires PyEval(K, funs, fr, vars, c, fuel) == Some(a) && a != PNone
    ensures PyEval(K, funs, fr, vars, EIfExp(c, x, y), fuel) ==
            if Decides(a) then PyEval(K, funs, fr, vars, x, fuel) else PyEval(K, funs, fr, vars, y, fuel)
    ensures PyEval(K, funs, fr, vars, ENot(c), fuel) == Some(PBool(!Decides(a)))
  {
  }

  lemma Decided(a: PVal)
    requires a != PNone
    ensures Truthy(a) == Some(Decides(a))
  {
  }

  /** `a and b` is b where a holds and else a itself; `a or b` the other way round. */
  lemma AndOrMeans(K: Kernels, funs: Funs, fr: Frame, vars: map<string, PVal>, x: PyExpr, y: PyExpr, fuel: nat, a: PVal, b: PVal)
    requires PyEval(K, funs, fr, vars, x, fuel) == Some(a) && PyEval(K, funs, fr, vars, y, fuel) == Some(b) && a != PNone && b != PNone
    ensures PyEval(K, funs, fr, vars, EBool(true, x, ECons(y, ENil)), fuel) == Some(if Decides(a) then b else a)
    ensures PyEval(K, funs, fr, vars, EBool(false, x, ECons(y, ENil)), fuel) == Some(if Decides(a) then a else b)
  {
    hide Decides, Truthy;
    Decided(a);
    Decided(b);
    assert PyBoolRest(K, funs, fr, vars, true, b, ENil, fuel) == Some(b);
    assert PyBoolRest(K, funs, fr, vars, false, b, ENil, fuel) == Some(b);
    assert PyBoolRest(K, funs, fr, vars, true, a, ECons(y, ENil), fuel) == Some(if Decides(a) then b else a);
    assert PyBoolRest(K, funs, fr, vars, false, a, ECons(y, ENil), fuel) == Some(if Decides(a) then a else b);
  }

  /** Some element is equal to the value: numbers by what they are worth, strings by their characters. */
  predicate Found(a: PVal, vs: seq<PVal>) {
    exists i | 0 <= i < |vs| :: if IsNumber(a) then IsNumber(vs[i]) && Number(vs[i]) == Number(a) else vs[i] == a
  }

  lemma FoundMeans(a: PVal, vs: seq<PVal>)
    requires a != PNone
    ensures PyMember(a, vs) == Some(Found(a, vs))
  {
    assert forall i | 0 <= i < |vs| ::
      PyEq(a, vs[i]) <==> if IsNumber(a) then IsNumber(vs[i]) && Number(vs[i]) == Number(a) else vs[i] == a;
  }

  /** A membership test asks for an equal element. */
  lemma MemberMeans(K: Kernels, funs: Funs, fr: Frame, vars: map<string, PVal>, x: PyExpr, es: PyExprs, fuel: nat, a: PVal, vs: seq<PVal>)
    requires PyEval(K, funs, fr, vars, x, fuel) == Some(a) && a != PNone && PyEvals(K, funs, fr, vars, es, fuel) == Some(vs)
    ensures PyEval(K, funs, fr, vars, ECompare(x, CCons(CIn, EList(es), CNil)), fuel) == Some(PBool(Found(a, vs)))
    ensures PyEval(K, funs, fr, vars, ECompare(x, CCons(CNotIn, EList(es), CNil)), fuel) == Some(PBool(!Found(a, vs)))
  {
    hide Found, PyMember;
    FoundMeans(a, vs);
    assert PyIn(K, funs, fr, vars, a, EList(es), fuel) == Some(Found(a, vs));
    MemberLink(K, funs, fr, vars, x, EList(es), fuel, a, Found(a, vs));
  }

  lemma SearchMeans(K: Kernels, funs: Funs, fr: Frame, vars: map<string, PVal>, y: PyExpr, fuel: nat, a: string, b: string)
    requires PyEval(K, funs, fr, vars, y, fuel) == Some(PStr(b)) && !y.EList? && !y.EName?
    ensures PyIn(K, funs, fr, vars, PStr(a), y, fuel) == Some(IsSubstring(a, b))
  {
    hide IsSubstring, PyEval;
  }

  /** A string is in another if it occurs there. */
  lemma SubstringIn(K: Kernels, funs: Funs, fr: Frame, vars: map<string, PVal>, x: PyExpr, y: PyExpr, fuel: nat, a: string, b: string)
    requires PyEval(K, funs, fr, vars, x, fuel) == Some(PStr(a)) && PyEval(K, funs, fr, vars, y, fuel) == Some(PStr(b))
    requires !y.EList? && !y.EName?
    ensures PyEval(K, funs, fr, vars, ECompare(x, CCons(CIn, y, CNil)), fuel) == Some(PBool(Occurs(a, b)))
  {
    hide IsSubstring, Occurs;
    SubstringMeans(a, b);
    SearchMeans(K, funs, fr, vars, y, fuel, a, b);
    MemberLink(K, funs, fr, vars, x, y, fuel, PStr(a), IsSubstring(a, b));
  }

  lemma MemberLink(K: Kernels, funs: Funs, fr: Frame, vars: map<string, PVal>, x: PyExpr, y: PyExpr, fuel: nat, a: PVal, found: bool)
    requires PyEval(K, funs, fr, vars, x, fuel) == Some(a) && PyIn(K, funs, fr, vars, a, y, fuel) == Some(found)
    ensures PyEval(K, funs, fr, vars, ECompare(x, CCons(CIn, y, CNil)), fuel) == Some(PBool(found))
    ensures PyEval(K, funs, fr, vars, ECompare(x, CCons(CNotIn, y, CNil)), fuel) == Some(PBool(!found))
  {
    hide PyIn, CmpOf, PyCmp;
    OneLink(K, funs, fr, vars, x, CIn, y, fuel);
    OneLink(K, funs, fr, vars, x, CNotIn, y, fuel);
  }

  /** A chain of comparisons: false where its first link is, and otherwise what the rest of the chain is. */
  lemma ChainMeans(K: Kernels, funs: Funs, fr: Frame, vars: map<string, PVal>, l: PyExpr, op: PyCmpOp, r: PyExpr, tail: PyChain, fuel: nat,
                   first: bool)
    requires tail.CCons? && PyEval(K, funs, fr, vars, ECompare(l, CCons(op, r, CNil)), fuel) == Some(PBool(first))
    ensures PyEval(K, funs, fr, vars, ECompare(l, CCons(op, r, tail)), fuel) ==
            if first then PyEval(K, funs, fr, vars, ECompare(r, tail), fuel) else Some(PBool(false))
  {
    hide PyLink;
    assert PyCompare(K, funs, fr, vars, l, CCons(op, r, CNil), fuel) == Some(PBool(first));
    assert PyLink(K, funs, fr, vars, l, op, r, fuel) == Some(first);
  }

  lemma NoneLink(K: Kernels, funs: Funs, fr: Frame, vars: map<string, PVal>, x: PyExpr, op: PyCmpOp, fuel: nat, a: PVal)
    requires PyEval(K, funs, fr, vars, x, fuel) == Some(a) && x != EConst(KNone) && (op == CIs || op == CIsNot)
    ensures PyLink(K, funs, fr, vars, x, op, EConst(KNone), fuel) == Some((a == PNone) != (op == CIsNot))
  {
    hide PyIn, PyCmp, CmpOf;
    assert PyEval(K, funs, fr, vars, EConst(KNone), fuel) == Some(PNone);
  }

  /** A value is None, or is not. */
  lemma IsNoneMeans(K: Kernels, funs: Funs, fr: Frame, vars: map<string, PVal>, x: PyExpr, fuel: nat, a: PVal)
    requires PyEval(K, funs, fr, vars, x, fuel) == Some(a) && x != EConst(KNone)
    ensures PyEval(K, funs, fr, vars, ECompare(x, CCons(CIs, EConst(KNone), CNil)), fuel) == Some(PBool(a == PNone))
    ensures PyEval(K, funs, fr, vars, ECompare(x, CCons(CIsNot, EConst(KNone), CNil)), fuel) == Some(PBool(a != PNone))
  {
    hide PyLink, PyEval;
    NoneLink(K, funs, fr, vars, x, CIs, fuel, a);
    NoneLink(K, funs, fr, vars, x, CIsNot, fuel, a);
    OneLink(K, funs, fr, vars, x, CIs, EConst(KNone), fuel);
    OneLink(K, funs, fr, vars, x, CIsNot, EConst(KNone), fuel);
  }

  /** A name: the function's own binding, and otherwise a number or string of the globals, unless the function owns it. */
  lemma NameMeans(K: Kernels, funs: Funs, fr: Frame, vars: map<string, PVal>, id: string, fuel: nat)
    ensures id in vars ==> PyEval(K, funs, fr, vars, EName(id), fuel) == Some(vars[id])
    ensures id !in vars && id in fr.own ==> PyEval(K, funs, fr, vars, EName(id), fuel) == None
    ensures id !in vars && id !in fr.globals ==> PyEval(K, funs, fr, vars, EName(id), fuel) == None
    ensures id !in vars && id !in fr.own && fr.rowParam != Some(id) && id in fr.globals ==>
              PyEval(K, funs, fr, vars, EName(id), fuel) ==
              match fr.globals[id]
              case GNum(CI(n)) => Some(PInt(n))
              case GNum(CF(r)) => Some(PFloat(r))
              case GNum(CS(s)) => Some(PStr(s))
              case GStr(s) => Some(PStr(s))
              case _ => None
  {
  }

  /** Statements run in order: an assignment binds, a branch runs its arm and goes on where that falls through, a return
      ends the run. */
  lemma StatementsRun(K: Kernels, funs: Funs, fr: Frame, vars: map<string, PVal>, x: string, e: PyExpr, body: PyStmts, orelse: PyStmts,
                      rest: PyStmts, fuel: nat, a: PVal)
    requires PyEval(K, funs, fr, vars, e, fuel) == Some(a)
    ensures Exec(K, funs, fr, vars, SCons(SAssign(x, e), rest), fuel) == Exec(K, funs, fr, vars[x := a], rest, fuel)
    ensures Exec(K, funs, fr, vars, SCons(SReturn(Some(e)), rest), fuel) == Returned(a)
    ensures Exec(K, funs, fr, vars, SCons(SPass, rest), fuel) == Exec(K, funs, fr, vars, rest, fuel)
    ensures a != PNone ==>
              var arm := Exec(K, funs, fr, vars, if Decides(a) then body else orelse, fuel);
              Exec(K, funs, fr, vars, SCons(SIf(e, body, orelse), rest), fuel) ==
              if arm.Fell? then Exec(K, funs, fr, arm.vars, rest, fuel) else arm
    ensures Exec(K, funs, fr, vars, SNil, fuel) == Fell(vars)
  {
  }

  /** Each parameter has the argument of its position, and nothing else is bound. */
  ghost predicate Binds(params: seq<string>, vs: seq<PVal>, bound: map<string, PVal>) {
    |params| == |vs| && bound.Keys == (set p | p in params) && forall i | 0 <= i < |vs| :: bound[params[i]] == vs[i]
  }

  /** A call of a function of the module runs its body with each parameter bound to its argument, and with no row. */
  lemma {:induction false} CallRunsBody(K: Kernels, funs: Funs, fr: Frame, vars: map<string, PVal>, f: string, args: PyExprs, fuel: nat,
                                       vs: seq<PVal>)
    requires PyEvals(K, funs, fr, vars, args, fuel) == Some(vs) && fuel > 0
    requires f !in vars && f !in fr.own && fr.rowParam != Some(f) && f in fr.globals && fr.globals[f].GFun?
    requires fr.globals[f].f in funs && |funs[fr.globals[f].f].params| == |vs| && Distinct(funs[fr.globals[f].f].params)
    ensures var fd := funs[fr.globals[f].f];
            exists bound: map<string, PVal> ::
              && Binds(fd.params, vs, bound)
              && PyEval(K, funs, fr, vars, ECall(f, args, false), fuel) ==
                 PyBody(K, funs, Frame(fd.globals, OwnNames(fd), None, map[]), bound, fd.body, fuel - 1)
  {
    hide Bind, PyBody, OwnNames, BuiltinOf;
    var fd := funs[fr.globals[f].f];
    var bound := Bind(fd.params, vs);
    BindKeys(fd.params, vs);
    forall i | 0 <= i < |vs| ensures fd.params[i] in bound && bound[fd.params[i]] == vs[i] { BindAt(fd.params, vs, i); }
    assert Binds(fd.params, vs, bound);
    assert PyEval(K, funs, fr, vars, ECall(f, args, false), fuel) == PyCall(K, funs, fr.globals[f].f, vs, fuel - 1);
    assert PyCall(K, funs, fr.globals[f].f, vs, fuel - 1) ==
           PyBody(K, funs, Frame(fd.globals, OwnNames(fd), None, map[]), bound, fd.body, fuel - 1);
  }

  /** Falling off the end of a function, or a bare return, gives None. */
  lemma FallsToNone(K: Kernels, funs: Funs, fr: Frame, vars: map<string, PVal>, ss: PyStmts, fuel: nat)
    requires Exec(K, funs, fr, vars, ss, fuel).Fell?
    ensures PyBody(K, funs, fr, vars, Def(ss), fuel) == Some(PNone)
    ensures PyBody(K, funs, fr, vars, Def(SCons(SReturn(None), ss)), fuel) == Some(PNone)
  {
    assert Exec(K, funs, fr, vars, SCons(SReturn(None), ss), fuel) == Returned(PNone);
  }

  /** Whatever a run binds is one of the body's assigned names, and what it does not assign it leaves alone. */
  lemma {:induction false} RunsAssign(K: Kernels, funs: Funs, fr: Frame, vars: map<string, PVal>, ss: PyStmts, fuel: nat)
    requires Exec(K, funs, fr, vars, ss, fuel).Fell?
    ensures var after := Exec(K, funs, fr, vars, ss, fuel).vars;
            && vars.Keys <= after.Keys <= vars.Keys + AssignedIn(ss)
            && forall id | id in vars && id !in AssignedIn(ss) :: after[id] == vars[id]
    decreases ss
  {
    match ss
    case SNil =>
    case SCons(SAssign(x, e), rest) => RunsAssign(K, funs, fr, vars[x := PyEval(K, funs, fr, vars, e, fuel).value], rest, fuel);
    case SCons(SIf(test, body, orelse), rest) =>
      var arm := if Truthy(PyEval(K, funs, fr, vars, test, fuel).value).value then body else orelse;
      RunsAssign(K, funs, fr, vars, arm, fuel);
      RunsAssign(K, funs, fr, Exec(K, funs, fr, vars, arm, fuel).vars, rest, fuel);
    case SCons(SPass, rest) => RunsAssign(K, funs, fr, vars, rest, fuel);
    case SCons(SDoc, rest) => RunsAssign(K, funs, fr, vars, rest, fuel);
    case _ =>
  }
}
