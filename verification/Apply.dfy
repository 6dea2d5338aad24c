/** `apply` / `map` over a user function: the tiers, the null rule, and the whole path from a Python function
    through its expression, the serialized tuples and the rebuilt tree to one cell per row. */
module Apply {
  import opened Options
  import opened Exprs
  import opened PythonSubset
  import opened Transpiler
  import opened Agreement
  import opened TranspilerCorrect
  import opened PostOrder

  /** Columns of equal height by name. */
  datatype Table = Table(columns: map<string, seq<Val>>, height: nat)

  ghost predicate Typed(t: Table, sch: Schema) {
    && sch.namedTypes.Keys == t.columns.Keys && sch.inputTypes == []
    && (forall n | n in t.columns :: |t.columns[n]| == t.height)
    && (forall n, i | n in t.columns && 0 <= i < t.height :: t.columns[n][i].Tag() == Some(sch.namedTypes[n]))
  }

  function RowAt(t: Table, i: nat): Row
    requires i < t.height && forall n | n in t.columns :: |t.columns[n]| == t.height
  { Row(map n | n in t.columns :: t.columns[n][i], []) }

  predicate Has(t: Table, cols: seq<string>) { forall k | 0 <= k < |cols| :: cols[k] in t.columns }

  function InputsAt(t: Table, cols: seq<string>, i: nat): Row
    requires i < t.height && Has(t, cols) && forall n | n in t.columns :: |t.columns[n]| == t.height
  { Row(map[], seq(|cols|, k requires 0 <= k < |cols| => t.columns[cols[k]][i])) }

  function InputTypes(cols: seq<string>, sch: Schema): Schema
    requires forall k | 0 <= k < |cols| :: cols[k] in sch.namedTypes
  { Schema(map[], seq(|cols|, k requires 0 <= k < |cols| => sch.namedTypes[cols[k]])) }

  // ---- `Columnar(expr).apply(source)` ----------------------------------------------------------

  /** The tree the engine holds after the tuples: what popping operands rebuilds. */
  function Shipped(K: Kernels, e: Expr, cols: seq<string>): Option<Expr> {
    match Core(K, e, cols)
    case None => None
    case Some(c) =>
      CoreIsCore(K, e, cols);
      match Rebuild(Post(c), [])
      case None => None
      case Some(stack) => if |stack| == 1 then Some(stack[0]) else None
  }

  /** One cell per row, or nothing where the source raises: a missing column, a tree with no tuple form, one the
      engine refuses, and an expression over no column at all, which has no column to broadcast along. */
  function EvalExpr(K: Kernels, e: Expr, t: Table, sch: Schema): Option<seq<Val>>
    requires forall n | n in t.columns :: |t.columns[n]| == t.height
    requires sch.namedTypes.Keys == t.columns.Keys
  {
    match Collect(e, [])
    case None => None
    case Some(cols) =>
      if cols == [] || !Has(t, cols) then None
      else
        match Shipped(K, e, cols)
        case None => None
        case Some(tree) =>
          if TypeOf(tree, InputTypes(cols, sch)).None? then None
          else Some(seq(t.height, i requires 0 <= i < t.height => Eval(K, tree, InputsAt(t, cols, i))))
  }

  lemma {:induction false} TypedNodes(e: Expr, sch: Schema)
    requires TypeOf(e, sch).Some? && sch.inputTypes == []
    ensures Serializable(e) && Reads(e) <= sch.namedTypes.Keys
    ensures Reads(e) == {} <==> TypeOf(e, sch).value.scalar
  {
    match e {
      case Un(_, arg) => TypedNodes(arg, sch);
      case Bin(_, l, r) =>
        TypedNodes(l, sch);
        TypedNodes(r, sch);
      case Select(c, a, b) =>
        TypedNodes(c, sch);
        TypedNodes(a, sch);
        TypedNodes(b, sch);
      case _ =>
    }
  }

  lemma ShippedMeans(K: Kernels, e: Expr, cols: seq<string>, t: Table, sch: Schema)
    requires Core(K, e, cols).Some? && Typed(t, sch) && Has(t, cols)
    ensures Shipped(K, e, cols).Some?
    ensures TypeOf(Shipped(K, e, cols).value, InputTypes(cols, sch)) == TypeOf(e, sch)
    ensures forall i | 0 <= i < t.height ::
              Eval(K, Shipped(K, e, cols).value, InputsAt(t, cols, i)) == Eval(K, e, RowAt(t, i))
  {
    var c := Core(K, e, cols).value;
    CoreIsCore(K, e, cols);
    Decodes(c, c);
    CoreTypes(K, e, cols, sch, InputTypes(cols, sch));
    forall i | 0 <= i < t.height
      ensures Eval(K, c, InputsAt(t, cols, i)) == Eval(K, e, RowAt(t, i))
    {
      CoreMeans(K, e, cols, RowAt(t, i), InputsAt(t, cols, i));
    }
  }

  /** Evaluation through tuples and positions yields the expression's own value on every row; it succeeds exactly
      on the expressions the engine's check accepts that read at least one column. */
  lemma EvalExprMeans(K: Kernels, e: Expr, t: Table, sch: Schema)
    requires Typed(t, sch)
    ensures EvalExpr(K, e, t, sch).Some? <==> TypeOf(e, sch).Some? && Reads(e) != {}
    ensures EvalExpr(K, e, t, sch).Some? ==> |EvalExpr(K, e, t, sch).value| == t.height
    ensures EvalExpr(K, e, t, sch).Some? ==>
              forall i | 0 <= i < t.height :: EvalExpr(K, e, t, sch).value[i] == Eval(K, e, RowAt(t, i))
  {
    if TypeOf(e, sch).Some? {
      TypedNodes(e, sch);
      SerializableCollects(e, []);
      CollectReads(e);
      var cols := Collect(e, []).value;
      assert cols != [] ==> cols[0] in Reads(e);
      assert Reads(e) != {} ==> exists n :: n in Reads(e) && n in cols;
      CoreDefined(K, e, cols);
      ShippedMeans(K, e, cols, t, sch);
    } else if EvalExpr(K, e, t, sch).Some? {
      ShippedMeans(K, e, Collect(e, []).value, t, sch);
    }
  }

  // ---- the null rule -------------------------------------------------------------------------------

  predicate HasNull(column: seq<Val>) { exists i | 0 <= i < |column| :: column[i].VNull? }

  /** `Series.take`: a negative index takes a null. */
  function Take(out: seq<Val>, base: Base, indices: seq<int>): seq<Val>
    requires forall k | 0 <= k < |indices| :: indices[k] < |out|
  {
    seq(|indices|, k requires 0 <= k < |indices| => if indices[k] < 0 then VNull(base, false) else out[indices[k]])
  }

  function NullWhereInputIs(out: seq<Val>, base: Base, column: seq<Val>): seq<Val>
    requires |out| == |column|
  {
    if !HasNull(column) then out
    else Take(out, base, seq(|column|, i requires 0 <= i < |column| => if column[i].VNull? then -1 else i))
  }

  // ---- `apply_series` ---------------------------------------------------------------------------------

  datatype Applied = Fails | Cells(cells: seq<Val>) | Values(values: seq<PVal>)

  /** `func(v)` in Python, for a function of one argument. */
  function CallValue(K: Kernels, funs: Funs, fd: FunDef, x: PVal, fuel: nat): Option<PVal> {
    if |fd.params| != 1 then None
    else PyBody(K, funs, FrameOf(fd, None, map[]), map[fd.params[0] := x], fd.body, fuel)
  }

  /** The element-wise map, a missing element staying missing; nothing if one call raises. */
  function PythonMap(K: Kernels, funs: Funs, fd: FunDef, xs: seq<PVal>, fuel: nat): Option<seq<PVal>> {
    if xs == [] then Some([])
    else
      var v := if xs[0].PNone? then Some(PNone) else CallValue(K, funs, fd, xs[0], fuel);
      var vs := PythonMap(K, funs, fd, xs[1..], fuel);
      if v.None? || vs.None? then None else Some([v.value] + vs.value)
  }

  function ColumnTable(column: seq<Val>): Table { Table(map[TRACE_INPUT := column], |column|) }
  function ColumnSchema(base: Base): Schema { Schema(map[TRACE_INPUT := base], []) }

  /** `_check_columns`: the expression names only columns of the source. */
  predicate ColumnsKnown(e: Expr, t: Table) { Collect(e, []).Some? && Has(t, Collect(e, []).value) }

  /** That is: it holds no case-insensitive regex, and every name it collects is a column. */
  lemma KnownMeans(e: Expr, t: Table)
    ensures ColumnsKnown(e, t) <==> NoIRegex(e) && Collected(e) <= t.columns.Keys
  {
    CollectGathers(e);
    if NoIRegex(e) {
      var cols := Collect(e, []).value;
      if Has(t, cols) {
        forall n | n in Collected(e) ensures n in t.columns { var k :| 0 <= k < |cols| && cols[k] == n; }
      }
      if Collected(e) <= t.columns.Keys {
        forall k | 0 <= k < |cols| ensures cols[k] in t.columns { assert cols[k] in Collected(e); }
      }
    }
  }

  function OnEngine(K: Kernels, e: Expr, column: seq<Val>, base: Base): Applied {
    match EvalExpr(K, e, ColumnTable(column), ColumnSchema(base))
    case None => Fails
    case Some(out) =>
      var t := TypeOf(e, ColumnSchema(base));
      Cells(NullWhereInputIs(out, if t.Some? then t.value.base else base, column))
  }

  /** Tracing first, when it gave an expression; then the function's own source lowered; then plain Python. */
  function ApplySeries(K: Kernels, funs: Funs, fd: FunDef, traced: Option<Expr>, xs: seq<PVal>, column: seq<Val>,
                       base: Base, fuel: nat): Applied {
    var low := Transpile(funs, fd, None, map[TRACE_INPUT := base == TI]);
    if traced.Some? then OnEngine(K, traced.value, column, base)
    else if low.Low? && ColumnsKnown(low.e, ColumnTable(column)) then OnEngine(K, low.e, column, base)
    else
      match PythonMap(K, funs, fd, xs, fuel)
      case None => Fails
      case Some(vs) => Values(vs)
  }

  /** A Python list and the column it is read from. */
  ghost predicate SameColumn(xs: seq<PVal>, column: seq<Val>, base: Base) {
    && |xs| == |column|
    && forall i | 0 <= i < |xs| :: Agreement.Cell(xs[i], column[i]) && column[i].Tag() == Some(base)
  }

  /** What an element-wise map owes an element: missing for missing, else Python's value if Python has one and the
      strings it goes through are ones both sides treat alike. */
  ghost predicate Owed(x: PVal, run: Option<PVal>, alike: bool, cell: Val) {
    if x.PNone? then cell.VNull? else run.Some? && alike ==> Same(run.value, cell)
  }

  lemma NullRule(K: Kernels, e: Expr, column: seq<Val>, base: Base)
    requires forall i | 0 <= i < |column| :: column[i].Tag() == Some(base)
    ensures match OnEngine(K, e, column, base)
            case Cells(out) =>
              && |out| == |column| && TypeOf(e, ColumnSchema(base)).Some? && Reads(e) != {}
              && forall i | 0 <= i < |out| ::
                  out[i] == if column[i].VNull? then VNull(TypeOf(e, ColumnSchema(base)).value.base, out[i].VNull? && out[i].bit)
                            else Eval(K, e, RowAt(ColumnTable(column), i))
            case Values(_) => false
            case Fails => TypeOf(e, ColumnSchema(base)).None? || Reads(e) == {}
  {
    EvalExprMeans(K, e, ColumnTable(column), ColumnSchema(base));
  }

  /** The tier tried first: an expression traced from the function fails exactly where the engine refuses it or it reads no
      column; else there is one cell per element, null where the element is null, and elsewhere the expression's value
      with the element for the input. The function itself is not run again. */
  lemma TracedSeries(K: Kernels, funs: Funs, fd: FunDef, e: Expr, xs: seq<PVal>, column: seq<Val>, base: Base, fuel: nat)
    requires forall i | 0 <= i < |column| :: column[i].Tag() == Some(base)
    ensures var t := TypeOf(e, Schema(map[TRACE_INPUT := base], []));
            match ApplySeries(K, funs, fd, Some(e), xs, column, base, fuel)
            case Fails => t.None? || Reads(e) == {}
            case Values(_) => false
            case Cells(out) =>
              && t.Some? && Reads(e) != {} && |out| == |column|
              && forall i | 0 <= i < |out| ::
                  if column[i].VNull? then out[i].VNull? && out[i].t == t.value.base
                  else out[i] == Eval(K, e, Row(map[TRACE_INPUT := column[i]], []))
  {
    NullRule(K, e, column, base);
    forall i | 0 <= i < |column| ensures RowAt(ColumnTable(column), i) == Row(map[TRACE_INPUT := column[i]], []) {}
  }

  lemma {:induction false} PythonMapAt(K: Kernels, funs: Funs, fd: FunDef, xs: seq<PVal>, fuel: nat)
    ensures PythonMap(K, funs, fd, xs, fuel).Some? <==>
              forall i | 0 <= i < |xs| :: xs[i].PNone? || CallValue(K, funs, fd, xs[i], fuel).Some?
    ensures PythonMap(K, funs, fd, xs, fuel).Some? ==>
              && |PythonMap(K, funs, fd, xs, fuel).value| == |xs|
              && forall i | 0 <= i < |xs| ::
                  Some(PythonMap(K, funs, fd, xs, fuel).value[i]) ==
                  if xs[i].PNone? then Some(PNone) else CallValue(K, funs, fd, xs[i], fuel)
  {
    if xs != [] {
      PythonMapAt(K, funs, fd, xs[1..], fuel);
      assert forall i | 0 < i < |xs| :: xs[i] == xs[1..][i - 1];
      assert forall i | 0 <= i < |xs| - 1 :: xs[i + 1] == xs[1..][i];
    }
  }

  /** `Series.apply` is the element-wise map: on whichever tier runs it, there is one result per element in order,
      a missing element gives a missing result, and any other gives what Python returns for it, on the engine so long as
      the strings whose case or ends it maps are ones both sides treat alike. */
  lemma ApplySeriesCorrect(K: Kernels, funs: Funs, fd: FunDef, xs: seq<PVal>, column: seq<Val>, base: Base, fuel: nat)
    requires SameColumn(xs, column, base)
    requires var low := Transpile(funs, fd, None, map[TRACE_INPUT := base == TI]);
             low.Low? ==> low.plain && Exact(low.e, ColumnSchema(base))
    ensures var low := Transpile(funs, fd, None, map[TRACE_INPUT := base == TI]);
            match ApplySeries(K, funs, fd, None, xs, column, base, fuel)
            case Cells(out) =>
              && low.Low? && |out| == |xs|
              && forall i | 0 <= i < |xs| ::
                  Owed(xs[i], CallValue(K, funs, fd, xs[i], fuel), Alike(K, low.e, RowAt(ColumnTable(column), i)), out[i])
            case Values(vs) =>
              |vs| == |xs| && forall i | 0 <= i < |xs| ::
                if xs[i].PNone? then vs[i] == PNone else CallValue(K, funs, fd, xs[i], fuel) == Some(vs[i])
            case Fails => true
  {
    hide PythonMap, Exact, Alike, Transpile, PyBody, EvalExpr, NullWhereInputIs;
    match ApplySeries(K, funs, fd, None, xs, column, base, fuel)
    case Cells(out) => EngineOwed(K, funs, fd, xs, column, base, fuel, out);
    case Values(vs) => PythonMapAt(K, funs, fd, xs, fuel);
    case Fails =>
  }

  lemma EngineOwed(K: Kernels, funs: Funs, fd: FunDef, xs: seq<PVal>, column: seq<Val>, base: Base, fuel: nat, out: seq<Val>)
    requires SameColumn(xs, column, base)
    requires var low := Transpile(funs, fd, None, map[TRACE_INPUT := base == TI]);
             low.Low? && low.plain && Exact(low.e, ColumnSchema(base)) && OnEngine(K, low.e, column, base) == Cells(out)
    ensures |out| == |xs|
    ensures forall i | 0 <= i < |xs| ::
              var alike := Alike(K, Transpile(funs, fd, None, map[TRACE_INPUT := base == TI]).e, RowAt(ColumnTable(column), i));
              Owed(xs[i], CallValue(K, funs, fd, xs[i], fuel), alike, out[i])
  {
    hide OnEngine, Exact, Alike, PyBody, Eval;
    var low := Transpile(funs, fd, None, map[TRACE_INPUT := base == TI]);
    NullRule(K, low.e, column, base);
    forall i | 0 <= i < |xs|
      ensures Owed(xs[i], CallValue(K, funs, fd, xs[i], fuel), Alike(K, low.e, RowAt(ColumnTable(column), i)), out[i])
    {
      if !xs[i].PNone? && CallValue(K, funs, fd, xs[i], fuel).Some? && Alike(K, low.e, RowAt(ColumnTable(column), i)) {
        ValueFunctionCorrect(K, funs, fd, map[TRACE_INPUT := base == TI], xs[i], RowAt(ColumnTable(column), i),
                             ColumnSchema(base), fuel);
      }
    }
  }

  /** When it raises: the lowered expression is one the engine refuses, or reads no column at all (a function that
      lowers to a constant), or, on the Python tier, some call raises. */
  lemma ApplySeriesFails(K: Kernels, funs: Funs, fd: FunDef, xs: seq<PVal>, column: seq<Val>, base: Base, fuel: nat)
    requires SameColumn(xs, column, base)
    ensures var low := Transpile(funs, fd, None, map[TRACE_INPUT := base == TI]);
            ApplySeries(K, funs, fd, None, xs, column, base, fuel).Fails? <==>
            if low.Low? && ColumnsKnown(low.e, ColumnTable(column)) then
              TypeOf(low.e, ColumnSchema(base)).None? || Reads(low.e) == {}
            else exists i | 0 <= i < |xs| :: !xs[i].PNone? && CallValue(K, funs, fd, xs[i], fuel).None?
  {
    var low := Transpile(funs, fd, None, map[TRACE_INPUT := base == TI]);
    if low.Low? && ColumnsKnown(low.e, ColumnTable(column)) {
      NullRule(K, low.e, column, base);
    } else {
      PythonMapAt(K, funs, fd, xs, fuel);
    }
  }

  function ConstantFunction(n: int): FunDef { FunDef(["x"], Lambda(EConst(KInt(n))), map[]) }

  lemma ConstantLowers(funs: Funs, n: int, intInputs: map<string, bool>)
    ensures Transpile(funs, ConstantFunction(n), None, intInputs) == Low(Lit(CI(n)), true)
  {
    var fd := ConstantFunction(n);
    var ctx := EntryCtx(funs, fd, None, intInputs);
    assert LowerExpr(ctx, NoLocals(), EConst(KInt(n))) == Low(Lit(CI(n)), true);
    assert LowerBody(ctx, fd.body) == LowerExpr(ctx, NoLocals(), EConst(KInt(n)));
  }

  /** A function that always returns the same number maps every column in Python and fails on the engine. */
  lemma ConstantFunctionFails(K: Kernels, funs: Funs, n: int, xs: seq<PVal>, column: seq<Val>, base: Base, fuel: nat)
    requires SameColumn(xs, column, base)
    ensures PythonMap(K, funs, ConstantFunction(n), xs, fuel).Some?
    ensures ApplySeries(K, funs, ConstantFunction(n), None, xs, column, base, fuel).Fails?
  {
    var fd := ConstantFunction(n);
    ConstantLowers(funs, n, map[TRACE_INPUT := base == TI]);
    assert Collect(Lit(CI(n)), []) == Some([]);
    forall x: PVal ensures CallValue(K, funs, fd, x, fuel) == Some(PInt(n)) {
      var fr := FrameOf(fd, None, map[]);
      assert PyEval(K, funs, fr, map["x" := x], EConst(KInt(n)), fuel) == Some(PInt(n));
    }
    PythonMapAt(K, funs, fd, xs, fuel);
  }

  // ---- `apply_rows` --------------------------------------------------------------------------------------

  /** `func(Row(...))` in Python. */
  function CallRow(K: Kernels, funs: Funs, fd: FunDef, fields: map<string, PVal>, fuel: nat): Option<PVal> {
    if |fd.params| != 1 then None
    else PyBody(K, funs, FrameOf(fd, Some(fd.params[0]), fields), map[], fd.body, fuel)
  }

  function PythonRows(K: Kernels, funs: Funs, fd: FunDef, rows: seq<map<string, PVal>>, fuel: nat): Option<seq<PVal>> {
    if rows == [] then Some([])
    else
      var v, vs := CallRow(K, funs, fd, rows[0], fuel), PythonRows(K, funs, fd, rows[1..], fuel);
      if v.None? || vs.None? then None else Some([v.value] + vs.value)
  }

  function IntInputs(sch: Schema): map<string, bool> { map n | n in sch.namedTypes :: sch.namedTypes[n] == TI }

  function ApplyRows(K: Kernels, funs: Funs, fd: FunDef, traced: Option<Expr>, rows: seq<map<string, PVal>>, t: Table,
                     sch: Schema, fuel: nat): Applied
    requires forall n | n in t.columns :: |t.columns[n]| == t.height
    requires sch.namedTypes.Keys == t.columns.Keys
  {
    var low := Transpile(funs, fd, Some(t.columns.Keys), IntInputs(sch));
    if traced.Some? then (match EvalExpr(K, traced.value, t, sch) case None => Fails case Some(out) => Cells(out))
    else if low.Low? && ColumnsKnown(low.e, t) then
      (match EvalExpr(K, low.e, t, sch) case None => Fails case Some(out) => Cells(out))
    else
      match PythonRows(K, funs, fd, rows, fuel)
      case None => Fails
      case Some(vs) => Values(vs)
  }

  /** Over rows the traced expression has its own value on every row, nulls and all. */
  lemma TracedRows(K: Kernels, funs: Funs, fd: FunDef, e: Expr, rows: seq<map<string, PVal>>, t: Table, sch: Schema, fuel: nat)
    requires Typed(t, sch)
    ensures match ApplyRows(K, funs, fd, Some(e), rows, t, sch, fuel)
            case Fails => TypeOf(e, sch).None? || Reads(e) == {}
            case Values(_) => false
            case Cells(out) =>
              && TypeOf(e, sch).Some? && Reads(e) != {} && |out| == t.height
              && forall i | 0 <= i < |out| :: out[i] == Eval(K, e, Row(map n | n in t.columns :: t.columns[n][i], []))
  {
    EvalExprMeans(K, e, t, sch);
  }

  ghost predicate SameRows(rows: seq<map<string, PVal>>, t: Table) {
    && |rows| == t.height && (forall n | n in t.columns :: |t.columns[n]| == t.height)
    && forall i | 0 <= i < |rows| ::
        rows[i].Keys == t.columns.Keys && forall n | n in t.columns :: Agreement.Cell(rows[i][n], t.columns[n][i])
  }

  lemma {:induction false} PythonRowsAt(K: Kernels, funs: Funs, fd: FunDef, rows: seq<map<string, PVal>>, fuel: nat)
    ensures PythonRows(K, funs, fd, rows, fuel).Some? <==> forall i | 0 <= i < |rows| :: CallRow(K, funs, fd, rows[i], fuel).Some?
    ensures PythonRows(K, funs, fd, rows, fuel).Some? ==>
              && |PythonRows(K, funs, fd, rows, fuel).value| == |rows|
              && forall i | 0 <= i < |rows| ::
                  Some(PythonRows(K, funs, fd, rows, fuel).value[i]) == CallRow(K, funs, fd, rows[i], fuel)
  {
    if rows != [] {
      PythonRowsAt(K, funs, fd, rows[1..], fuel);
      assert forall i | 0 < i < |rows| :: rows[i] == rows[1..][i - 1];
    }
  }

  /** `DataFrame.apply(f, axis=1)`: one result per row in order, each what Python returns on that row, on the engine so
      long as the strings whose case or ends it maps are ones both sides treat alike. */
  lemma ApplyRowsCorrect(K: Kernels, funs: Funs, fd: FunDef, rows: seq<map<string, PVal>>, t: Table, sch: Schema, fuel: nat)
    requires Typed(t, sch) && SameRows(rows, t)
    requires var low := Transpile(funs, fd, Some(t.columns.Keys), IntInputs(sch)); low.Low? ==> low.plain && Exact(low.e, sch)
    ensures var low := Transpile(funs, fd, Some(t.columns.Keys), IntInputs(sch));
            match ApplyRows(K, funs, fd, None, rows, t, sch, fuel)
            case Cells(out) =>
              && low.Low? && |out| == |rows|
              && forall i | 0 <= i < |rows| && CallRow(K, funs, fd, rows[i], fuel).Some? && Alike(K, low.e, RowAt(t, i)) ::
                  Same(CallRow(K, funs, fd, rows[i], fuel).value, out[i])
            case Values(vs) =>
              |vs| == |rows| && forall i | 0 <= i < |rows| :: CallRow(K, funs, fd, rows[i], fuel) == Some(vs[i])
            case Fails => true
  {
    var low := Transpile(funs, fd, Some(t.columns.Keys), IntInputs(sch));
    match ApplyRows(K, funs, fd, None, rows, t, sch, fuel)
    case Cells(out) =>
      EvalExprMeans(K, low.e, t, sch);
      forall i | 0 <= i < |rows| && CallRow(K, funs, fd, rows[i], fuel).Some? && Alike(K, low.e, RowAt(t, i))
        ensures Same(CallRow(K, funs, fd, rows[i], fuel).value, out[i])
      {
        RowFunctionCorrect(K, funs, fd, t.columns.Keys, IntInputs(sch), rows[i], RowAt(t, i), sch, fuel);
      }
    case Values(vs) => PythonRowsAt(K, funs, fd, rows, fuel);
    case Fails =>
  }

  /** When it raises: the lowered expression is one the engine refuses, or reads no column at all, or, on the Python tier,
      some call raises. */
  lemma ApplyRowsFails(K: Kernels, funs: Funs, fd: FunDef, rows: seq<map<string, PVal>>, t: Table, sch: Schema, fuel: nat)
    requires Typed(t, sch) && SameRows(rows, t)
    ensures var low := Transpile(funs, fd, Some(t.columns.Keys), IntInputs(sch));
            ApplyRows(K, funs, fd, None, rows, t, sch, fuel).Fails? <==>
            if low.Low? && ColumnsKnown(low.e, t) then TypeOf(low.e, sch).None? || Reads(low.e) == {}
            else exists i | 0 <= i < |rows| :: CallRow(K, funs, fd, rows[i], fuel).None?
  {
    var low := Transpile(funs, fd, Some(t.columns.Keys), IntInputs(sch));
    if low.Low? && ColumnsKnown(low.e, t) {
      EvalExprMeans(K, low.e, t, sch);
    } else {
      PythonRowsAt(K, funs, fd, rows, fuel);
    }
  }
}
