/** `GroupBy.filter` and `GroupBy.apply` of a traced function: lowered to a group-by, a join on the keys and a sort by
    row number, against the same function run group by group. A column op in the function is run by `Expr.apply` over
    whatever frame the lowering evaluates on. */
module GroupLowering {
  import opened Options
  import opened Exprs
  import opened PostOrder
  import opened GroupBy
  import opened ColumnOps

  // ---- the direct meaning ----------------------------------------------------------------------------------

  /** The value of an expression on one row, its column ops run over the rows and each aggregate leaf read as a value
      the row stands for. A column op's second operand is not rewritten, so a leaf in it has no value. */
  function AtLeaves(O: Ops, K: Kernels, e: Expr, rows: seq<Cells>, leaf: Cells -> Agg -> Val, i: nat): Val
    requires i < |rows|
    decreases e, 0
  {
    match e
    case AggLeaf(a) => leaf(rows[i])(a.(out := None))
    case Un(op, arg) => UnVal(K, op, AtLeaves(O, K, arg, rows, leaf, i))
    case Bin(op, l, r) => BinVal(K, op, AtLeaves(O, K, l, rows, leaf, i), AtLeaves(O, K, r, rows, leaf, i))
    case Select(c, a, b) =>
      SelectVal(AtLeaves(O, K, c, rows, leaf, i), AtLeaves(O, K, a, rows, leaf, i), IsScalar(a),
                AtLeaves(O, K, b, rows, leaf, i), IsScalar(b))
    case ColumnOpNode(arg, spec) =>
      CellAt(OpColumn(O, spec, rows, LeafColumn(O, K, arg, rows, leaf), SecondColumn(O, K, spec, rows)), i)
    case _ => Eval(K, e, Row(rows[i], []))
  }

  function LeafColumn(O: Ops, K: Kernels, e: Expr, rows: seq<Cells>, leaf: Cells -> Agg -> Val): seq<Val>
    decreases e, 1
  { seq(|rows|, i requires 0 <= i < |rows| => AtLeaves(O, K, e, rows, leaf, i)) }

  function SecondColumn(O: Ops, K: Kernels, spec: ColumnOp, rows: seq<Cells>): Option<seq<Val>> {
    if spec.column2.Some? then Some(Column(O, K, spec.column2.value, rows)) else None
  }

  function CellAt(v: seq<Val>, i: nat): Val { if i < |v| then v[i] else Fault }

  /** Without column ops a row's value is its own. */
  function EvalLeaves(K: Kernels, e: Expr, row: Row, leaf: Agg -> Val): Val {
    match e
    case AggLeaf(a) => leaf(a.(out := None))
    case Un(op, arg) => UnVal(K, op, EvalLeaves(K, arg, row, leaf))
    case Bin(op, l, r) => BinVal(K, op, EvalLeaves(K, l, row, leaf), EvalLeaves(K, r, row, leaf))
    case Select(c, a, b) =>
      SelectVal(EvalLeaves(K, c, row, leaf), EvalLeaves(K, a, row, leaf), IsScalar(a), EvalLeaves(K, b, row, leaf), IsScalar(b))
    case _ => Eval(K, e, row)
  }

  lemma {:induction false} RowOwnValue(O: Ops, K: Kernels, e: Expr, rows: seq<Cells>, leaf: Cells -> Agg -> Val, i: nat)
    requires !HasOp(e) && i < |rows|
    ensures AtLeaves(O, K, e, rows, leaf, i) == EvalLeaves(K, e, Row(rows[i], []), leaf(rows[i]))
  {
    match e {
      case Un(_, arg) => RowOwnValue(O, K, arg, rows, leaf, i);
      case Bin(_, l, r) =>
        RowOwnValue(O, K, l, rows, leaf, i);
        RowOwnValue(O, K, r, rows, leaf, i);
      case Select(c, a, b) =>
        RowOwnValue(O, K, c, rows, leaf, i);
        RowOwnValue(O, K, a, rows, leaf, i);
        RowOwnValue(O, K, b, rows, leaf, i);
      case _ =>
    }
  }

  lemma {:induction false} LeavesOnly(K: Kernels, e: Expr, row: Row, row': Row, leaf: Agg -> Val)
    requires Reads(e) == {} && row.inputs == row'.inputs
    ensures EvalLeaves(K, e, row, leaf) == EvalLeaves(K, e, row', leaf)
  {
    match e {
      case Un(_, arg) => LeavesOnly(K, arg, row, row', leaf);
      case Bin(_, l, r) =>
        LeavesOnly(K, l, row, row', leaf);
        LeavesOnly(K, r, row, row', leaf);
      case Select(c, a, b) =>
        LeavesOnly(K, c, row, row', leaf);
        LeavesOnly(K, a, row, row', leaf);
        LeavesOnly(K, b, row, row', leaf);
      case _ =>
    }
  }

  // ---- when it can be evaluated ----------------------------------------------------------------------------

  /** An operand the evaluator takes once the leaves are columns: known columns, and something to read. */
  predicate LeafUsable(e: Expr, columns: set<string>) { Reads(e) <= columns && (Reads(e) != {} || HasOp(e) || HasAggLeaf(e)) }

  ghost predicate NodeTakes(O: Ops, src: Frame, arg: Expr, spec: ColumnOp) {
    if spec.cagg.Some? then NodeRuns(O, src, arg, spec)
    else
      && LeafUsable(arg, src.columns) && (spec.column2.Some? ==> Usable(spec.column2.value, src.columns))
      && (spec.over.Some? ==> spec.kind.Some? && KeySet(Over(spec)) <= src.columns)
  }

  /** Every column op of the expression can run over the frame. */
  ghost predicate LeavesRun(O: Ops, src: Frame, e: Expr)
    decreases e
  {
    match e
    case ColumnOpNode(arg, spec) =>
      LeavesRun(O, src, arg) && (spec.column2.Some? ==> OpsRun(O, src, spec.column2.value)) && NodeTakes(O, src, arg, spec)
    case Un(_, arg) => LeavesRun(O, src, arg)
    case Bin(_, l, r) => LeavesRun(O, src, l) && LeavesRun(O, src, r)
    case Select(c, a, b) => LeavesRun(O, src, c) && LeavesRun(O, src, a) && LeavesRun(O, src, b)
    case _ => true
  }

  ghost predicate Takes(O: Ops, src: Frame, e: Expr) { LeavesRun(O, src, e) && LeafUsable(e, src.columns) }

  lemma {:induction false} NoOpsRun(O: Ops, src: Frame, e: Expr)
    requires !HasOp(e)
    ensures LeavesRun(O, src, e)
  {
    match e {
      case Un(_, arg) => NoOpsRun(O, src, arg);
      case Bin(_, l, r) =>
        NoOpsRun(O, src, l);
        NoOpsRun(O, src, r);
      case Select(c, a, b) =>
        NoOpsRun(O, src, c);
        NoOpsRun(O, src, a);
        NoOpsRun(O, src, b);
      case _ =>
    }
  }

  /** The names a function mentions: columns, second operands, keys of an `over` and what its aggregate reads. */
  function Mentions(e: Expr): set<string>
    decreases e
  {
    match e
    case Col(n) => {n}
    case Un(_, arg) => Mentions(arg)
    case Bin(_, l, r) => Mentions(l) + Mentions(r)
    case Select(c, a, b) => Mentions(c) + Mentions(a) + Mentions(b)
    case ColumnOpNode(arg, spec) =>
      Mentions(arg) + (if spec.column2.Some? then Mentions(spec.column2.value) else {}) + KeySet(Over(spec))
      + if spec.cagg.Some? then AggReads(spec.cagg.value) else {}
    case _ => {}
  }

  /** A function of the caller: it names no column of the library's. */
  ghost predicate Foreign(e: Expr) { forall n | n in Mentions(e) :: !Own(n) }

  lemma ReservedOwn(n: string)
    ensures Reserved(n) ==> Own(n)
  {
    if Reserved(n) { assert n[..7] == n[..11][..7] && (|n| >= 12 ==> n[..7] == n[..12][..7]); }
  }

  lemma AddedNames(i: nat)
    ensures !Reserved(AggName(i)) && !Reserved(ROW) && Own(AggName(i)) && Own(ROW) && AggName(i) != ROW
  {
    AggNamesDiffer(i, i);
    assert AggName(i)[7] == 'a' && ROW[7] == 'r' && ROW[..7] == "__dftu_";
    assert "__dftu_cop_"[7] == 'c' && "__dftu_over_"[7] == 'o';
  }

  /** The names used where an expression is evaluated are all among the frame's. */
  ghost predicate Within(e: Expr, names: set<string>)
    decreases e
  {
    match e
    case Col(n) => n in names
    case Un(_, arg) => Within(arg, names)
    case Bin(_, l, r) => Within(l, names) && Within(r, names)
    case Select(c, a, b) => Within(c, names) && Within(a, names) && Within(b, names)
    case ColumnOpNode(arg, spec) =>
      && KeySet(Over(spec)) <= names
      && (if spec.cagg.Some? then AggReads(spec.cagg.value) <= names
          else Within(arg, names) && (spec.column2.Some? ==> Within(spec.column2.value, names)))
    case _ => true
  }

  lemma {:induction false} PlainWithin(O: Ops, src: Frame, e: Expr)
    requires OpsRun(O, src, e) && Reads(e) <= src.columns
    ensures Within(e, src.columns)
    decreases e
  {
    match e {
      case Un(_, arg) => PlainWithin(O, src, arg);
      case Bin(_, l, r) =>
        PlainWithin(O, src, l);
        PlainWithin(O, src, r);
      case Select(c, a, b) =>
        PlainWithin(O, src, c);
        PlainWithin(O, src, a);
        PlainWithin(O, src, b);
      case ColumnOpNode(arg, spec) =>
        if spec.cagg.None? {
          PlainWithin(O, src, arg);
          if spec.column2.Some? { PlainWithin(O, src, spec.column2.value); }
        }
      case _ =>
    }
  }

  lemma {:induction false} TakesWithin(O: Ops, src: Frame, e: Expr)
    requires LeavesRun(O, src, e) && Reads(e) <= src.columns
    ensures Within(e, src.columns)
    decreases e
  {
    match e {
      case Un(_, arg) => TakesWithin(O, src, arg);
      case Bin(_, l, r) =>
        TakesWithin(O, src, l);
        TakesWithin(O, src, r);
      case Select(c, a, b) =>
        TakesWithin(O, src, c);
        TakesWithin(O, src, a);
        TakesWithin(O, src, b);
      case ColumnOpNode(arg, spec) =>
        if spec.cagg.None? {
          TakesWithin(O, src, arg);
          if spec.column2.Some? { PlainWithin(O, src, spec.column2.value); }
        }
      case _ =>
    }
  }

  // ---- a frame with columns of the library's beside it ------------------------------------------------------

  /** The same rows with columns of the library's added. */
  ghost predicate Beyond(narrow: Frame, wide: Frame) {
    && |narrow.rows| == |wide.rows| && narrow.columns <= wide.columns
    && (forall j | 0 <= j < |wide.rows| :: narrow.rows[j].Keys == narrow.columns && wide.rows[j].Keys == wide.columns)
    && (forall n | n in wide.columns :: n in narrow.columns || Own(n))
    && (forall n | n in narrow.columns :: !Own(n))
    && (forall j, n | 0 <= j < |wide.rows| && n in narrow.columns :: wide.rows[j][n] == narrow.rows[j][n])
  }

  lemma {:induction false} BeyondProjects(narrow: Frame, wide: Frame)
    requires Beyond(narrow, wide)
    ensures ProjectAll(wide.rows, narrow.columns) == narrow.rows
  {
    forall j | 0 <= j < |wide.rows| ensures Project(wide.rows[j], narrow.columns) == narrow.rows[j] {}
  }

  lemma {:induction false} BeyondLabels(narrow: Frame, wide: Frame, keys: seq<string>)
    requires Beyond(narrow, wide) && KeySet(keys) <= narrow.columns
    ensures Labels(wide.rows, keys) == Labels(narrow.rows, keys)
    ensures forall j | 0 <= j < |wide.rows| :: Label(wide.rows[j], keys) == Label(narrow.rows[j], keys)
  {
    forall j | 0 <= j < |wide.rows| ensures Label(wide.rows[j], keys) == Label(narrow.rows[j], keys) {
      assert forall k | 0 <= k < |keys| :: keys[k] in KeySet(keys);
    }
  }

  lemma {:induction false} BeyondAgg(O: Ops, narrow: Frame, wide: Frame, keys: seq<string>, a: Agg)
    requires HonestOps(O) && Beyond(narrow, wide) && KeySet(keys) <= narrow.columns && AggReads(a) <= narrow.columns
    ensures AggOf(O.E, a, wide.rows) == AggOf(O.E, a, narrow.rows)
    ensures AggColumn(O.E, wide.rows, keys, a) == AggColumn(O.E, narrow.rows, keys, a)
  {
    hide HonestOps, Beyond, Label, Members;
    BeyondProjects(narrow, wide);
    BeyondLabels(narrow, wide, keys);
    SameHeights(narrow, wide);
    AllMembers(wide.rows);
    AllMembers(narrow.rows);
    AggLocal(O, a, wide.rows, narrow.rows, [], [], narrow.columns);
    forall j | 0 <= j < |wide.rows|
      ensures AggOf(O.E, a, Members(wide.rows, keys, Label(wide.rows[j], keys))) ==
              AggOf(O.E, a, Members(narrow.rows, keys, Label(narrow.rows[j], keys)))
    {
      AggLocal(O, a, wide.rows, narrow.rows, keys, Label(wide.rows[j], keys), narrow.columns);
    }
  }

  lemma {:induction false} SameHeights(narrow: Frame, wide: Frame)
    requires Beyond(narrow, wide)
    ensures |narrow.rows| == |wide.rows| && narrow.columns <= wide.columns
  {
  }

  /** An expression over known columns is the same column on both. */
  lemma {:induction false} BeyondColumn(O: Ops, K: Kernels, e: Expr, narrow: Frame, wide: Frame)
    requires HonestOps(O) && Beyond(narrow, wide) && Within(e, narrow.columns)
    ensures Column(O, K, e, wide.rows) == Column(O, K, e, narrow.rows)
    decreases e, 1
  {
    hide HonestOps, At, Within;
    SameHeights(narrow, wide);
    forall j: nat | j < |wide.rows| ensures At(O, K, e, wide.rows, j) == At(O, K, e, narrow.rows, j) {
      BeyondValue(O, K, e, narrow, wide, j);
    }
  }

  lemma {:induction false} BeyondValue(O: Ops, K: Kernels, e: Expr, narrow: Frame, wide: Frame, i: nat)
    requires HonestOps(O) && Beyond(narrow, wide) && Within(e, narrow.columns) && i < |wide.rows|
    ensures |narrow.rows| == |wide.rows| && At(O, K, e, wide.rows, i) == At(O, K, e, narrow.rows, i)
    decreases e, 0
  {
    hide HonestOps, AggColumn, RunOp, AggReads, Labels, Label, Column;
    match e {
      case Un(_, arg) => BeyondValue(O, K, arg, narrow, wide, i);
      case Bin(_, l, r) =>
        BeyondValue(O, K, l, narrow, wide, i);
        BeyondValue(O, K, r, narrow, wide, i);
      case Select(c, a, b) =>
        BeyondValue(O, K, c, narrow, wide, i);
        BeyondValue(O, K, a, narrow, wide, i);
        BeyondValue(O, K, b, narrow, wide, i);
      case ColumnOpNode(arg, spec) =>
        if spec.cagg.Some? {
          BeyondAgg(O, narrow, wide, Over(spec), spec.cagg.value);
        } else {
          BeyondLabels(narrow, wide, Over(spec));
          BeyondColumn(O, K, arg, narrow, wide);
          if spec.column2.Some? { BeyondColumn(O, K, spec.column2.value, narrow, wide); }
        }
      case _ =>
    }
  }

  /** Every row carries the aggregates' columns, under their names. */
  ghost predicate Supplied(narrow: Frame, wide: Frame, aggs: seq<Agg>, leaf: Cells -> Agg -> Val) {
    |narrow.rows| == |wide.rows| &&
    forall j, m | 0 <= j < |wide.rows| && 0 <= m < |aggs| ::
      AggName(m) in wide.rows[j] && wide.rows[j][AggName(m)] == leaf(narrow.rows[j])(aggs[m].(out := None))
  }

  /** Over rows that carry the aggregates' columns, the rewritten expression means the original one on every row, its
      column ops run over those rows. */
  lemma {:induction false} SplitMeans(O: Ops, K: Kernels, e: Expr, aggs: seq<Agg>, all: seq<Agg>, narrow: Frame, wide: Frame,
                                      leaf: Cells -> Agg -> Val, i: nat)
    requires HonestOps(O) && Beyond(narrow, wide) && Within(e, narrow.columns) && Supplied(narrow, wide, all, leaf)
    requires Rewrite(e, aggs).aggs <= all && i < |wide.rows|
    ensures At(O, K, Rewrite(e, aggs).e, wide.rows, i) == AtLeaves(O, K, e, narrow.rows, leaf, i)
    ensures IsScalar(Rewrite(e, aggs).e) == IsScalar(e)
    decreases e, 0
  {
    hide HonestOps, AggColumn, RunOp, AggReads, Labels, Label, AggName, Column, LeafColumn;
    match e {
      case AggLeaf(a) => assert all[|aggs|] == a.(out := Some(AggName(|aggs|)));
      case Un(_, arg) => SplitMeans(O, K, arg, aggs, all, narrow, wide, leaf, i);
      case Bin(_, l, r) =>
        SplitMeans(O, K, l, aggs, all, narrow, wide, leaf, i);
        SplitMeans(O, K, r, Rewrite(l, aggs).aggs, all, narrow, wide, leaf, i);
      case Select(c, a, b) =>
        SplitMeans(O, K, c, aggs, all, narrow, wide, leaf, i);
        SplitMeans(O, K, a, Rewrite(c, aggs).aggs, all, narrow, wide, leaf, i);
        SplitMeans(O, K, b, Rewrite(a, Rewrite(c, aggs).aggs).aggs, all, narrow, wide, leaf, i);
      case ColumnOpNode(arg, spec) =>
        if spec.cagg.Some? {
          BeyondAgg(O, narrow, wide, Over(spec), spec.cagg.value);
        } else {
          BeyondLabels(narrow, wide, Over(spec));
          SplitColumn(O, K, arg, aggs, all, narrow, wide, leaf);
          if spec.column2.Some? { BeyondColumn(O, K, spec.column2.value, narrow, wide); }
        }
      case _ =>
    }
  }

  lemma {:induction false} SplitColumn(O: Ops, K: Kernels, e: Expr, aggs: seq<Agg>, all: seq<Agg>, narrow: Frame, wide: Frame,
                                       leaf: Cells -> Agg -> Val)
    requires HonestOps(O) && Beyond(narrow, wide) && Within(e, narrow.columns) && Supplied(narrow, wide, all, leaf)
    requires Rewrite(e, aggs).aggs <= all
    ensures Column(O, K, Rewrite(e, aggs).e, wide.rows) == LeafColumn(O, K, e, narrow.rows, leaf)
    decreases e, 1
  {
    hide HonestOps, At, AtLeaves, Within, Supplied;
    SameHeights(narrow, wide);
    forall j: nat | j < |wide.rows| ensures At(O, K, Rewrite(e, aggs).e, wide.rows, j) == AtLeaves(O, K, e, narrow.rows, leaf, j) {
      SplitMeans(O, K, e, aggs, all, narrow, wide, leaf, j);
    }
  }

  lemma {:induction false} BeyondKeyed(narrow: Frame, wide: Frame, keys: seq<string>)
    requires Beyond(narrow, wide) && KeySet(keys) <= narrow.columns
    ensures AllKeyed(wide.rows, keys) <==> AllKeyed(narrow.rows, keys)
  {
    hide Label, NonNull;
    BeyondLabels(narrow, wide, keys);
    forall j | 0 <= j < |wide.rows| ensures NonNull(Label(wide.rows[j], keys)) == NonNull(Label(narrow.rows[j], keys)) {}
  }

  lemma {:induction false} BeyondNames(narrow: Frame, wide: Frame, names: set<string>)
    requires Beyond(narrow, wide) && forall n | n in names :: !Own(n)
    ensures names <= wide.columns <==> names <= narrow.columns
  {
    if names <= wide.columns { forall n | n in names ensures n in narrow.columns { assert n in wide.columns; } }
  }

  /** What an aggregate's `over` needs, on both frames alike. */
  lemma {:induction false} BeyondAggRuns(O: Ops, narrow: Frame, wide: Frame, arg: Expr, arg': Expr, spec: ColumnOp)
    requires HonestOps(O) && Beyond(narrow, wide) && spec.cagg.Some?
    requires forall n | n in KeySet(Over(spec)) + AggReads(spec.cagg.value) :: !Own(n)
    ensures NodeRuns(O, wide, arg', spec) <==> NodeRuns(O, narrow, arg, spec)
  {
    hide HonestOps, Beyond, AllKeyed, AggOf, AggReads;
    BeyondNames(narrow, wide, KeySet(Over(spec)));
    BeyondNames(narrow, wide, AggReads(spec.cagg.value));
    if KeySet(Over(spec)) <= narrow.columns && AggReads(spec.cagg.value) <= narrow.columns {
      BeyondAgg(O, narrow, wide, Over(spec), spec.cagg.value);
      BeyondKeyed(narrow, wide, Over(spec));
    }
  }

  lemma {:induction false} ReadsMentioned(e: Expr)
    ensures Reads(e) <= Mentions(e)
  {
    match e {
      case Un(_, arg) => ReadsMentioned(arg);
      case Bin(_, l, r) =>
        ReadsMentioned(l);
        ReadsMentioned(r);
      case Select(c, a, b) =>
        ReadsMentioned(c);
        ReadsMentioned(a);
        ReadsMentioned(b);
      case _ =>
    }
  }

  lemma {:induction false} BeyondRuns(O: Ops, narrow: Frame, wide: Frame, e: Expr)
    requires HonestOps(O) && Beyond(narrow, wide) && Foreign(e)
    ensures OpsRun(O, wide, e) <==> OpsRun(O, narrow, e)
    ensures Usable(e, wide.columns) <==> Usable(e, narrow.columns)
    decreases e
  {
    hide HonestOps, Beyond, AllKeyed, AggOf, AggReads, Own;
    ReadsMentioned(e);
    BeyondNames(narrow, wide, Reads(e));
    match e {
      case Un(_, arg) => BeyondRuns(O, narrow, wide, arg);
      case Bin(_, l, r) =>
        BeyondRuns(O, narrow, wide, l);
        BeyondRuns(O, narrow, wide, r);
      case Select(c, a, b) =>
        BeyondRuns(O, narrow, wide, c);
        BeyondRuns(O, narrow, wide, a);
        BeyondRuns(O, narrow, wide, b);
      case ColumnOpNode(arg, spec) =>
        BeyondRuns(O, narrow, wide, arg);
        if spec.column2.Some? { BeyondRuns(O, narrow, wide, spec.column2.value); }
        BeyondNames(narrow, wide, KeySet(Over(spec)));
        if spec.cagg.Some? { BeyondAggRuns(O, narrow, wide, arg, arg, spec); }
      case _ =>
    }
  }

  /** The rewritten expression can be evaluated over the wide frame exactly when the original one can over the narrow
      one, given the leaves. */
  lemma {:induction false} SplitTakes(O: Ops, e: Expr, aggs: seq<Agg>, narrow: Frame, wide: Frame)
    requires HonestOps(O) && Beyond(narrow, wide) && Foreign(e)
    requires forall m | 0 <= m < |Rewrite(e, aggs).aggs| :: AggName(m) in wide.columns
    ensures OpsRun(O, wide, Rewrite(e, aggs).e) <==> LeavesRun(O, narrow, e)
    ensures Reads(Rewrite(e, aggs).e) <= wide.columns <==> Reads(e) <= narrow.columns
    ensures Reads(Rewrite(e, aggs).e) != {} || HasOp(Rewrite(e, aggs).e) <==> Reads(e) != {} || HasOp(e) || HasAggLeaf(e)
    decreases e
  {
    hide HonestOps, Beyond, AllKeyed, AggOf, AggReads, Own, AggName;
    ReadsMentioned(e);
    BeyondNames(narrow, wide, Reads(e));
    match e {
      case Un(_, arg) => SplitTakes(O, arg, aggs, narrow, wide);
      case Bin(_, l, r) =>
        var x := Rewrite(l, aggs);
        SplitTakes(O, l, aggs, narrow, wide);
        SplitTakes(O, r, x.aggs, narrow, wide);
      case Select(c, a, b) =>
        var x := Rewrite(c, aggs);
        var y := Rewrite(a, x.aggs);
        SplitTakes(O, c, aggs, narrow, wide);
        SplitTakes(O, a, x.aggs, narrow, wide);
        SplitTakes(O, b, y.aggs, narrow, wide);
      case ColumnOpNode(arg, spec) =>
        SplitTakes(O, arg, aggs, narrow, wide);
        if spec.column2.Some? { BeyondRuns(O, narrow, wide, spec.column2.value); }
        BeyondNames(narrow, wide, KeySet(Over(spec)));
        if spec.cagg.Some? { BeyondAggRuns(O, narrow, wide, arg, Rewrite(arg, aggs).e, spec); }
      case AggLeaf(a) => assert Rewrite(e, aggs).aggs[|aggs|] == a.(out := Some(AggName(|aggs|)));
      case _ =>
    }
  }

  /** The rewritten expression names the caller's columns and the aggregates' alone. */
  lemma {:induction false} SplitMentions(e: Expr, aggs: seq<Agg>)
    ensures forall n | n in ColumnOps.Names(Rewrite(e, aggs).e) :: n in Mentions(e) || exists i: nat :: n == AggName(i)
    ensures Foreign(e) ==> OverNames(Rewrite(e, aggs).e)
    decreases e
  {
    hide AggReads, Own, AggName, Reserved;
    forall n: string ensures Reserved(n) ==> Own(n) { ReservedOwn(n); }
    match e {
      case Un(_, arg) => SplitMentions(arg, aggs);
      case Bin(_, l, r) =>
        SplitMentions(l, aggs);
        SplitMentions(r, Rewrite(l, aggs).aggs);
      case Select(c, a, b) =>
        var x := Rewrite(c, aggs);
        SplitMentions(c, aggs);
        SplitMentions(a, x.aggs);
        SplitMentions(b, Rewrite(a, x.aggs).aggs);
      case ColumnOpNode(arg, spec) =>
        SplitMentions(arg, aggs);
        if spec.column2.Some? { NamesMentioned(spec.column2.value); }
        assert forall k | 0 <= k < |Over(spec)| :: Over(spec)[k] in KeySet(Over(spec));
      case _ =>
    }
  }

  lemma {:induction false} NamesMentioned(e: Expr)
    ensures ColumnOps.Names(e) <= Mentions(e)
    ensures Foreign(e) ==> OverNames(e)
    decreases e
  {
    hide AggReads, Own, Reserved;
    forall n: string ensures Reserved(n) ==> Own(n) { ReservedOwn(n); }
    match e {
      case Un(_, arg) => NamesMentioned(arg);
      case Bin(_, l, r) =>
        NamesMentioned(l);
        NamesMentioned(r);
      case Select(c, a, b) =>
        NamesMentioned(c);
        NamesMentioned(a);
        NamesMentioned(b);
      case ColumnOpNode(arg, spec) =>
        NamesMentioned(arg);
        if spec.column2.Some? { NamesMentioned(spec.column2.value); }
        assert forall k | 0 <= k < |Over(spec)| :: Over(spec)[k] in KeySet(Over(spec));
      case _ =>
    }
  }

  /** The frame the lowering evaluates on has no column of `Expr.apply`'s own, and the expression names none. */
  lemma {:induction false} WideIsPlain(narrow: Frame, wide: Frame, e: Expr)
    requires Beyond(narrow, wide) && Foreign(e)
    requires forall n | n in wide.columns && n !in narrow.columns :: n == ROW || exists i: nat :: n == AggName(i)
    ensures Plain(wide) && Callers(Rewrite(e, []).e)
  {
    hide AggName, Reserved, Own;
    SplitMentions(e, []);
    forall n: string ensures Reserved(n) ==> Own(n) { ReservedOwn(n); }
    forall i: nat ensures !Reserved(AggName(i)) { AddedNames(i); }
    AddedNames(0);
  }

  /** `rewritten.apply` over the wide frame is the original expression on every row, the leaves read as the rows' own. */
  lemma {:induction false} SplitApplied(O: Ops, K: Kernels, e: Expr, narrow: Frame, wide: Frame, leaf: Cells -> Agg -> Val)
    requires HonestOps(O) && Beyond(narrow, wide) && Foreign(e) && Supplied(narrow, wide, Rewrite(e, []).aggs, leaf)
    requires forall n | n in wide.columns && n !in narrow.columns :: n == ROW || exists i: nat :: n == AggName(i)
    requires forall m | 0 <= m < |Rewrite(e, []).aggs| :: AggName(m) in wide.columns
    ensures ExprApply(O, K, Rewrite(e, []).e, wide) ==
            if Takes(O, narrow, e) then
              Some(LeafColumn(O, K, e, narrow.rows, leaf))
            else None
  {
    hide HonestOps, Plain, Callers, OpsRun, LeavesRun, Column, LeafColumn, ExprApply, AggName, Own, Supplied, Rewrite;
    var s := Rewrite(e, []);
    WideIsPlain(narrow, wide, e);
    ExprApplyMeans(O, K, s.e, wide);
    SplitTakes(O, e, [], narrow, wide);
    SameHeights(narrow, wide);
    if Takes(O, narrow, e) {
      TakesWithin(O, narrow, e);
      SplitColumn(O, K, e, [], s.aggs, narrow, wide, leaf);
    }
  }

  // ---- the frames it evaluates on ------------------------------------------------------------------------------

  /** A frame as a group function meets it: rectangular, and no column named like the library's own. */
  ghost predicate Proper(f: Frame, keys: seq<string>) {
    && (forall i | 0 <= i < |f.rows| :: f.rows[i].Keys == f.columns)
    && KeySet(keys) <= f.columns && forall n | n in f.columns :: !Own(n)
  }

  /** The names the aggregates go under. */
  lemma {:induction false} SplitNames(e: Expr, keys: seq<string>)
    requires forall n | n in keys :: !Own(n)
    ensures GroupBy.Names(keys, Rewrite(e, []).aggs)
    ensures forall i | 0 <= i < |Rewrite(e, []).aggs| :: Rewrite(e, []).aggs[i].out == Some(AggName(i))
    ensures forall n | n in Outs(Rewrite(e, []).aggs) :: Own(n) && n != ROW && exists i: nat :: n == AggName(i)
    ensures forall i | 0 <= i < |Rewrite(e, []).aggs| :: AggName(i) in Outs(Rewrite(e, []).aggs)
  {
    hide AggName, Own;
    var aggs := Rewrite(e, []).aggs;
    AggsNamed(e, []);
    forall i: nat, j: nat ensures (AggName(i) == AggName(j) ==> i == j) && Own(AggName(i)) && AggName(i) != ROW {
      AggNamesDiffer(i, j);
    }
    forall n | n in Outs(aggs) ensures Own(n) && n != ROW && exists i: nat :: n == AggName(i) {
      var a :| a in aggs && a.out.Some? && a.out.value == n;
      var i :| 0 <= i < |aggs| && aggs[i] == a;
    }
    forall i | 0 <= i < |aggs| ensures AggName(i) in Outs(aggs) { assert aggs[i] in aggs; }
  }

  lemma {:induction false} KeysForeign(f: Frame, keys: seq<string>)
    requires Proper(f, keys)
    ensures forall n | n in keys :: !Own(n)
    ensures ROW !in keys && ROW !in f.columns
  {
    forall n | n in keys ensures !Own(n) { assert n in KeySet(keys); }
    assert ROW[..7] == "__dftu_";
  }

  /** The aggregates of a row's group. */
  function RowLeaf(E: Engine, rows: seq<Cells>, keys: seq<string>): Cells -> Agg -> Val {
    (r: Cells) => GroupLeaf(E, rows, keys, Label(r, keys))
  }

  function GroupFrame(E: Engine, f: Frame, keys: seq<string>, aggs: seq<Agg>): Frame {
    Frame(KeySet(keys) + Outs(aggs), E.groupBy(f.rows, keys, aggs))
  }

  /** The labels of the groups, as rows. */
  function LabelFrame(E: Engine, f: Frame, keys: seq<string>, aggs: seq<Agg>): Frame {
    Frame(KeySet(keys), ProjectAll(E.groupBy(f.rows, keys, aggs), KeySet(keys)))
  }

  lemma {:induction false} EngineGroups(E: Engine, f: Frame, keys: seq<string>, e: Expr)
    requires Honest(E) && Proper(f, keys)
    ensures Grouped(E, f.rows, keys, Rewrite(e, []).aggs, E.groupBy(f.rows, keys, Rewrite(e, []).aggs))
    ensures ROW !in keys && ROW !in f.columns && ROW !in Outs(Rewrite(e, []).aggs)
  {
    hide Rewrite, Grouped, Own;
    KeysForeign(f, keys);
    SplitNames(e, keys);
  }

  lemma {:induction false} ProjectLabels(rows: seq<Cells>, keys: seq<string>)
    ensures forall i | 0 <= i < |rows| :: Label(ProjectAll(rows, KeySet(keys))[i], keys) == Label(rows[i], keys)
    ensures DistinctLabels(rows, keys) ==> DistinctLabels(ProjectAll(rows, KeySet(keys)), keys)
  {
    forall i | 0 <= i < |rows| ensures Label(ProjectAll(rows, KeySet(keys))[i], keys) == Label(rows[i], keys) {
      assert forall k | 0 <= k < |keys| :: keys[k] in KeySet(keys);
    }
  }

  /** The per-group frame is the labels with the groups' aggregates beside them. */
  lemma {:induction false} GroupFrameIs(E: Engine, f: Frame, keys: seq<string>, e: Expr)
    requires Honest(E) && Proper(f, keys)
    ensures var aggs := Rewrite(e, []).aggs;
            && Beyond(LabelFrame(E, f, keys, aggs), GroupFrame(E, f, keys, aggs))
            && Supplied(LabelFrame(E, f, keys, aggs), GroupFrame(E, f, keys, aggs), aggs, RowLeaf(E, f.rows, keys))
  {
    hide Rewrite, Own, Members, Label, Honest;
    var aggs := Rewrite(e, []).aggs;
    EngineGroups(E, f, keys, e);
    KeysForeign(f, keys);
    SplitNames(e, keys);
    ProjectLabels(E.groupBy(f.rows, keys, aggs), keys);
    var narrow, wide := LabelFrame(E, f, keys, aggs), GroupFrame(E, f, keys, aggs);
    forall j, m | 0 <= j < |wide.rows| && 0 <= m < |aggs|
      ensures AggName(m) in wide.rows[j]
      ensures wide.rows[j][AggName(m)] == RowLeaf(E, f.rows, keys)(narrow.rows[j])(aggs[m].(out := None))
    {
      assert Aggregated(E, f.rows, keys, aggs, wide.rows[j]);
    }
  }

  /** `rewritten.apply` over the per-group frame. */
  lemma {:induction false} GroupFrameMeans(O: Ops, K: Kernels, f: Frame, keys: seq<string>, e: Expr)
    requires HonestOps(O) && Proper(f, keys) && Foreign(e)
    ensures var aggs := Rewrite(e, []).aggs;
            ExprApply(O, K, Rewrite(e, []).e, GroupFrame(O.E, f, keys, aggs)) ==
            if Takes(O, LabelFrame(O.E, f, keys, aggs), e) then
              Some(LeafColumn(O, K, e, LabelFrame(O.E, f, keys, aggs).rows, RowLeaf(O.E, f.rows, keys)))
            else None
  {
    hide HonestOps, Rewrite, Own, Beyond, Supplied, Takes, LeafColumn, ExprApply, Foreign, Honest, AggName;
    var aggs := Rewrite(e, []).aggs;
    HonestEngine(O);
    KeysForeign(f, keys);
    SplitNames(e, keys);
    GroupFrameIs(O.E, f, keys, e);
    SplitApplied(O, K, e, LabelFrame(O.E, f, keys, aggs), GroupFrame(O.E, f, keys, aggs), RowLeaf(O.E, f.rows, keys));
  }

  // ---- `GroupBy.filter` ---------------------------------------------------------------------------------------

  /** What running the group function once on a symbolic group gave: an aggregate, or an expression. */
  datatype Traced = Aggregate(a: Agg) | Expression(e: Expr)

  /** The condition of a filter; a bare aggregate is kept where it is not zero. */
  function Condition(traced: Traced): Expr {
    if traced.Aggregate? then Un(Cmp(Ne, CI(0)), AggLeaf(traced.a)) else traced.e
  }

  predicate IsTrue(v: Val) { v == VB(true) }

  function MaskAt(mask: seq<Val>): nat -> bool { (i: nat) => i < |mask| && IsTrue(mask[i]) }

  /** The function reads a column of the frame beside its aggregates, inside a column op or outside. */
  predicate Touches(cs: seq<string>, columns: set<string>) { exists k | 0 <= k < |cs| :: cs[k] in columns }

  /** The two branches: whether a name the expression collects is a column of the frame. */
  lemma TouchesMeans(e: Expr, columns: set<string>)
    requires NoIRegex(e)
    ensures Collect(e, []).Some?
    ensures Touches(Collect(e, []).value, columns) <==> Collected(e) * columns != {}
  {
    CollectGathers(e);
    var cs := Collect(e, []).value;
    if Touches(cs, columns) {
      var k :| 0 <= k < |cs| && cs[k] in columns;
      assert cs[k] in Collected(e) * columns;
    }
    if n :| n in Collected(e) * columns {
      var k :| 0 <= k < |cs| && cs[k] == n;
      assert cs[k] in columns;
    }
  }

  /** The traced condition lowered: aggregate, mask, join on the keys, sort by row number; nothing where the source
      raises. */
  function LowerFilter(O: Ops, K: Kernels, f: Frame, keys: seq<string>, traced: Traced): Option<seq<Cells>> {
    var cond := Condition(traced);
    if !HasAggLeaf(cond) then None
    else
      match Collect(cond, [])
      case None => None
      case Some(cs) =>
        if Touches(cs, f.columns) then None
        else
          var s := Rewrite(cond, []);
          var groups := GroupFrame(O.E, f, keys, s.aggs);
          match ExprApply(O, K, s.e, groups)
          case None => None
          case Some(mask) =>
            var keep := RowsWhere(|groups.rows|, MaskAt(mask), RowAt(groups.rows));
            if keys == [] then Some(if keep != [] then f.rows else [])
            else
              var right := ProjectAll(keep, KeySet(keys));
              Some(ProjectAll(O.E.sortBy(O.E.join(Indexed(ROW, f.rows), right, keys), ROW), f.columns))
  }

  /** The conditions the lowered filter takes: over aggregates, and reading no column of the frame. */
  ghost predicate FilterTakes(O: Ops, f: Frame, keys: seq<string>, cond: Expr) {
    && HasAggLeaf(cond) && Collect(cond, []).Some? && !Touches(Collect(cond, []).value, f.columns)
    && Takes(O, LabelFrame(O.E, f, keys, Rewrite(cond, []).aggs), cond)
  }

  /** Some group of the label is kept by the mask. */
  predicate LabelKept(groups: seq<Cells>, keys: seq<string>, p: nat -> bool, at: seq<Val>) {
    exists j | 0 <= j < |groups| :: p(j) && Label(groups[j], keys) == at
  }

  function KeptTest(rows: seq<Cells>, keys: seq<string>, groups: seq<Cells>, p: nat -> bool): nat -> bool {
    (i: nat) => i < |rows| && NonNull(Label(rows[i], keys)) && LabelKept(groups, keys, p, Label(rows[i], keys))
  }

  lemma {:induction false} KeptAre(groups: seq<Cells>, p: nat -> bool, keys: seq<string>, n: nat)
    requires n <= |groups|
    ensures var kept := RowsWhere(n, p, RowAt(groups));
            && (forall k | 0 <= k < |kept| :: exists j | 0 <= j < n :: p(j) && kept[k] == groups[j])
            && (forall j | 0 <= j < n && p(j) :: groups[j] in kept)
            && (DistinctLabels(groups, keys) ==> DistinctLabels(kept, keys))
  {
    hide Label, NonNull;
    if n > 0 { KeptAre(groups, p, keys, n - 1); }
  }

  /** Joining only key columns back adds nothing to a row. */
  lemma {:induction false} KeysAdd(l: Cells, r: Cells, keys: seq<string>)
    requires Matches(l, Project(r, KeySet(keys)), keys) && KeySet(keys) <= l.Keys && KeySet(keys) <= r.Keys
    ensures l + Project(r, KeySet(keys)) == l
  {
    var m := Project(r, KeySet(keys));
    forall n | n in m ensures n in l && m[n] == l[n] {
      var k :| 0 <= k < |keys| && keys[k] == n;
      assert Label(l, keys)[k] == Label(m, keys)[k] && !Label(l, keys)[k].VNull?;
    }
  }

  /** Which group rows a numbered row meets after the mask: its own, once, when its keys are not null and its group is
      kept. */
  lemma {:induction false} MeetsKept(rows: seq<Cells>, keys: seq<string>, groups: seq<Cells>, p: nat -> bool, i: nat)
    requires i < |rows| && ROW !in keys && KeySet(keys) <= rows[i].Keys && DistinctLabels(groups, keys)
    requires forall j | 0 <= j < |groups| :: KeySet(keys) <= groups[j].Keys
    ensures var l := Indexed(ROW, rows)[i];
            PairsOf(l, ProjectAll(RowsWhere(|groups|, p, RowAt(groups)), KeySet(keys)), keys) ==
            if KeptTest(rows, keys, groups, p)(i) then [l] else []
  {
    hide PairsOf, Label, NonNull, RowsWhere;
    var l := Indexed(ROW, rows)[i];
    var keep := RowsWhere(|groups|, p, RowAt(groups));
    var right := ProjectAll(keep, KeySet(keys));
    IndexedLabel(ROW, rows[i], keys, i);
    KeptAre(groups, p, keys, |groups|);
    ProjectLabels(keep, keys);
    if KeptTest(rows, keys, groups, p)(i) {
      var j :| 0 <= j < |groups| && p(j) && Label(groups[j], keys) == Label(rows[i], keys);
      var k :| 0 <= k < |keep| && keep[k] == groups[j];
      assert Matches(l, right[k], keys);
      OneMatch(l, right, keys, k);
      KeysAdd(l, groups[j], keys);
    } else {
      forall k | 0 <= k < |right| ensures !Matches(l, right[k], keys) {
        var j :| 0 <= j < |groups| && p(j) && keep[k] == groups[j];
      }
      NoMatch(l, right, keys);
    }
  }

  lemma {:induction false} ProjectWhere(rows: seq<Cells>, names: set<string>, n: nat, p: nat -> bool)
    requires n <= |rows| && ROW !in names && forall i | 0 <= i < |rows| :: rows[i].Keys == names
    ensures ProjectAll(RowsWhere(n, p, RowAt(Indexed(ROW, rows))), names) == RowsWhere(n, p, RowAt(rows))
  {
    if n > 0 {
      ProjectWhere(rows, names, n - 1, p);
      assert Project(Indexed(ROW, rows)[n - 1], names) == rows[n - 1];
      var a := RowsWhere(n - 1, p, RowAt(Indexed(ROW, rows)));
      assert ProjectAll(a + [Indexed(ROW, rows)[n - 1]], names) == ProjectAll(a, names) + [Project(Indexed(ROW, rows)[n - 1], names)];
    }
  }

  lemma {:induction false} WhereAll(rows: seq<Cells>, n: nat, p: nat -> bool, all: bool)
    requires n <= |rows| && forall i | 0 <= i < n :: p(i) == all
    ensures RowsWhere(n, p, RowAt(rows)) == if all then rows[..n] else []
  {
    if n > 0 {
      WhereAll(rows, n - 1, p, all);
      assert rows[..n] == rows[..n - 1] + [rows[n - 1]];
    }
  }

  lemma {:induction false} WhereSame(n: nat, p: nat -> bool, q: nat -> bool, row: nat -> Cells)
    requires forall i | 0 <= i < n :: p(i) == q(i)
    ensures RowsWhere(n, p, row) == RowsWhere(n, q, row)
  {
    if n > 0 { WhereSame(n - 1, p, q, row); }
  }

  /** Without keys there is one group, the frame. */
  lemma {:induction false} OneGroup(E: Engine, rows: seq<Cells>, aggs: seq<Agg>, groups: seq<Cells>, p: nat -> bool)
    requires Grouped(E, rows, [], aggs, groups)
    ensures forall i | 0 <= i < |rows| :: KeptTest(rows, [], groups, p)(i) == (RowsWhere(|groups|, p, RowAt(groups)) != [])
  {
    KeptAre(groups, p, [], |groups|);
    forall i | 0 <= i < |rows| ensures Label(rows[i], []) == Label(groups[0], []) {}
    forall i | 0 <= i < |rows| ensures KeptTest(rows, [], groups, p)(i) == p(0) {
      if p(0) { assert Label(groups[0], []) == Label(rows[i], []); }
    }
    assert RowsWhere(1, p, RowAt(groups)) == RowsWhere(0, p, RowAt(groups)) + if p(0) then [groups[0]] else [];
  }

  /** Mask, join and sort: the rows, in input order and each once, whose keys are not null and whose group is kept. */
  lemma {:induction false} KeptJoined(E: Engine, f: Frame, keys: seq<string>, aggs: seq<Agg>, groups: seq<Cells>, p: nat -> bool)
    requires Honest(E) && Proper(f, keys) && keys != [] && Grouped(E, f.rows, keys, aggs, groups)
    ensures var right := ProjectAll(RowsWhere(|groups|, p, RowAt(groups)), KeySet(keys));
            ProjectAll(E.sortBy(E.join(Indexed(ROW, f.rows), right, keys), ROW), f.columns) ==
            RowsWhere(|f.rows|, KeptTest(f.rows, keys, groups, p), RowAt(f.rows))
  {
    hide RowsWhere, PairsOf, Honest, Label, Own;
    var right := ProjectAll(RowsWhere(|groups|, p, RowAt(groups)), KeySet(keys));
    var q := KeptTest(f.rows, keys, groups, p);
    KeysForeign(f, keys);
    assert DistinctLabels(groups, keys);
    forall i | 0 <= i < |f.rows|
      ensures PairsOf(Indexed(ROW, f.rows)[i], right, keys) == if q(i) then [RowAt(Indexed(ROW, f.rows))(i)] else []
    {
      MeetsKept(f.rows, keys, groups, p, i);
    }
    JoinSorted(E, ROW, Indexed(ROW, f.rows), right, keys, q, RowAt(Indexed(ROW, f.rows)));
    ProjectWhere(f.rows, f.columns, |f.rows|, q);
  }

  /** The lowered filter of any condition: refused exactly where it takes none, else the rows, in input order and each
      once, whose keys are not null and whose group's row in the per-group frame satisfies it. */
  lemma {:induction false} FilterMasks(O: Ops, K: Kernels, f: Frame, keys: seq<string>, traced: Traced)
    requires HonestOps(O) && Proper(f, keys) && Foreign(Condition(traced))
    ensures var cond := Condition(traced);
            var labels := LabelFrame(O.E, f, keys, Rewrite(cond, []).aggs).rows;
            LowerFilter(O, K, f, keys, traced) ==
            if !FilterTakes(O, f, keys, cond) then None
            else Some(RowsWhere(|f.rows|, KeptTest(f.rows, keys, labels, MaskAt(LeafColumn(O, K, cond, labels, RowLeaf(O.E, f.rows, keys)))),
                                RowAt(f.rows)))
  {
    hide HonestOps, Rewrite, Grouped, RowsWhere, LeafColumn, Takes, Collect;
    hide Proper, Touches, KeptTest, Foreign, Honest, ExprApply;
    var cond := Condition(traced);
    var s := Rewrite(cond, []);
    HonestEngine(O);
    EngineGroups(O.E, f, keys, cond);
    GroupFrameMeans(O, K, f, keys, cond);
    var groups := GroupFrame(O.E, f, keys, s.aggs).rows;
    var labels := LabelFrame(O.E, f, keys, s.aggs).rows;
    if FilterTakes(O, f, keys, cond) {
      var p := MaskAt(LeafColumn(O, K, cond, labels, RowLeaf(O.E, f.rows, keys)));
      LabelsKept(f.rows, keys, groups, p);
      WhereSame(|f.rows|, KeptTest(f.rows, keys, groups, p), KeptTest(f.rows, keys, labels, p), RowAt(f.rows));
      if keys == [] {
        OneGroup(O.E, f.rows, s.aggs, groups, p);
        WhereAll(f.rows, |f.rows|, KeptTest(f.rows, keys, groups, p), RowsWhere(|groups|, p, RowAt(groups)) != []);
        assert f.rows[..|f.rows|] == f.rows;
      } else {
        KeptJoined(O.E, f, keys, s.aggs, groups, p);
      }
    }
  }

  lemma {:induction false} LabelsKept(rows: seq<Cells>, keys: seq<string>, groups: seq<Cells>, p: nat -> bool)
    ensures forall i: nat :: KeptTest(rows, keys, groups, p)(i) == KeptTest(rows, keys, ProjectAll(groups, KeySet(keys)), p)(i)
  {
    hide Label, NonNull;
    ProjectLabels(groups, keys);
    var labels := ProjectAll(groups, KeySet(keys));
    forall i: nat | i < |rows| ensures LabelKept(groups, keys, p, Label(rows[i], keys)) == LabelKept(labels, keys, p, Label(rows[i], keys)) {
      if j :| 0 <= j < |groups| && p(j) && Label(groups[j], keys) == Label(rows[i], keys) {
        assert Label(labels[j], keys) == Label(rows[i], keys);
      }
    }
  }

  // ---- the filter against the group by group run ---------------------------------------------------------------

  /** The function on one group: its value over the group's own aggregates. */
  function OwnValue(E: Engine, K: Kernels, e: Expr, group: seq<Cells>): Val { EvalLeaves(K, e, Row(map[], []), Leaf(E, group)) }

  /** The group function as Python runs it: a condition over the aggregates of the group's rows. */
  predicate CondHolds(K: Kernels, E: Engine, cond: Expr, group: seq<Cells>) {
    IsTrue(EvalLeaves(K, cond, Row(map[], []), Leaf(E, group)))
  }

  function Holds(K: Kernels, E: Engine, cond: Expr): seq<Cells> -> bool { g => CondHolds(K, E, cond, g) }

  function KeyedTest(rows: seq<Cells>, keys: seq<string>, holds: seq<Cells> -> bool): nat -> bool {
    (i: nat) => i < |rows| && NonNull(Label(rows[i], keys)) && holds(Members(rows, keys, Label(rows[i], keys)))
  }

  /** A condition over aggregates that Python can run on a group too: a number has no column ops. */
  ghost predicate OverAggregates(cond: Expr) { HasAggLeaf(cond) && !HasOp(cond) && Collect(cond, []) == Some([]) }

  lemma {:induction false} RowNodes(e: Expr)
    ensures OnlyRowNodes(e) == !HasOp(e)
  {
    match e {
      case Un(_, arg) => RowNodes(arg);
      case Bin(_, l, r) =>
        RowNodes(l);
        RowNodes(r);
      case Select(c, a, b) =>
        RowNodes(c);
        RowNodes(a);
        RowNodes(b);
      case _ =>
    }
  }

  lemma {:induction false} OverAggregatesRuns(O: Ops, f: Frame, keys: seq<string>, cond: Expr)
    requires OverAggregates(cond)
    ensures Reads(cond) == {} && FilterTakes(O, f, keys, cond)
  {
    RowNodes(cond);
    CollectReads(cond);
    NoOpsRun(O, LabelFrame(O.E, f, keys, Rewrite(cond, []).aggs), cond);
    assert Collected(cond) == {} by { assert forall n | n in Collected(cond) :: n in Collect(cond, []).value; }
  }

  /** On a group's row such a condition is the group's own. */
  lemma {:induction false} MaskHolds(O: Ops, K: Kernels, cond: Expr, rows: seq<Cells>, keys: seq<string>, labels: seq<Cells>, j: nat)
    requires !HasOp(cond) && Reads(cond) == {} && j < |labels|
    ensures MaskAt(LeafColumn(O, K, cond, labels, RowLeaf(O.E, rows, keys)))(j) ==
            CondHolds(K, O.E, cond, Members(rows, keys, Label(labels[j], keys)))
  {
    hide Members, Label, AtLeaves, EvalLeaves;
    RowOwnValue(O, K, cond, labels, RowLeaf(O.E, rows, keys), j);
    LeavesOnly(K, cond, Row(labels[j], []), Row(map[], []), RowLeaf(O.E, rows, keys)(labels[j]));
  }

  /** The lowered filter of a condition over aggregates: the rows, in input order and each once, whose keys are not null
      and whose group satisfies it. */
  lemma {:induction false} FilterLowered(O: Ops, K: Kernels, f: Frame, keys: seq<string>, traced: Traced)
    requires HonestOps(O) && Proper(f, keys) && Foreign(Condition(traced)) && OverAggregates(Condition(traced))
    ensures var cond := Condition(traced);
            LowerFilter(O, K, f, keys, traced) ==
            Some(RowsWhere(|f.rows|, KeyedTest(f.rows, keys, Holds(K, O.E, cond)), RowAt(f.rows)))
  {
    hide HonestOps, Rewrite, RowsWhere, LeafColumn, FilterTakes, Proper, Foreign;
    hide Honest, LowerFilter, CondHolds, Members, Label;
    hide NonNull, HasOp, HasAggLeaf, OverAggregates, Own;
    var cond := Condition(traced);
    var aggs := Rewrite(cond, []).aggs;
    var labels := LabelFrame(O.E, f, keys, aggs).rows;
    var p := MaskAt(LeafColumn(O, K, cond, labels, RowLeaf(O.E, f.rows, keys)));
    var q := KeyedTest(f.rows, keys, Holds(K, O.E, cond));
    OverAggregatesRuns(O, f, keys, cond);
    OverAggregatesPlain(cond);
    FilterMasks(O, K, f, keys, traced);
    HonestEngine(O);
    EngineGroups(O.E, f, keys, cond);
    ProjectLabels(O.E.groupBy(f.rows, keys, aggs), keys);
    forall i: nat | i < |f.rows| ensures KeptTest(f.rows, keys, labels, p)(i) == q(i) {
      forall j | 0 <= j < |labels| ensures p(j) == CondHolds(K, O.E, cond, Members(f.rows, keys, Label(labels[j], keys))) {
        MaskHolds(O, K, cond, f.rows, keys, labels, j);
      }
      if NonNull(Label(f.rows[i], keys)) {
        assert HasLabel(O.E.groupBy(f.rows, keys, aggs), keys, Label(f.rows[i], keys));
        var j :| 0 <= j < |labels| && Label(labels[j], keys) == Label(f.rows[i], keys);
        assert p(j) == q(i);
      }
    }
    WhereSame(|f.rows|, KeptTest(f.rows, keys, labels, p), q, RowAt(f.rows));
  }

  lemma {:induction false} OverAggregatesPlain(cond: Expr)
    requires OverAggregates(cond)
    ensures !HasOp(cond)
  {
  }

  /** The lowered filter is the Python one exactly when no row with a null key is in a group that satisfies the
      condition; those rows, which the join cannot match, are all it drops. */
  lemma {:induction false} FilterAgrees(O: Ops, K: Kernels, f: Frame, keys: seq<string>, traced: Traced)
    requires HonestOps(O) && Proper(f, keys) && Foreign(Condition(traced)) && OverAggregates(Condition(traced))
    ensures var p := GroupTest(f.rows, keys, Holds(K, O.E, Condition(traced)));
            && (LowerFilter(O, K, f, keys, traced) == Some(RowsWhere(|f.rows|, p, RowAt(f.rows))) <==>
                forall i | 0 <= i < |f.rows| :: p(i) ==> NonNull(Label(f.rows[i], keys)))
            && LowerFilter(O, K, f, keys, traced).Some?
            && |LowerFilter(O, K, f, keys, traced).value| <= |RowsWhere(|f.rows|, p, RowAt(f.rows))|
  {
    hide CondHolds, LowerFilter, HonestOps, Foreign, Own, OverAggregates, Members;
    var cond := Condition(traced);
    FilterLowered(O, K, f, keys, traced);
    FewerRows(f.rows, |f.rows|, KeyedTest(f.rows, keys, Holds(K, O.E, cond)), GroupTest(f.rows, keys, Holds(K, O.E, cond)));
  }

  // ---- the two kinds of condition, spelled out ------------------------------------------------------------------

  /** A number that is not zero. */
  predicate NonZero(v: Val) { (v.VI? && v.i != 0) || (v.VF? && v.r != 0.0) }

  /** The rows, in input order and each once, whose keys are there and not null and whose group satisfies `q`. */
  function KeptRows(rows: seq<Cells>, keys: seq<string>, q: seq<Cells> -> bool): seq<Cells> {
    RowsWhere(|rows|, (i: nat) => i < |rows| && (forall k | k in keys :: k in rows[i] && !rows[i][k].VNull?)
                                  && q(Members(rows, keys, Label(rows[i], keys))), RowAt(rows))
  }

  lemma {:induction false} KeptTested(f: Frame, keys: seq<string>, holds: seq<Cells> -> bool, q: seq<Cells> -> bool)
    requires Proper(f, keys) && forall g :: holds(g) == q(g)
    ensures RowsWhere(|f.rows|, KeyedTest(f.rows, keys, holds), RowAt(f.rows)) == KeptRows(f.rows, keys, q)
  {
    hide Members, Own, RowsWhere;
    var p := (i: nat) => i < |f.rows| && (forall k | k in keys :: k in f.rows[i] && !f.rows[i][k].VNull?)
                         && q(Members(f.rows, keys, Label(f.rows[i], keys)));
    forall i: nat | i < |f.rows| ensures KeyedTest(f.rows, keys, holds)(i) == p(i) {
      assert forall k | k in keys :: k in KeySet(keys);
      LabelNonNull(f.rows[i], keys);
      assert holds(Members(f.rows, keys, Label(f.rows[i], keys))) == q(Members(f.rows, keys, Label(f.rows[i], keys)));
    }
    WhereSame(|f.rows|, KeyedTest(f.rows, keys, holds), p, RowAt(f.rows));
  }

  /** A bare aggregate keeps the rows whose group's aggregate is a number other than zero. */
  lemma {:induction false} FilterAggregate(O: Ops, K: Kernels, f: Frame, keys: seq<string>, a: Agg)
    requires HonestOps(O) && Proper(f, keys)
    ensures LowerFilter(O, K, f, keys, Aggregate(a)) ==
            Some(KeptRows(f.rows, keys, g => NonZero(O.E.aggregate(a.(out := None), g))))
  {
    hide HonestOps, LowerFilter, Members, Own, RowsWhere, KeptRows, KeyedTest;
    var cond := Condition(Aggregate(a));
    assert Collect(AggLeaf(a), []) == Some([]) && Collect(cond, []) == Some([]);
    assert HasAggLeaf(AggLeaf(a)) && !HasOp(AggLeaf(a)) && Mentions(AggLeaf(a)) == {};
    assert OverAggregates(cond);
    assert Mentions(cond) == {} && Foreign(cond);
    FilterLowered(O, K, f, keys, Aggregate(a));
    forall g ensures Holds(K, O.E, cond)(g) == NonZero(O.E.aggregate(a.(out := None), g)) {
      assert EvalLeaves(K, AggLeaf(a), Row(map[], []), Leaf(O.E, g)) == O.E.aggregate(a.(out := None), g);
    }
    KeptTested(f, keys, Holds(K, O.E, cond), g => NonZero(O.E.aggregate(a.(out := None), g)));
  }

  /** Any other condition over aggregates keeps the rows on whose group's aggregates it is true. */
  lemma {:induction false} FilterExpression(O: Ops, K: Kernels, f: Frame, keys: seq<string>, e: Expr)
    requires HonestOps(O) && Proper(f, keys) && Foreign(e) && OverAggregates(e)
    ensures LowerFilter(O, K, f, keys, Expression(e)) == Some(KeptRows(f.rows, keys, g => OwnValue(O.E, K, e, g) == VB(true)))
  {
    hide HonestOps, LowerFilter, Members, Own, RowsWhere, KeptRows, KeyedTest, EvalLeaves, Foreign, OverAggregates;
    FilterLowered(O, K, f, keys, Expression(e));
    KeptTested(f, keys, Holds(K, O.E, e), g => OwnValue(O.E, K, e, g) == VB(true));
  }

  // ---- `GroupBy.apply` --------------------------------------------------------------------------------------------

  /** One row per group, or one value per row. */
  datatype Applied = Raises | PerGroup(rows: seq<Cells>) | PerRow(values: seq<Val>)

  const VALUE := "value"

  /** `full_like`: a constant column in the type of another one, Float64 for a float value. */
  function FullLike(base: Base, v: Val): Val {
    match v
    case VI(n) => if base == TF then VF(n as real) else v
    case VB(b) => if base == TF then VF(BoolInt(b) as real) else VI(BoolInt(b))
    case _ => v
  }

  /** A broadcast number keeps its value, in a float column as a float, and in any other as the integer it is. */
  lemma FullLikeKeeps(base: Base, v: Val)
    requires IsNum(v)
    ensures IsNum(FullLike(base, v)) && NumOf(FullLike(base, v)) == NumOf(v)
    ensures FullLike(base, v).VI? <==> base != TF && !v.VF?
    ensures FullLike(base, v).VF? <==> base == TF || v.VF?
  {
  }

  function RowValues(vs: Option<seq<Val>>): Applied { if vs.Some? then PerRow(vs.value) else Raises }

  /** The per-group frame with the values beside the keys. */
  function ValuedGroups(groups: seq<Cells>, keys: seq<string>, vs: Option<seq<Val>>): Applied {
    if vs.None? then Raises
    else
      PerGroup(seq(|groups|, j requires 0 <= j < |groups| =>
                     Project(groups[j][VALUE := CellAt(vs.value, j)], KeySet(keys) + {VALUE})))
  }

  /** The traced result lowered. `base` is the type of the first column it reads, which a group-by without keys
      broadcasts its aggregates along. */
  function LowerApply(O: Ops, K: Kernels, f: Frame, keys: seq<string>, traced: Traced, base: Base): Applied {
    if traced.Aggregate? then PerGroup(O.E.groupBy(f.rows, keys, [traced.a.(out := Some(VALUE))]))
    else if !HasAggLeaf(traced.e) then RowValues(ExprApply(O, K, traced.e, f))
    else
      match Collect(traced.e, [])
      case None => Raises
      case Some(cs) =>
        var s := Rewrite(traced.e, []);
        var groups := GroupFrame(O.E, f, keys, s.aggs);
        if !Touches(cs, f.columns) then ValuedGroups(groups.rows, keys, ExprApply(O, K, s.e, groups))
        else if keys != [] then RowValues(ExprApply(O, K, s.e, JoinedFrame(O.E, f, keys, s.aggs)))
        else if groups.rows == [] || exists n | n in groups.rows[0] :: !IsNum(groups.rows[0][n]) then Raises
        else RowValues(ExprApply(O, K, s.e, BroadcastFrame(f, s.aggs, groups.rows[0], base)))
  }

  /** The rows joined with their groups and sorted back. */
  function JoinedFrame(E: Engine, f: Frame, keys: seq<string>, aggs: seq<Agg>): Frame {
    Frame(f.columns + {ROW} + Outs(aggs), E.sortBy(E.join(Indexed(ROW, f.rows), E.groupBy(f.rows, keys, aggs), keys), ROW))
  }

  /** The rows with each aggregate beside them as a constant column. */
  function BroadcastFrame(f: Frame, aggs: seq<Agg>, group: Cells, base: Base): Frame {
    Frame(f.columns + {ROW} + Outs(aggs),
          seq(|f.rows|, i requires 0 <= i < |f.rows| => Indexed(ROW, f.rows)[i] + map n | n in group :: FullLike(base, group[n])))
  }

  /** The rows whose keys are not null, in input order. */
  function KeyedFrame(f: Frame, keys: seq<string>): Frame {
    Frame(f.columns, RowsWhere(|f.rows|, KeyedRows(f.rows, keys), RowAt(f.rows)))
  }

  /** A row joined with its group: the row, its number and the group's aggregates. */
  lemma {:induction false} JoinedRowIs(E: Engine, e: Expr, f: Frame, keys: seq<string>, groups: seq<Cells>, i: nat)
    requires Proper(f, keys) && Keyed(f.rows, keys, i) && Grouped(E, f.rows, keys, Rewrite(e, []).aggs, groups)
    ensures var wide, aggs := JoinedRow(ROW, f.rows, keys, groups)(i), Rewrite(e, []).aggs;
            && wide.Keys == f.columns + {ROW} + Outs(aggs)
            && (forall n | n in f.columns :: wide[n] == f.rows[i][n])
            && (forall m | 0 <= m < |aggs| ::
                  AggName(m) in wide && wide[AggName(m)] == RowLeaf(E, f.rows, keys)(f.rows[i])(aggs[m].(out := None)))
  {
    hide Rewrite, Members, Own;
    var at := Label(f.rows[i], keys);
    var aggs := Rewrite(e, []).aggs;
    KeysForeign(f, keys);
    SplitNames(e, keys);
    GroupRowAt(groups, keys, at);
    var r := GroupRow(groups, keys, at);
    var j :| 0 <= j < |groups| && groups[j] == r;
    assert Aggregated(E, f.rows, keys, aggs, r);
    var wide := JoinedRow(ROW, f.rows, keys, groups)(i);
    assert wide == Indexed(ROW, f.rows)[i] + r;
    forall n | n in f.columns ensures wide[n] == f.rows[i][n] {
      assert n !in Outs(aggs) && n != ROW;
      if n in keys {
        var k :| 0 <= k < |keys| && keys[k] == n;
        assert Label(r, keys)[k] == at[k] && !at[k].VNull?;
      } else {
        assert n !in r;
      }
    }
    forall m | 0 <= m < |aggs|
      ensures AggName(m) in wide && wide[AggName(m)] == RowLeaf(E, f.rows, keys)(f.rows[i])(aggs[m].(out := None))
    {
      assert AggName(m) in r && aggs[m].out == Some(AggName(m));
    }
  }

  ghost predicate FromOnePosition(n: nat, p: nat -> bool, a: nat -> Cells, b: nat -> Cells, r: Cells, r': Cells) {
    exists i: nat :: i < n && p(i) && r == a(i) && r' == b(i)
  }

  ghost predicate SideBySide(n: nat, p: nat -> bool, a: nat -> Cells, b: nat -> Cells, s: seq<Cells>, t: seq<Cells>) {
    |s| == |t| && forall k | 0 <= k < |s| :: FromOnePosition(n, p, a, b, s[k], t[k])
  }

  lemma {:induction false} FromMore(n: nat, p: nat -> bool, a: nat -> Cells, b: nat -> Cells, r: Cells, r': Cells)
    requires FromOnePosition(n, p, a, b, r, r')
    ensures FromOnePosition(n + 1, p, a, b, r, r')
  {
  }

  lemma {:induction false} SideBySideNext(n: nat, p: nat -> bool, a: nat -> Cells, b: nat -> Cells, s: seq<Cells>, t: seq<Cells>)
    requires SideBySide(n, p, a, b, s, t)
    ensures SideBySide(n + 1, p, a, b, s, t) && (p(n) ==> SideBySide(n + 1, p, a, b, s + [a(n)], t + [b(n)]))
  {
    assert p(n) ==> FromOnePosition(n + 1, p, a, b, a(n), b(n));
    hide FromOnePosition;
    forall k | 0 <= k < |s| ensures FromOnePosition(n + 1, p, a, b, s[k], t[k]) { FromMore(n, p, a, b, s[k], t[k]); }
  }

  /** Two lists of the same chosen positions go side by side. */
  lemma {:induction false} WherePaired(n: nat, p: nat -> bool, a: nat -> Cells, b: nat -> Cells)
    ensures SideBySide(n, p, a, b, RowsWhere(n, p, a), RowsWhere(n, p, b))
  {
    if n > 0 {
      hide SideBySide;
      WherePaired(n - 1, p, a, b);
      var s, t := RowsWhere(n - 1, p, a), RowsWhere(n - 1, p, b);
      SideBySideNext(n - 1, p, a, b, s, t);
      assert s + [] == s && t + [] == t;
    }
  }

  lemma {:induction false} JoinedFrameRows(E: Engine, f: Frame, keys: seq<string>, e: Expr)
    requires Honest(E) && Proper(f, keys)
    ensures var aggs := Rewrite(e, []).aggs;
            JoinedFrame(E, f, keys, aggs).rows ==
            RowsWhere(|f.rows|, KeyedRows(f.rows, keys), JoinedRow(ROW, f.rows, keys, E.groupBy(f.rows, keys, aggs)))
  {
    hide Rewrite, Grouped, RowsWhere, PairsOf, Proper, Honest, Label, Outs, JoinedRow;
    var aggs := Rewrite(e, []).aggs;
    var groups := E.groupBy(f.rows, keys, aggs);
    EngineGroups(E, f, keys, e);
    forall i: nat | i < |f.rows|
      ensures PairsOf(Indexed(ROW, f.rows)[i], groups, keys) ==
              if KeyedRows(f.rows, keys)(i) then [JoinedRow(ROW, f.rows, keys, groups)(i)] else []
      ensures KeyedRows(f.rows, keys)(i) ==>
                Numbered(ROW, JoinedRow(ROW, f.rows, keys, groups)(i)) && JoinedRow(ROW, f.rows, keys, groups)(i)[ROW].i == i
    {
      MeetsGroup(E, ROW, f.rows, keys, aggs, groups, i);
    }
    JoinSorted(E, ROW, Indexed(ROW, f.rows), groups, keys, KeyedRows(f.rows, keys), JoinedRow(ROW, f.rows, keys, groups));
  }

  /** The joined frame is the rows with non-null keys with their groups' aggregates beside them. */
  lemma {:induction false} JoinedFrameIs(E: Engine, f: Frame, keys: seq<string>, e: Expr)
    requires Honest(E) && Proper(f, keys)
    ensures var aggs := Rewrite(e, []).aggs;
            && Beyond(KeyedFrame(f, keys), JoinedFrame(E, f, keys, aggs))
            && Supplied(KeyedFrame(f, keys), JoinedFrame(E, f, keys, aggs), aggs, RowLeaf(E, f.rows, keys))
  {
    hide Rewrite, Honest, Grouped, Label, Own, RowsWhere, AggName, JoinedRow, RowLeaf, JoinedFrame;
    var aggs := Rewrite(e, []).aggs;
    var groups := E.groupBy(f.rows, keys, aggs);
    var narrow, wide := KeyedFrame(f, keys), JoinedFrame(E, f, keys, aggs);
    EngineGroups(E, f, keys, e);
    KeysForeign(f, keys);
    SplitNames(e, keys);
    JoinedFrameRows(E, f, keys, e);
    JoinedFrameColumns(E, f, keys, aggs);
    assert Own(ROW) by { AddedNames(0); }
    WherePaired(|f.rows|, KeyedRows(f.rows, keys), RowAt(f.rows), JoinedRow(ROW, f.rows, keys, groups));
    forall j | 0 <= j < |wide.rows|
      ensures narrow.rows[j].Keys == f.columns && wide.rows[j].Keys == wide.columns
      ensures forall n | n in f.columns :: wide.rows[j][n] == narrow.rows[j][n]
      ensures forall m | 0 <= m < |aggs| ::
                AggName(m) in wide.rows[j] && wide.rows[j][AggName(m)] == RowLeaf(E, f.rows, keys)(narrow.rows[j])(aggs[m].(out := None))
    {
      var i :| 0 <= i < |f.rows| && KeyedRows(f.rows, keys)(i) && narrow.rows[j] == RowAt(f.rows)(i)
               && wide.rows[j] == JoinedRow(ROW, f.rows, keys, groups)(i);
      JoinedRowIs(E, e, f, keys, groups, i);
    }
  }

  lemma {:induction false} JoinedFrameColumns(E: Engine, f: Frame, keys: seq<string>, aggs: seq<Agg>)
    ensures JoinedFrame(E, f, keys, aggs).columns == f.columns + {ROW} + Outs(aggs)
  {
  }

  lemma {:induction false} KeyedAll(f: Frame, keys: seq<string>)
    ensures |KeyedFrame(f, keys).rows| == |f.rows| <==> forall i | 0 <= i < |f.rows| :: NonNull(Label(f.rows[i], keys))
  {
    hide Label, NonNull, RowsWhere;
    RowsAll(|f.rows|, KeyedRows(f.rows, keys), RowAt(f.rows));
    forall i: nat | i < |f.rows| ensures KeyedRows(f.rows, keys)(i) == NonNull(Label(f.rows[i], keys)) {}
  }

  /** A function that reads a column of the frame beside its aggregates: on the rows whose keys are not null, in input
      order, the function with each leaf read as the aggregate of the row's group and each column op run over those
      rows; one value per input row exactly when no key is null. */
  lemma {:induction false} ApplyPerRow(O: Ops, K: Kernels, f: Frame, keys: seq<string>, e: Expr, base: Base)
    requires HonestOps(O) && Proper(f, keys) && Foreign(e) && keys != [] && HasAggLeaf(e)
    requires Collect(e, []).Some? && Touches(Collect(e, []).value, f.columns)
    ensures LowerApply(O, K, f, keys, Expression(e), base) ==
            if Takes(O, KeyedFrame(f, keys), e) then PerRow(LeafColumn(O, K, e, KeyedFrame(f, keys).rows, RowLeaf(O.E, f.rows, keys)))
            else Raises
    ensures |KeyedFrame(f, keys).rows| == |f.rows| <==> forall i | 0 <= i < |f.rows| :: NonNull(Label(f.rows[i], keys))
  {
    hide HonestOps, Proper, Foreign, HasAggLeaf, Collect, Touches, Takes;
    hide LeafColumn, Rewrite, Beyond, Supplied, ExprApply, Honest;
    hide Label, NonNull, Own, KeyedFrame, Outs, JoinedFrame, RowLeaf, AggName, GroupFrame, BroadcastFrame;
    var aggs := Rewrite(e, []).aggs;
    HonestEngine(O);
    KeyedAll(f, keys);
    JoinedFrameIs(O.E, f, keys, e);
    JoinedNames(O.E, f, keys, e);
    SplitApplied(O, K, e, KeyedFrame(f, keys), JoinedFrame(O.E, f, keys, aggs), RowLeaf(O.E, f.rows, keys));
  }

  lemma {:induction false} JoinedNames(E: Engine, f: Frame, keys: seq<string>, e: Expr)
    requires Proper(f, keys)
    ensures var aggs := Rewrite(e, []).aggs; var wide := JoinedFrame(E, f, keys, aggs);
            && (forall n | n in wide.columns && n !in KeyedFrame(f, keys).columns :: n == ROW || exists i: nat :: n == AggName(i))
            && (forall m | 0 <= m < |aggs| :: AggName(m) in wide.columns)
  {
    hide Rewrite, AggName, Own;
    KeysForeign(f, keys);
    SplitNames(e, keys);
  }

  /** On a group's row a function over aggregates alone, which Python can run on a group, has that group's own value. */
  lemma {:induction false} GroupOwnValue(O: Ops, K: Kernels, e: Expr, rows: seq<Cells>, keys: seq<string>, labels: seq<Cells>, j: nat)
    requires OverAggregates(e) && j < |labels|
    ensures AtLeaves(O, K, e, labels, RowLeaf(O.E, rows, keys), j) == OwnValue(O.E, K, e, Members(rows, keys, Label(labels[j], keys)))
  {
    hide Members, Label, AtLeaves, EvalLeaves;
    OverAggregatesRuns(O, Frame({}, rows), keys, e);
    RowOwnValue(O, K, e, labels, RowLeaf(O.E, rows, keys), j);
    LeavesOnly(K, e, Row(labels[j], []), Row(map[], []), RowLeaf(O.E, rows, keys)(labels[j]));
  }

  /** A function that reads no column of the frame beside its aggregates: one row per group, its keys and the function's
      value, every non-null label of the frame exactly once; where Python can run it on a group, the group's own value. */
  lemma {:induction false} ApplyPerGroup(O: Ops, K: Kernels, f: Frame, keys: seq<string>, e: Expr, base: Base)
    requires HonestOps(O) && Proper(f, keys) && Foreign(e) && VALUE !in keys && HasAggLeaf(e)
    requires Collect(e, []).Some? && !Touches(Collect(e, []).value, f.columns)
    ensures var out := LowerApply(O, K, f, keys, Expression(e), base);
            var labels := LabelFrame(O.E, f, keys, Rewrite(e, []).aggs);
            && (out.Raises? <==> !Takes(O, labels, e)) && !out.PerRow?
            && (out.PerGroup? ==>
                  && |out.rows| == |labels.rows| && DistinctLabels(out.rows, keys)
                  && (forall j | 0 <= j < |out.rows| ::
                        && out.rows[j].Keys == KeySet(keys) + {"value"} && Label(out.rows[j], keys) == Label(labels.rows[j], keys)
                        && out.rows[j]["value"] == AtLeaves(O, K, e, labels.rows, RowLeaf(O.E, f.rows, keys), j)
                        && (OverAggregates(e) ==>
                            out.rows[j]["value"] == OwnValue(O.E, K, e, Members(f.rows, keys, Label(out.rows[j], keys)))))
                  && (forall i | 0 <= i < |f.rows| && NonNull(Label(f.rows[i], keys)) ::
                        HasLabel(out.rows, keys, Label(f.rows[i], keys))))
  {
    hide HonestOps, Proper, Foreign, HasAggLeaf, Collect, Touches, Takes;
    hide AtLeaves, Rewrite, ExprApply, Honest, Own, RowLeaf;
    hide JoinedFrame, BroadcastFrame, OverAggregates, OwnValue, Members, Label;
    var s := Rewrite(e, []);
    HonestEngine(O);
    EngineGroups(O.E, f, keys, e);
    GroupFrameMeans(O, K, f, keys, e);
    var labels := LabelFrame(O.E, f, keys, s.aggs);
    if Takes(O, labels, e) {
      ValuedGroupsAre(O.E, f.rows, keys, s.aggs, GroupFrame(O.E, f, keys, s.aggs).rows,
                      LeafColumn(O, K, e, labels.rows, RowLeaf(O.E, f.rows, keys)));
      ProjectLabels(GroupFrame(O.E, f, keys, s.aggs).rows, keys);
      if OverAggregates(e) {
        forall j | 0 <= j < |labels.rows|
          ensures AtLeaves(O, K, e, labels.rows, RowLeaf(O.E, f.rows, keys), j) ==
                  OwnValue(O.E, K, e, Members(f.rows, keys, Label(labels.rows[j], keys)))
        {
          GroupOwnValue(O, K, e, f.rows, keys, labels.rows, j);
        }
      }
    }
  }

  lemma {:induction false} ValuedGroupsAre(E: Engine, rows: seq<Cells>, keys: seq<string>, aggs: seq<Agg>, groups: seq<Cells>, vs: seq<Val>)
    requires Grouped(E, rows, keys, aggs, groups) && VALUE !in keys && |vs| == |groups|
    ensures var out := ValuedGroups(groups, keys, Some(vs)).rows;
            && |out| == |groups| && DistinctLabels(out, keys)
            && (forall j | 0 <= j < |out| :: out[j].Keys == KeySet(keys) + {VALUE} && Label(out[j], keys) == Label(groups[j], keys)
                                             && out[j][VALUE] == vs[j])
            && (forall i | 0 <= i < |rows| && NonNull(Label(rows[i], keys)) :: HasLabel(out, keys, Label(rows[i], keys)))
  {
    hide Aggregated;
    var out := ValuedGroups(groups, keys, Some(vs)).rows;
    forall j | 0 <= j < |out| ensures Label(out[j], keys) == Label(groups[j], keys) && out[j].Keys == KeySet(keys) + {VALUE} {
      assert forall k | 0 <= k < |keys| :: keys[k] in KeySet(keys);
    }
    forall i | 0 <= i < |rows| && NonNull(Label(rows[i], keys)) ensures HasLabel(out, keys, Label(rows[i], keys)) {
      assert HasLabel(groups, keys, Label(rows[i], keys));
      var j :| 0 <= j < |groups| && Label(groups[j], keys) == Label(rows[i], keys);
      assert Label(out[j], keys) == Label(rows[i], keys);
    }
  }

  /** A bare aggregate: one row per group, its keys and the aggregate of its rows, every non-null label exactly once. */
  lemma {:induction false} ApplyAggregate(O: Ops, K: Kernels, f: Frame, keys: seq<string>, a: Agg, base: Base)
    requires HonestOps(O) && Proper(f, keys) && VALUE !in keys
    ensures var out := LowerApply(O, K, f, keys, Aggregate(a), base);
            && out.PerGroup? && DistinctLabels(out.rows, keys)
            && (forall j | 0 <= j < |out.rows| ::
                  && out.rows[j].Keys == KeySet(keys) + {"value"}
                  && out.rows[j]["value"] == AggOf(O.E, a, Members(f.rows, keys, Label(out.rows[j], keys))))
            && (forall i | 0 <= i < |f.rows| && NonNull(Label(f.rows[i], keys)) ::
                  HasLabel(out.rows, keys, Label(f.rows[i], keys)))
  {
    hide HonestOps, Members, Label, NonNull, Honest, Own;
    HonestEngine(O);
    OneAgg(O.E, f.rows, keys, a, VALUE);
    var aggs := [a.(out := Some(VALUE))];
    var out := O.E.groupBy(f.rows, keys, aggs);
    forall j | 0 <= j < |out| ensures out[j][VALUE] == AggOf(O.E, a, Members(f.rows, keys, Label(out[j], keys))) {
      assert Aggregated(O.E, f.rows, keys, aggs, out[j]) && aggs[0].out == Some(VALUE);
    }
  }

  // ---- without keys ------------------------------------------------------------------------------------------------

  function Broadcast(E: Engine, base: Base, rows: seq<Cells>): Agg -> Val { a => FullLike(base, E.aggregate(a, rows)) }

  function Everywhere(leaf: Agg -> Val): Cells -> Agg -> Val { (r: Cells) => leaf }

  /** Every aggregate of the function is a number over the rows. */
  predicate LeavesNum(E: Engine, e: Expr, rows: seq<Cells>) {
    match e
    case AggLeaf(a) => IsNum(E.aggregate(a.(out := None), rows))
    case Un(_, arg) => LeavesNum(E, arg, rows)
    case Bin(_, l, r) => LeavesNum(E, l, rows) && LeavesNum(E, r, rows)
    case Select(c, a, b) => LeavesNum(E, c, rows) && LeavesNum(E, a, rows) && LeavesNum(E, b, rows)
    case ColumnOpNode(arg, _) => LeavesNum(E, arg, rows)
    case _ => true
  }

  ghost predicate AggsNum(E: Engine, aggs: seq<Agg>, a: nat, rows: seq<Cells>) {
    forall m | a <= m < |aggs| :: IsNum(AggOf(E, aggs[m], rows))
  }

  lemma {:induction false} AggsNumJoin(E: Engine, aggs: seq<Agg>, more: seq<Agg>, a: nat, rows: seq<Cells>)
    requires aggs <= more && a <= |aggs|
    ensures AggsNum(E, more, a, rows) <==> AggsNum(E, aggs, a, rows) && AggsNum(E, more, |aggs|, rows)
  {
    hide IsNum;
    if AggsNum(E, more, a, rows) {
      forall m | a <= m < |aggs| ensures IsNum(AggOf(E, aggs[m], rows)) { assert more[m] == aggs[m]; }
    }
    if AggsNum(E, aggs, a, rows) && AggsNum(E, more, |aggs|, rows) {
      forall m | a <= m < |more| ensures IsNum(AggOf(E, more[m], rows)) {
        if m < |aggs| { assert more[m] == aggs[m]; }
      }
    }
  }

  lemma {:induction false} LeavesAreNum(E: Engine, e: Expr, aggs: seq<Agg>, rows: seq<Cells>)
    ensures AggsNum(E, Rewrite(e, aggs).aggs, |aggs|, rows) <==> LeavesNum(E, e, rows)
  {
    hide IsNum, AggsNum;
    match e {
      case AggLeaf(a) => OneNum(E, a, aggs, rows);
      case Un(_, arg) => LeavesAreNum(E, arg, aggs, rows);
      case Bin(_, l, r) =>
        var x := Rewrite(l, aggs);
        LeavesAreNum(E, l, aggs, rows);
        LeavesAreNum(E, r, x.aggs, rows);
        AggsNumJoin(E, x.aggs, Rewrite(e, aggs).aggs, |aggs|, rows);
      case Select(c, a, b) =>
        var x := Rewrite(c, aggs);
        var y := Rewrite(a, x.aggs);
        LeavesAreNum(E, c, aggs, rows);
        LeavesAreNum(E, a, x.aggs, rows);
        LeavesAreNum(E, b, y.aggs, rows);
        AggsNumJoin(E, x.aggs, y.aggs, |aggs|, rows);
        AggsNumJoin(E, y.aggs, Rewrite(e, aggs).aggs, |aggs|, rows);
      case ColumnOpNode(arg, _) => LeavesAreNum(E, arg, aggs, rows);
      case _ => NoneNum(E, aggs, rows);
    }
  }

  lemma {:induction false} NoneNum(E: Engine, aggs: seq<Agg>, rows: seq<Cells>)
    ensures AggsNum(E, aggs, |aggs|, rows)
  {
  }

  lemma {:induction false} OneNum(E: Engine, a: Agg, aggs: seq<Agg>, rows: seq<Cells>)
    ensures AggsNum(E, Rewrite(AggLeaf(a), aggs).aggs, |aggs|, rows) <==> IsNum(E.aggregate(a.(out := None), rows))
  {
    hide IsNum;
    var more := Rewrite(AggLeaf(a), aggs).aggs;
    assert more[|aggs|].(out := None) == a.(out := None);
    assert AggsNum(E, more, |aggs|, rows) ==> IsNum(AggOf(E, more[|aggs|], rows));
  }

  /** The one group of a frame without keys carries the aggregates of the frame, and nothing else. */
  lemma {:induction false} FrameGroup(E: Engine, f: Frame, e: Expr)
    requires Honest(E) && Proper(f, [])
    ensures var aggs := Rewrite(e, []).aggs; var groups := E.groupBy(f.rows, [], aggs);
            && |groups| == 1 && groups[0].Keys == Outs(aggs)
            && (forall m | 0 <= m < |aggs| :: AggName(m) in groups[0] && groups[0][AggName(m)] == AggOf(E, aggs[m], f.rows))
            && (forall n | n in groups[0] :: exists m | 0 <= m < |aggs| :: n == AggName(m))
  {
    hide Rewrite, AggName, Members, Own;
    var aggs := Rewrite(e, []).aggs;
    var groups := E.groupBy(f.rows, [], aggs);
    EngineGroups(E, f, [], e);
    SplitNames(e, []);
    AllMembers(f.rows);
    assert Aggregated(E, f.rows, [], aggs, groups[0]) && Label(groups[0], []) == [];
    forall n | n in groups[0] ensures exists m | 0 <= m < |aggs| :: n == AggName(m) {
      var a :| a in aggs && a.out.Some? && a.out.value == n;
      var m :| 0 <= m < |aggs| && aggs[m] == a;
      assert n == AggName(m);
    }
  }

  lemma {:induction false} FrameGroupNum(E: Engine, f: Frame, e: Expr)
    requires Honest(E) && Proper(f, [])
    ensures var groups := E.groupBy(f.rows, [], Rewrite(e, []).aggs);
            |groups| == 1 && ((exists n | n in groups[0] :: !IsNum(groups[0][n])) <==> !LeavesNum(E, e, f.rows))
  {
    hide Rewrite, AggName, Own, IsNum, Proper, Honest, Outs;
    var aggs := Rewrite(e, []).aggs;
    FrameGroup(E, f, e);
    LeavesAreNum(E, e, [], f.rows);
    var g := E.groupBy(f.rows, [], aggs)[0];
    if !AggsNum(E, aggs, 0, f.rows) {
      var m :| 0 <= m < |aggs| && !IsNum(AggOf(E, aggs[m], f.rows));
      assert !IsNum(g[AggName(m)]);
    }
  }

  /** A row carries its own cells, its number, and the group's aggregates as constants. */
  lemma {:induction false} BroadcastRow(f: Frame, aggs: seq<Agg>, g: Cells, base: Base, j: nat)
    requires j < |f.rows| && f.rows[j].Keys == f.columns && ROW !in f.columns
    requires forall n | n in g :: n !in f.columns && n != ROW
    ensures var row := BroadcastFrame(f, aggs, g, base).rows[j];
            && row.Keys == f.columns + {ROW} + g.Keys
            && (forall n | n in f.columns :: row[n] == f.rows[j][n])
            && forall n | n in g :: row[n] == FullLike(base, g[n])
  {
    var broadcast := map n | n in g :: FullLike(base, g[n]);
    assert BroadcastFrame(f, aggs, g, base).rows[j] == Indexed(ROW, f.rows)[j] + broadcast;
    assert broadcast.Keys == g.Keys;
  }

  lemma {:induction false} BroadcastFrameIs(E: Engine, f: Frame, e: Expr, base: Base)
    requires Honest(E) && Proper(f, [])
    ensures var aggs := Rewrite(e, []).aggs; var groups := E.groupBy(f.rows, [], aggs);
            && |groups| == 1 && Beyond(f, BroadcastFrame(f, aggs, groups[0], base))
            && Supplied(f, BroadcastFrame(f, aggs, groups[0], base), aggs, Everywhere(Broadcast(E, base, f.rows)))
  {
    hide Rewrite, AggName, Own, Honest, Outs;
    var aggs := Rewrite(e, []).aggs;
    FrameGroup(E, f, e);
    KeysForeign(f, []);
    SplitNames(e, []);
    assert Own(ROW) by { AddedNames(0); }
    var g := E.groupBy(f.rows, [], aggs)[0];
    forall j | 0 <= j < |f.rows|
      ensures var row := BroadcastFrame(f, aggs, g, base).rows[j];
              && row.Keys == f.columns + {ROW} + g.Keys
              && (forall n | n in f.columns :: row[n] == f.rows[j][n])
              && forall n | n in g :: row[n] == FullLike(base, g[n])
    {
      BroadcastRow(f, aggs, g, base, j);
    }
  }

  /** Without keys the frame is the one group: each row's value is the function's, its aggregates read as constant
      columns; it raises exactly when some aggregate is not a number, or the expression cannot be evaluated. */
  lemma {:induction false} ApplyWhole(O: Ops, K: Kernels, f: Frame, e: Expr, base: Base)
    requires HonestOps(O) && Proper(f, []) && Foreign(e) && HasAggLeaf(e)
    requires Collect(e, []).Some? && Touches(Collect(e, []).value, f.columns)
    ensures LowerApply(O, K, f, [], Expression(e), base) ==
            if LeavesNum(O.E, e, f.rows) && Takes(O, f, e) then
              PerRow(LeafColumn(O, K, e, f.rows, Everywhere(Broadcast(O.E, base, f.rows))))
            else Raises
  {
    hide HonestOps, Proper, Foreign, HasAggLeaf, Collect, Touches, Takes;
    hide LeafColumn, Rewrite, Beyond, Supplied, ExprApply, Honest;
    hide Own, Outs, JoinedFrame, BroadcastFrame, Everywhere, Broadcast, AggName, LeavesNum, IsNum;
    var aggs := Rewrite(e, []).aggs;
    HonestEngine(O);
    FrameGroupNum(O.E, f, e);
    BroadcastFrameIs(O.E, f, e, base);
    var wide := BroadcastFrame(f, aggs, O.E.groupBy(f.rows, [], aggs)[0], base);
    BroadcastNames(f, e, O.E.groupBy(f.rows, [], aggs)[0], base);
    SplitApplied(O, K, e, f, wide, Everywhere(Broadcast(O.E, base, f.rows)));
  }

  lemma {:induction false} BroadcastNames(f: Frame, e: Expr, group: Cells, base: Base)
    ensures var aggs := Rewrite(e, []).aggs; var wide := BroadcastFrame(f, aggs, group, base);
            && (forall n | n in wide.columns && n !in f.columns :: n == ROW || exists i: nat :: n == AggName(i))
            && (forall m | 0 <= m < |aggs| :: AggName(m) in wide.columns)
  {
    hide Rewrite, AggName, Own;
    SplitNames(e, []);
  }

  // ---- column ops and the group by group run ------------------------------------------------------------------

  /** Where a chosen position goes among the chosen ones. */
  function Place(p: nat -> bool, i: nat): nat { |Where(i, p)| }

  function InGroup(rows: seq<Cells>, keys: seq<string>, at: seq<Val>): nat -> bool {
    (i: nat) => i < |rows| && Label(rows[i], keys) == at
  }

  function ValueAt(v: seq<Val>): nat -> Val { (i: nat) => CellAt(v, i) }

  /** The chosen values, in order. */
  function Picked(v: seq<Val>, p: nat -> bool): seq<Val> { ValuesWhere(|v|, p, ValueAt(v)) }

  function PickedToo(w: Option<seq<Val>>, p: nat -> bool): Option<seq<Val>> { if w.Some? then Some(Picked(w.value, p)) else None }

  lemma {:induction false} PlacedRow(n: nat, p: nat -> bool, row: nat -> Cells, i: nat)
    requires i < n && p(i)
    ensures Place(p, i) < |RowsWhere(n, p, row)| && RowsWhere(n, p, row)[Place(p, i)] == row(i)
  {
    PlaceIs(i, p, row);
    if i < n - 1 { PlacedRow(n - 1, p, row, i); }
  }

  lemma {:induction false} PlaceIs(n: nat, p: nat -> bool, row: nat -> Cells)
    ensures Place(p, n) == |RowsWhere(n, p, row)|
  {
    if n > 0 { PlaceIs(n - 1, p, row); }
  }

  lemma {:induction false} PlacedValue(n: nat, p: nat -> bool, v: nat -> Val, i: nat)
    requires i < n && p(i)
    ensures Place(p, i) < |ValuesWhere(n, p, v)| && ValuesWhere(n, p, v)[Place(p, i)] == v(i)
  {
    PlaceOfValue(i, p, v);
    if i < n - 1 { PlacedValue(n - 1, p, v, i); }
  }

  lemma {:induction false} PlaceOfValue(n: nat, p: nat -> bool, v: nat -> Val)
    ensures Place(p, n) == |ValuesWhere(n, p, v)|
  {
    if n > 0 { PlaceOfValue(n - 1, p, v); }
  }

  /** A list is the chosen values once each stands at its place. */
  lemma {:induction false} ValuesPlaced(s: seq<Val>, n: nat, p: nat -> bool, v: nat -> Val)
    requires |s| == Place(p, n) && forall i | 0 <= i < n && p(i) :: Place(p, i) < |s| && s[Place(p, i)] == v(i)
    ensures s == ValuesWhere(n, p, v)
  {
    hide Place;
    if n > 0 {
      PlaceNext(n - 1, p);
      if p(n - 1) {
        var front := s[..|s| - 1];
        forall i | 0 <= i < n - 1 && p(i) ensures Place(p, i) < |front| && front[Place(p, i)] == v(i) { PlaceGrows(p, i, n - 1); }
        ValuesPlaced(front, n - 1, p, v);
        assert s == front + [s[|s| - 1]];
      } else {
        ValuesPlaced(s, n - 1, p, v);
      }
    } else {
      PlaceOfValue(0, p, v);
    }
  }

  lemma {:induction false} PlaceNext(n: nat, p: nat -> bool)
    ensures Place(p, n + 1) == Place(p, n) + if p(n) then 1 else 0
  {
  }

  lemma {:induction false} PlaceGrows(p: nat -> bool, i: nat, n: nat)
    requires i < n && p(i)
    ensures Place(p, i) < Place(p, n)
    decreases n
  {
    hide Place;
    PlaceNext(n - 1, p);
    if i < n - 1 { PlaceGrows(p, i, n - 1); }
  }

  lemma {:induction false} MembersWhere(rows: seq<Cells>, keys: seq<string>, at: seq<Val>, n: nat)
    requires n <= |rows|
    ensures Members(rows[..n], keys, at) == RowsWhere(n, InGroup(rows, keys, at), RowAt(rows))
  {
    hide Label;
    if n > 0 {
      MembersWhere(rows, keys, at, n - 1);
      MembersAppend(rows[..n - 1], rows[n - 1], keys, at);
      assert rows[..n - 1] + [rows[n - 1]] == rows[..n];
    }
  }

  lemma {:induction false} PlaceInGroup(rows: seq<Cells>, keys: seq<string>, i: nat)
    requires i < |rows|
    ensures var at := Label(rows[i], keys);
            && Members(rows, keys, at) == RowsWhere(|rows|, InGroup(rows, keys, at), RowAt(rows))
            && |Members(rows[..i], keys, at)| == Place(InGroup(rows, keys, at), i) < |Members(rows, keys, at)|
  {
    hide Label, Members, Place, RowsWhere;
    var at := Label(rows[i], keys);
    MembersWhere(rows, keys, at, i);
    MembersWhere(rows, keys, at, |rows|);
    assert rows[..|rows|] == rows;
    PlaceIs(i, InGroup(rows, keys, at), RowAt(rows));
    PlacedRow(|rows|, InGroup(rows, keys, at), RowAt(rows), i);
  }

  /** What the group by group run gives a row: the function run over the rows of its group alone, at the row's place
      among them. */
  function GroupRun(O: Ops, K: Kernels, rows: seq<Cells>, keys: seq<string>, e: Expr, i: nat): Val
    requires i < |rows|
  {
    var at := Label(rows[i], keys);
    var group := Members(rows, keys, at);
    PlaceInGroup(rows, keys, i);
    AtLeaves(O, K, e, group, Everywhere(Leaf(O.E, group)), |Members(rows[..i], keys, at)|)
  }

  function RunAt(O: Ops, K: Kernels, rows: seq<Cells>, keys: seq<string>, e: Expr): nat -> Val {
    (i: nat) => if i < |rows| then GroupRun(O, K, rows, keys, e, i) else Fault
  }

  /** An operation that works row by row: on chosen rows it gives what it gives them among all. */
  ghost predicate Elementwise(O: Ops, key: OpKey) {
    forall v, w: Option<seq<Val>>, p | w.Some? ==> |w.value| == |v| :: O.run(key, Picked(v, p), PickedToo(w, p)) == Picked(O.run(key, v, w), p)
  }

  /** Every column op of the expression works row by row. */
  ghost predicate RowByRow(O: Ops, e: Expr)
    decreases e
  {
    match e
    case ColumnOpNode(arg, spec) =>
      && RowByRow(O, arg) && (spec.column2.Some? ==> RowByRow(O, spec.column2.value))
      && spec.over.None? && spec.cagg.None? && Elementwise(O, KeyOf(spec))
    case Un(_, arg) => RowByRow(O, arg)
    case Bin(_, l, r) => RowByRow(O, l) && RowByRow(O, r)
    case Select(c, a, b) => RowByRow(O, c) && RowByRow(O, a) && RowByRow(O, b)
    case _ => true
  }

  function NoValue(): Cells -> Agg -> Val { (r: Cells) => (a: Agg) => Fault }

  lemma {:induction false} SecondIsLeaves(O: Ops, K: Kernels, e: Expr, rows: seq<Cells>, i: nat)
    requires i < |rows|
    ensures At(O, K, e, rows, i) == AtLeaves(O, K, e, rows, NoValue(), i)
    decreases e, 0
  {
    hide AggColumn, RunOp, Labels, Column, LeafColumn;
    match e {
      case Un(_, arg) => SecondIsLeaves(O, K, arg, rows, i);
      case Bin(_, l, r) =>
        SecondIsLeaves(O, K, l, rows, i);
        SecondIsLeaves(O, K, r, rows, i);
      case Select(c, a, b) =>
        SecondIsLeaves(O, K, c, rows, i);
        SecondIsLeaves(O, K, a, rows, i);
        SecondIsLeaves(O, K, b, rows, i);
      case ColumnOpNode(arg, _) => SecondIsColumn(O, K, arg, rows);
      case _ =>
    }
  }

  lemma {:induction false} SecondIsColumn(O: Ops, K: Kernels, e: Expr, rows: seq<Cells>)
    ensures Column(O, K, e, rows) == LeafColumn(O, K, e, rows, NoValue())
    decreases e, 1
  {
    hide At, AtLeaves;
    forall i: nat | i < |rows| ensures At(O, K, e, rows, i) == AtLeaves(O, K, e, rows, NoValue(), i) { SecondIsLeaves(O, K, e, rows, i); }
  }

  /** The leaves stand for the same values on the chosen rows. */
  ghost predicate SameLeaves(rows: seq<Cells>, p: nat -> bool, leaf: Cells -> Agg -> Val, leaf': Cells -> Agg -> Val) {
    forall j, a | 0 <= j < |rows| && p(j) :: leaf(rows[j])(a) == leaf'(rows[j])(a)
  }

  /** Operations that work row by row give chosen rows what they give them among all. */
  lemma {:induction false} PickedRow(O: Ops, K: Kernels, e: Expr, rows: seq<Cells>, p: nat -> bool, leaf: Cells -> Agg -> Val,
                                     leaf': Cells -> Agg -> Val, i: nat)
    requires HonestOps(O) && RowByRow(O, e) && i < |rows| && p(i) && SameLeaves(rows, p, leaf, leaf')
    ensures var sub := RowsWhere(|rows|, p, RowAt(rows));
            Place(p, i) < |sub| && AtLeaves(O, K, e, sub, leaf', Place(p, i)) == AtLeaves(O, K, e, rows, leaf, i)
    decreases e, 0
  {
    hide HonestOps, Place, RowsWhere, Picked, LeafColumn, Column, Elementwise, ValuesWhere;
    var sub := RowsWhere(|rows|, p, RowAt(rows));
    PlacedRow(|rows|, p, RowAt(rows), i);
    match e {
      case AggLeaf(a) => assert leaf(rows[i])(a.(out := None)) == leaf'(rows[i])(a.(out := None));
      case Un(_, arg) => PickedRow(O, K, arg, rows, p, leaf, leaf', i);
      case Bin(_, l, r) =>
        PickedRow(O, K, l, rows, p, leaf, leaf', i);
        PickedRow(O, K, r, rows, p, leaf, leaf', i);
      case Select(c, a, b) =>
        PickedRow(O, K, c, rows, p, leaf, leaf', i);
        PickedRow(O, K, a, rows, p, leaf, leaf', i);
        PickedRow(O, K, b, rows, p, leaf, leaf', i);
      case ColumnOpNode(arg, spec) =>
        var v := LeafColumn(O, K, arg, rows, leaf);
        var w := SecondColumn(O, K, spec, rows);
        PickedColumn(O, K, arg, rows, p, leaf, leaf');
        if spec.column2.Some? {
          PickedColumn(O, K, spec.column2.value, rows, p, NoValue(), NoValue());
          SecondIsColumn(O, K, spec.column2.value, rows);
          SecondIsColumn(O, K, spec.column2.value, sub);
        }
        Heights(O, K, arg, rows, leaf, spec);
        assert SecondColumn(O, K, spec, sub) == PickedToo(w, p);
        RunPicked(O, KeyOf(spec), v, w, p, i);
      case _ =>
    }
  }

  lemma {:induction false} Heights(O: Ops, K: Kernels, e: Expr, rows: seq<Cells>, leaf: Cells -> Agg -> Val, spec: ColumnOp)
    ensures |LeafColumn(O, K, e, rows, leaf)| == |rows|
    ensures SecondColumn(O, K, spec, rows).Some? ==> |SecondColumn(O, K, spec, rows).value| == |rows|
  {
  }

  lemma {:induction false} RunPicked(O: Ops, key: OpKey, v: seq<Val>, w: Option<seq<Val>>, p: nat -> bool, i: nat)
    requires HonestOps(O) && Elementwise(O, key) && (w.Some? ==> |w.value| == |v|) && i < |v| && p(i)
    ensures CellAt(O.run(key, Picked(v, p), PickedToo(w, p)), Place(p, i)) == CellAt(O.run(key, v, w), i)
  {
    hide HonestOps, Place;
    HonestEngine(O);
    PlacedValue(|v|, p, ValueAt(O.run(key, v, w)), i);
  }

  lemma {:induction false} PickedColumn(O: Ops, K: Kernels, e: Expr, rows: seq<Cells>, p: nat -> bool, leaf: Cells -> Agg -> Val,
                                        leaf': Cells -> Agg -> Val)
    requires HonestOps(O) && RowByRow(O, e) && SameLeaves(rows, p, leaf, leaf')
    ensures LeafColumn(O, K, e, RowsWhere(|rows|, p, RowAt(rows)), leaf') == Picked(LeafColumn(O, K, e, rows, leaf), p)
    decreases e, 1
  {
    hide HonestOps, AtLeaves, RowsWhere, ValuesWhere, Place, RowByRow, SameLeaves;
    var sub := RowsWhere(|rows|, p, RowAt(rows));
    var v := LeafColumn(O, K, e, rows, leaf);
    PlaceIs(|rows|, p, RowAt(rows));
    forall i: nat | i < |rows| && p(i)
      ensures Place(p, i) < |sub| && LeafColumn(O, K, e, sub, leaf')[Place(p, i)] == ValueAt(v)(i)
    {
      PickedRow(O, K, e, rows, p, leaf, leaf', i);
    }
    ValuesPlaced(LeafColumn(O, K, e, sub, leaf'), |rows|, p, ValueAt(v));
  }

  /** Group by group, operations that work row by row give each row what they give it among all rows. */
  lemma {:induction false} RunAmongAll(O: Ops, K: Kernels, e: Expr, rows: seq<Cells>, keys: seq<string>, i: nat)
    requires HonestOps(O) && RowByRow(O, e) && i < |rows|
    ensures GroupRun(O, K, rows, keys, e, i) == AtLeaves(O, K, e, rows, RowLeaf(O.E, rows, keys), i)
  {
    hide HonestOps, AtLeaves, Members, Label, Place, RowsWhere, RowByRow;
    var at := Label(rows[i], keys);
    var group := Members(rows, keys, at);
    PlaceInGroup(rows, keys, i);
    assert SameLeaves(rows, InGroup(rows, keys, at), RowLeaf(O.E, rows, keys), Everywhere(Leaf(O.E, group)));
    PickedRow(O, K, e, rows, InGroup(rows, keys, at), RowLeaf(O.E, rows, keys), Everywhere(Leaf(O.E, group)), i);
  }

  lemma {:induction false} NoLeavesAt(O: Ops, K: Kernels, e: Expr, rows: seq<Cells>, leaf: Cells -> Agg -> Val, i: nat)
    requires !HasAggLeaf(e) && i < |rows|
    ensures At(O, K, e, rows, i) == AtLeaves(O, K, e, rows, leaf, i)
    decreases e, 0
  {
    hide AggColumn, RunOp, Labels, Column, LeafColumn;
    match e {
      case Un(_, arg) => NoLeavesAt(O, K, arg, rows, leaf, i);
      case Bin(_, l, r) =>
        NoLeavesAt(O, K, l, rows, leaf, i);
        NoLeavesAt(O, K, r, rows, leaf, i);
      case Select(c, a, b) =>
        NoLeavesAt(O, K, c, rows, leaf, i);
        NoLeavesAt(O, K, a, rows, leaf, i);
        NoLeavesAt(O, K, b, rows, leaf, i);
      case ColumnOpNode(arg, _) => NoLeavesColumn(O, K, arg, rows, leaf);
      case _ =>
    }
  }

  lemma {:induction false} NoLeavesColumn(O: Ops, K: Kernels, e: Expr, rows: seq<Cells>, leaf: Cells -> Agg -> Val)
    requires !HasAggLeaf(e)
    ensures Column(O, K, e, rows) == LeafColumn(O, K, e, rows, leaf)
    decreases e, 1
  {
    hide At, AtLeaves;
    forall i: nat | i < |rows| ensures At(O, K, e, rows, i) == AtLeaves(O, K, e, rows, leaf, i) { NoLeavesAt(O, K, e, rows, leaf, i); }
  }

  /** Without aggregates the function is `Expr.apply` on the frame. */
  lemma {:induction false} ApplyPlain(O: Ops, K: Kernels, f: Frame, keys: seq<string>, e: Expr, base: Base)
    requires HonestOps(O) && Proper(f, keys) && Foreign(e) && !HasAggLeaf(e)
    ensures LowerApply(O, K, f, keys, Expression(e), base) ==
            if OpsRun(O, f, e) && Usable(e, f.columns) then PerRow(Column(O, K, e, f.rows)) else Raises
  {
    hide HonestOps, OpsRun, Usable, Column, ExprApply, Own, OverNames, Reserved;
    forall n: string ensures Reserved(n) ==> Own(n) { ReservedOwn(n); }
    NamesMentioned(e);
    ExprApplyMeans(O, K, e, f);
  }

  /** The rows a function gets a value on: all of them, or with aggregates beside those whose keys are not null. */
  function Answered(f: Frame, keys: seq<string>, e: Expr): nat -> bool {
    if HasAggLeaf(e) then KeyedRows(f.rows, keys) else Always()
  }

  /** Where the lowering gives one value per row, it is the one the group by group run gives the row. */
  ghost predicate GroupWise(O: Ops, K: Kernels, f: Frame, keys: seq<string>, e: Expr, base: Base) {
    var out := LowerApply(O, K, f, keys, Expression(e), base);
    out.PerRow? ==> out.values == ValuesWhere(|f.rows|, Answered(f, keys, e), RunAt(O, K, f.rows, keys, e))
  }

  ghost predicate Usual(f: Frame, keys: seq<string>, e: Expr) { Proper(f, keys) && Foreign(e) && (HasAggLeaf(e) ==> keys != []) }

  lemma {:induction false} ValuesSame(n: nat, p: nat -> bool, v: nat -> Val, w: nat -> Val)
    requires forall i | 0 <= i < n && p(i) :: v(i) == w(i)
    ensures ValuesWhere(n, p, v) == ValuesWhere(n, p, w)
  {
    if n > 0 { ValuesSame(n - 1, p, v, w); }
  }

  /** A function whose column ops all work row by row is lowered to its group by group run, on every frame. */
  lemma {:induction false} RowByRowAgrees(O: Ops, K: Kernels, f: Frame, keys: seq<string>, e: Expr, base: Base)
    requires HonestOps(O) && Usual(f, keys, e) && RowByRow(O, e)
    ensures GroupWise(O, K, f, keys, e, base)
  {
    hide HonestOps, Proper, Foreign, RowByRow, LowerApply, RowsWhere, ValuesWhere;
    hide Takes, OpsRun, Usable, GroupRun, AtLeaves, At;
    hide KeyedRows, RowLeaf;
    var leaf := RowLeaf(O.E, f.rows, keys);
    var p, run := Answered(f, keys, e), RunAt(O, K, f.rows, keys, e);
    var v := ValueAt(LeafColumn(O, K, e, f.rows, leaf));
    forall i: nat | i < |f.rows| ensures run(i) == v(i) { RunAmongAll(O, K, e, f.rows, keys, i); }
    ValuesSame(|f.rows|, p, run, v);
    if !HasAggLeaf(e) {
      ApplyPlain(O, K, f, keys, e, base);
      NoLeavesColumn(O, K, e, f.rows, leaf);
      ValuesAll(|f.rows|, p, v);
    } else if Collect(e, []).Some? && Touches(Collect(e, []).value, f.columns) {
      ApplyPerRow(O, K, f, keys, e, base);
      PickedColumn(O, K, e, f.rows, KeyedRows(f.rows, keys), leaf, leaf);
    } else {
      NotPerRow(O, K, f, keys, e, base);
    }
  }

  lemma {:induction false} NotPerRow(O: Ops, K: Kernels, f: Frame, keys: seq<string>, e: Expr, base: Base)
    requires HasAggLeaf(e) && !(Collect(e, []).Some? && Touches(Collect(e, []).value, f.columns))
    ensures !LowerApply(O, K, f, keys, Expression(e), base).PerRow?
  {
    hide ExprApply, Rewrite, HasAggLeaf;
  }

  /** Every column op of the expression is the one operation, over no keys. */
  ghost predicate UsesOnly(e: Expr, key: OpKey)
    decreases e
  {
    match e
    case ColumnOpNode(arg, spec) =>
      && UsesOnly(arg, key) && (spec.column2.Some? ==> UsesOnly(spec.column2.value, key))
      && spec.over.None? && spec.cagg.None? && KeyOf(spec) == key
    case Un(_, arg) => UsesOnly(arg, key)
    case Bin(_, l, r) => UsesOnly(l, key) && UsesOnly(r, key)
    case Select(c, a, b) => UsesOnly(c, key) && UsesOnly(a, key) && UsesOnly(b, key)
    case _ => true
  }

  lemma {:induction false} UsesOnlyRowByRow(O: Ops, e: Expr, key: OpKey)
    requires UsesOnly(e, key) && Elementwise(O, key)
    ensures RowByRow(O, e)
    decreases e
  {
    hide Elementwise;
    match e {
      case Un(_, arg) => UsesOnlyRowByRow(O, arg, key);
      case Bin(_, l, r) =>
        UsesOnlyRowByRow(O, l, key);
        UsesOnlyRowByRow(O, r, key);
      case Select(c, a, b) =>
        UsesOnlyRowByRow(O, c, key);
        UsesOnlyRowByRow(O, a, key);
        UsesOnlyRowByRow(O, b, key);
      case ColumnOpNode(arg, spec) =>
        UsesOnlyRowByRow(O, arg, key);
        if spec.column2.Some? { UsesOnlyRowByRow(O, spec.column2.value, key); }
      case _ =>
    }
  }

  /** The function that is one operation on a column, and a frame that tells two groups apart by a choice of rows. */
  function OneOp(key: OpKey, second: bool): Expr {
    ColumnOpNode(Col("x"), ColumnOp(key.op, if second then Some(Col("y")) else None, key.a, key.b, key.text, None, None, 0, None))
  }

  function Chosen(v: seq<Val>, w: seq<Val>, p: nat -> bool): Frame
    requires |v| == |w|
  {
    Frame({"x", "y", "k"},
          seq(|v|, i requires 0 <= i < |v| => map["x" := v[i], "y" := w[i], "k" := VI(if p(i) then 1 else 0)]))
  }

  lemma {:induction false} ChosenUsual(key: OpKey, v: seq<Val>, w: seq<Val>, p: nat -> bool, second: bool)
    requires |v| == |w|
    ensures Usual(Chosen(v, w, p), ["k"], OneOp(key, second)) && UsesOnly(OneOp(key, second), key)
    ensures forall i | 0 <= i < |v| :: Label(Chosen(v, w, p).rows[i], ["k"]) == [VI(if p(i) then 1 else 0)]
  {
    assert KeySet(["k"]) == {"k"} by { assert ["k"][0] == "k"; }
  }

  lemma {:induction false} ChosenApplied(O: Ops, K: Kernels, key: OpKey, v: seq<Val>, w: seq<Val>, p: nat -> bool, second: bool)
    requires HonestOps(O) && |v| == |w|
    ensures LowerApply(O, K, Chosen(v, w, p), ["k"], Expression(OneOp(key, second)), TI) ==
            PerRow(O.run(key, v, if second then Some(w) else None))
  {
    hide HonestOps, LowerApply;
    var e, f := OneOp(key, second), Chosen(v, w, p);
    HonestEngine(O);
    ChosenUsual(key, v, w, p, second);
    ApplyPlain(O, K, f, ["k"], e, TI);
    assert Column(O, K, Col("x"), f.rows) == v && Column(O, K, Col("y"), f.rows) == w;
    var out := O.run(key, v, if second then Some(w) else None);
    forall i: nat | i < |v| ensures At(O, K, e, f.rows, i) == out[i] { assert Whole(O, K, e, f.rows) == out; }
    assert Column(O, K, e, f.rows) == out;
    assert Usable(Col("x"), f.columns) && (second ==> Usable(Col("y"), f.columns));
    assert OpsRun(O, f, Col("x")) && OpsRun(O, f, Col("y")) && OpsRun(O, f, e) && Usable(e, f.columns);
  }

  lemma {:induction false} ChosenRun(O: Ops, K: Kernels, key: OpKey, v: seq<Val>, w: seq<Val>, p: nat -> bool, second: bool, i: nat)
    requires |v| == |w| && i < |v| && p(i)
    ensures GroupRun(O, K, Chosen(v, w, p).rows, ["k"], OneOp(key, second), i) ==
            CellAt(O.run(key, Picked(v, p), if second then Some(Picked(w, p)) else None), Place(p, i))
  {
    hide Label, Members, Place, RowsWhere, Picked;
    var e, rows := OneOp(key, second), Chosen(v, w, p).rows;
    ChosenUsual(key, v, w, p, second);
    var q := InGroup(rows, ["k"], [VI(1)]);
    PlaceInGroup(rows, ["k"], i);
    forall j: nat | j < |v| ensures q(j) == p(j) { assert VI(1) != VI(0); }
    WhereSame(|v|, q, p, RowAt(rows));
    PlaceSame(q, p, i);
    var sub := RowsWhere(|v|, p, RowAt(rows));
    PickedCells(K, rows, "x", v, p);
    PickedCells(K, rows, "y", w, p);
    var leaf := Everywhere(Leaf(O.E, sub));
    assert LeafColumn(O, K, Col("x"), sub, leaf) == EvalAll(K, Col("x"), sub);
    assert Column(O, K, Col("y"), sub) == EvalAll(K, Col("y"), sub);
  }

  lemma {:induction false} PlaceSame(p: nat -> bool, q: nat -> bool, i: nat)
    requires forall j | 0 <= j < i :: p(j) == q(j)
    ensures Place(p, i) == Place(q, i)
  {
    if i > 0 { PlaceSame(p, q, i - 1); }
  }

  lemma {:induction false} PickedCells(K: Kernels, rows: seq<Cells>, c: string, v: seq<Val>, p: nat -> bool)
    requires |rows| == |v| && forall i | 0 <= i < |rows| :: c in rows[i] && rows[i][c] == v[i]
    ensures EvalAll(K, Col(c), RowsWhere(|rows|, p, RowAt(rows))) == Picked(v, p)
  {
    hide RowsWhere, ValuesWhere;
    EvalWhere(K, Col(c), |rows|, p, RowAt(rows), ValueAt(v));
  }

  /** Two lists that give each chosen position the same are the same choice. */
  lemma {:induction false} PickedIs(s: seq<Val>, r: seq<Val>, p: nat -> bool)
    requires |s| == Place(p, |r|) && forall i | 0 <= i < |r| && p(i) :: CellAt(s, Place(p, i)) == r[i]
    ensures s == Picked(r, p)
  {
    hide Place, ValuesWhere;
    forall i | 0 <= i < |r| && p(i) ensures Place(p, i) < |s| && s[Place(p, i)] == ValueAt(r)(i) { PlaceGrows(p, i, |r|); }
    ValuesPlaced(s, |r|, p, ValueAt(r));
  }

  /** From the lowering of the one-operation function on the frames that tell two groups apart. */
  lemma {:induction false} PickedByGroups(O: Ops, K: Kernels, key: OpKey, v: seq<Val>, w: Option<seq<Val>>, p: nat -> bool)
    requires HonestOps(O) && (w.Some? ==> |w.value| == |v|)
    requires var y := if w.Some? then w.value else v; GroupWise(O, K, Chosen(v, y, p), ["k"], OneOp(key, w.Some?), TI)
    ensures O.run(key, Picked(v, p), PickedToo(w, p)) == Picked(O.run(key, v, w), p)
  {
    hide HonestOps, LowerApply, GroupRun, Place, ValuesWhere, Chosen, OneOp;
    var y := if w.Some? then w.value else v;
    var f, e := Chosen(v, y, p), OneOp(key, w.Some?);
    HonestEngine(O);
    ChosenApplied(O, K, key, v, y, p, w.Some?);
    ChosenHeight(v, y, p);
    OneOpPlain(key, w.Some?);
    var run := RunAt(O, K, f.rows, ["k"], e);
    ValuesAll(|v|, Always(), run);
    PlaceOfValue(|v|, p, ValueAt(v));
    forall i | 0 <= i < |v| && p(i) ensures CellAt(O.run(key, Picked(v, p), PickedToo(w, p)), Place(p, i)) == O.run(key, v, w)[i] {
      ChosenRun(O, K, key, v, y, p, w.Some?, i);
    }
    PickedIs(O.run(key, Picked(v, p), PickedToo(w, p)), O.run(key, v, w), p);
  }

  lemma {:induction false} ChosenHeight(v: seq<Val>, w: seq<Val>, p: nat -> bool)
    requires |v| == |w|
    ensures |Chosen(v, w, p).rows| == |v|
  {
  }

  lemma {:induction false} OneOpPlain(key: OpKey, second: bool)
    ensures !HasAggLeaf(OneOp(key, second))
  {
  }

  /** Every group function built of an operation is lowered to its group by group run, on every frame, if and only if
      the operation works row by row. */
  lemma {:induction false} ElementwiseExact(O: Ops, K: Kernels, key: OpKey)
    requires HonestOps(O)
    ensures Elementwise(O, key) <==>
            forall f, keys, e, base | Usual(f, keys, e) && UsesOnly(e, key) :: GroupWise(O, K, f, keys, e, base)
  {
    hide HonestOps, Usual, UsesOnly, GroupWise, Picked;
    if Elementwise(O, key) {
      forall f, keys, e, base | Usual(f, keys, e) && UsesOnly(e, key) ensures GroupWise(O, K, f, keys, e, base) {
        UsesOnlyRowByRow(O, e, key);
        RowByRowAgrees(O, K, f, keys, e, base);
      }
    }
    if forall f, keys, e, base | Usual(f, keys, e) && UsesOnly(e, key) :: GroupWise(O, K, f, keys, e, base) {
      forall v, w: Option<seq<Val>>, p | w.Some? ==> |w.value| == |v| ensures O.run(key, Picked(v, p), PickedToo(w, p)) == Picked(O.run(key, v, w), p) {
        ChosenUsual(key, v, if w.Some? then w.value else v, p, w.Some?);
        PickedByGroups(O, K, key, v, w, p);
      }
    }
  }

  // ---- a running sum over a group's sum ----------------------------------------------------------------------------

  const CUM_SUM := OpKey("dftu.series.cumsum", CI(0), CI(0), None)
  const SUM_V := Agg("sum", Some(Col("v")), None, 0.0, None)

  /** lambda g: g["v"].cum_sum() / g["v"].sum() */
  const SHARE :=
    Bin(Arith(Div), ColumnOpNode(Col("v"), ColumnOp(CUM_SUM.op, None, CI(0), CI(0), None, None, None, 0, None)), AggLeaf(SUM_V))

  /** One row of v = 1 in one group, one of v = 2 in another. */
  const ROW_A: Cells := map["k" := VI(0), "v" := VI(1)]
  const ROW_B: Cells := map["k" := VI(1), "v" := VI(2)]
  const TWO_GROUPS := Frame({"k", "v"}, [ROW_A, ROW_B])

  ghost predicate Sums(O: Ops) {
    && O.run(CUM_SUM, [VI(1), VI(2)], None) == [VI(1), VI(3)] && O.run(CUM_SUM, [VI(2)], None) == [VI(2)]
    && O.E.aggregate(SUM_V, [ROW_B]) == VI(2)
  }

  lemma {:induction false} TwoGroups()
    ensures Proper(TWO_GROUPS, ["k"]) && Foreign(SHARE) && Label(ROW_A, ["k"]) == [VI(0)] && Label(ROW_B, ["k"]) == [VI(1)]
    ensures Collect(SHARE, []) == Some(["v"]) && Touches(["v"], TWO_GROUPS.columns)
  {
    assert KeySet(["k"]) == {"k"} by { assert ["k"][0] == "k"; }
    assert Label(ROW_A, ["k"]) == [VI(0)] && Label(ROW_B, ["k"]) == [VI(1)];
    assert Mentions(SHARE.left) == {"v"} && Mentions(SHARE.right) == {};
    assert !Own("v") && !Own("k");
    assert AddNew([], "v") == ["v"];
    assert Collect(Col("v"), []) == Some(["v"]);
    assert AddAll(["v"], []) == ["v"];
    assert Collect(SHARE.left, []) == Some(["v"]) && Collect(SHARE.right, ["v"]) == Some(["v"]);
    assert ["v"][0] in TWO_GROUPS.columns;
  }

  lemma {:induction false} TwoGroupsRows()
    ensures Members(TWO_GROUPS.rows, ["k"], [VI(1)]) == [ROW_B] && Members(TWO_GROUPS.rows[..1], ["k"], [VI(1)]) == []
    ensures KeyedFrame(TWO_GROUPS, ["k"]).rows == TWO_GROUPS.rows
  {
    TwoGroups();
    assert TWO_GROUPS.rows[1..] == [ROW_B] && TWO_GROUPS.rows[..1] == [ROW_A];
    assert Members([ROW_B], ["k"], [VI(1)]) == [ROW_B] by { assert [ROW_B][1..] == []; }
    assert Members([ROW_A], ["k"], [VI(1)]) == [] by { assert [ROW_A][1..] == []; }
    var p, row := KeyedRows(TWO_GROUPS.rows, ["k"]), RowAt(TWO_GROUPS.rows);
    assert RowsWhere(1, p, row) == RowsWhere(0, p, row) + [ROW_A];
    assert RowsWhere(2, p, row) == RowsWhere(1, p, row) + [ROW_B];
  }

  lemma {:induction false} ShareValue(O: Ops, K: Kernels, rows: seq<Cells>, leaf: Cells -> Agg -> Val, i: nat, sums: seq<Val>)
    requires i < |rows| && i < |sums| && sums[i].VI? && leaf(rows[i])(SUM_V) == VI(2)
    requires O.run(CUM_SUM, LeafColumn(O, K, Col("v"), rows, leaf), None) == sums
    ensures AtLeaves(O, K, SHARE, rows, leaf, i) == VF(sums[i].i as real / 2.0)
  {
    hide LeafColumn;
    assert SUM_V.(out := None) == SUM_V;
    assert AtLeaves(O, K, SHARE.left, rows, leaf, i) == sums[i] && AtLeaves(O, K, SHARE.right, rows, leaf, i) == VI(2);
  }

  lemma {:induction false} ShareColumns(O: Ops, K: Kernels, leaf: Cells -> Agg -> Val, own: Cells -> Agg -> Val)
    ensures LeafColumn(O, K, Col("v"), TWO_GROUPS.rows, leaf) == [VI(1), VI(2)] && LeafColumn(O, K, Col("v"), [ROW_B], own) == [VI(2)]
  {
  }

  lemma {:induction false} ShareTaken(O: Ops)
    ensures Takes(O, KeyedFrame(TWO_GROUPS, ["k"]), SHARE)
  {
  }

  /** The running share runs on through the groups: the second group's row gets 3 / 2, and 2 / 2 group by group. */
  lemma {:induction false} ShareRunsOn(O: Ops, K: Kernels)
    requires HonestOps(O) && Sums(O)
    ensures var out := LowerApply(O, K, TWO_GROUPS, ["k"], Expression(SHARE), TI);
            && out.PerRow? && |out.values| == 2 && out.values[1] == VF(1.5)
            && GroupRun(O, K, TWO_GROUPS.rows, ["k"], SHARE, 1) == VF(1.0)
  {
    hide HonestOps, LowerApply, Members, Label, RowsWhere, AtLeaves;
    var rows := TWO_GROUPS.rows;
    TwoGroups();
    TwoGroupsRows();
    ApplyPerRow(O, K, TWO_GROUPS, ["k"], SHARE, TI);
    ShareTaken(O);
    var leaf := RowLeaf(O.E, rows, ["k"]);
    var own := Everywhere(Leaf(O.E, [ROW_B]));
    ShareColumns(O, K, leaf, own);
    ShareValue(O, K, rows, leaf, 1, [VI(1), VI(3)]);
    ShareValue(O, K, [ROW_B], own, 0, [VI(2)]);
    PlaceInGroup(rows, ["k"], 1);
  }
}
