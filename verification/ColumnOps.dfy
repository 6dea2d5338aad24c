/** Whole-column operations inside expressions: let-lifted into numbered temporary columns, then run one after the
    other eagerly, or appended to a plan as steps; both against the direct meaning of the nested expression.

    The registered operations and the group transforms are functions from columns to columns; a plan stands for the
    rows it yields. Columns whose names start with `__dftu_cop_` or `__dftu_over_` are made here. */
module ColumnOps {
  import opened Options
  import opened Text
  import opened Exprs
  import opened PostOrder
  import opened GroupBy

  const OVER_ROW := "__dftu_over_row__"
  const OVER_VALUE := "__dftu_over_v__"

  function CopName(i: nat): string { "__dftu_cop_" + Digits(i) + "__" }

  predicate IsTemporary(name: string) { IsPrefix("__dftu_cop_", name) }

  /** A name the lifting or an `over` makes. */
  predicate Reserved(name: string) { IsTemporary(name) || IsPrefix("__dftu_over_", name) }

  lemma CopNamesDiffer(i: nat, j: nat)
    ensures CopName(i) == CopName(j) ==> i == j
    ensures Reserved(CopName(i)) && IsTemporary(CopName(i)) && CopName(i) != OVER_ROW && CopName(i) != OVER_VALUE
    ensures CopName(i) + "b" != CopName(j) && CopName(i) + "b" != OVER_ROW && Reserved(CopName(i) + "b")
  {
    var a, b := CopName(i), CopName(j);
    assert a[..11] == "__dftu_cop_" && a[7] == 'c' && OVER_ROW[7] == 'o' && OVER_VALUE[7] == 'o';
    if a == b {
      assert a[11..|a| - 2] == Digits(i) && b[11..|b| - 2] == Digits(j);
      DigitsInjective(i, j);
    }
    assert (a + "b")[|a|] == 'b' && b[|b| - 1] == '_';
    assert (a + "b")[7] == 'c' && (a + "b")[..11] == "__dftu_cop_";
  }

  // ---- the operations ----------------------------------------------------------------------------------

  /** What an operation is looked up and run by. */
  datatype OpKey = OpKey(op: string, a: Const, b: Const, text: Option<string>)

  function KeyOf(spec: ColumnOp): OpKey { OpKey(spec.cop, spec.ca, spec.cb, spec.text) }

  datatype Ops = Ops(
    E: Engine,
    run: (OpKey, seq<Val>, Option<seq<Val>>) -> seq<Val>,
    transform: (OpKey, string, int, seq<seq<Val>>, seq<Val>) -> seq<Val>,
    leftJoin: (seq<Cells>, seq<Cells>, seq<string>) -> seq<Cells>)

  function LeftPairs(left: seq<Cells>, right: seq<Cells>, keys: seq<string>): seq<Cells> {
    if left == [] then []
    else
      var ps := PairsOf(left[0], right, keys);
      (if ps == [] then [left[0]] else ps) + LeftPairs(left[1..], right, keys)
  }

  /** The columns an aggregate reads. */
  function AggReads(a: Agg): set<string> {
    (if a.value.Some? then Reads(a.value.value) else {}) + if a.aby.Some? then Reads(a.aby.value) else {}
  }

  /** Operations keep the height of their column; the left join keeps unmatched rows, in any order; an aggregate depends
      on the columns it reads alone. */
  ghost predicate HonestOps(O: Ops) {
    && Honest(O.E)
    && (forall k, v, w :: |O.run(k, v, w)| == |v|)
    && (forall k, kind, n, ls, v :: |O.transform(k, kind, n, ls, v)| == |v|)
    && (forall l, r, keys :: multiset(O.leftJoin(l, r, keys)) == multiset(LeftPairs(l, r, keys)))
    && (forall a, rows, names | AggReads(a) <= names :: O.E.aggregate(a, rows) == O.E.aggregate(a, ProjectAll(rows, names)))
  }

  // ---- the direct meaning --------------------------------------------------------------------------------

  function Labels(rows: seq<Cells>, keys: seq<string>): seq<seq<Val>> {
    seq(|rows|, i requires 0 <= i < |rows| => Label(rows[i], keys))
  }

  function Over(spec: ColumnOp): seq<string> { if spec.over.Some? then spec.over.value else [] }

  /** An aggregate's `over`: each row's group value; without keys, the frame's value as a float. */
  function AggColumn(E: Engine, rows: seq<Cells>, keys: seq<string>, a: Agg): seq<Val> {
    seq(|rows|, i requires 0 <= i < |rows| =>
      if keys == [] then Float(AggOf(E, a, rows)) else AggOf(E, a, Members(rows, keys, Label(rows[i], keys))))
  }

  function Float(v: Val): Val { if IsNum(v) then VF(NumOf(v)) else Fault }

  function RunOp(O: Ops, spec: ColumnOp, labels: seq<seq<Val>>, v: seq<Val>, w: Option<seq<Val>>): seq<Val> {
    if spec.over.None? then O.run(KeyOf(spec), v, w)
    else O.transform(KeyOf(spec), if spec.kind.Some? then spec.kind.value else "", spec.n, labels, v)
  }

  /** The column an operation gives over a frame, from its operands' columns. */
  function OpColumn(O: Ops, spec: ColumnOp, rows: seq<Cells>, v: seq<Val>, w: Option<seq<Val>>): seq<Val> {
    if spec.cagg.Some? then AggColumn(O.E, rows, Over(spec), spec.cagg.value)
    else RunOp(O, spec, Labels(rows, Over(spec)), v, w)
  }

  /** The whole column a column-op node stands for. */
  function Whole(O: Ops, K: Kernels, e: Expr, rows: seq<Cells>): seq<Val>
    requires e.ColumnOpNode?
    decreases e, 0
  {
    var spec := e.spec;
    OpColumn(O, spec, rows, Column(O, K, e.carg, rows),
             if spec.column2.Some? then Some(Column(O, K, spec.column2.value, rows)) else None)
  }

  /** The value of an expression on one row of a frame, its column ops read as the whole columns they are. */
  function At(O: Ops, K: Kernels, e: Expr, rows: seq<Cells>, i: nat): Val
    requires i < |rows|
    decreases e, 1
  {
    match e
    case ColumnOpNode(_, _) =>
      var w := Whole(O, K, e, rows);
      if i < |w| then w[i] else Fault
    case Un(op, arg) => UnVal(K, op, At(O, K, arg, rows, i))
    case Bin(op, l, r) => BinVal(K, op, At(O, K, l, rows, i), At(O, K, r, rows, i))
    case Select(c, a, b) =>
      SelectVal(At(O, K, c, rows, i), At(O, K, a, rows, i), IsScalar(a), At(O, K, b, rows, i), IsScalar(b))
    case _ => Eval(K, e, Row(rows[i], []))
  }

  /** An expression as a column of a frame. */
  function Column(O: Ops, K: Kernels, e: Expr, rows: seq<Cells>): seq<Val>
    decreases e, 2
  { seq(|rows|, i requires 0 <= i < |rows| => At(O, K, e, rows, i)) }

  // ---- the three kinds of operation, spelled out ---------------------------------------------------------------

  ghost predicate HaveKeys(rows: seq<Cells>, keys: seq<string>) { forall j, k | 0 <= j < |rows| && k in keys :: k in rows[j] }

  /** An aggregate over keys: each row's cell is the aggregate of the rows that agree with it on every key. */
  lemma {:induction false} AggregateOver(O: Ops, K: Kernels, arg: Expr, spec: ColumnOp, rows: seq<Cells>, keys: seq<string>, a: Agg, i: nat)
    requires spec.cagg == Some(a) && spec.over == Some(keys) && keys != [] && HaveKeys(rows, keys) && i < |rows|
    ensures At(O, K, ColumnOpNode(arg, spec), rows, i) ==
            O.E.aggregate(a.(out := None), RowsWhere(|rows|, Agreeing(rows, rows[i], keys), RowAt(rows)))
  {
    hide RowsWhere, Members, Label, Agreeing;
    GroupOfRow(rows, |rows|, rows[i], keys);
    assert rows[..|rows|] == rows;
    var e := ColumnOpNode(arg, spec);
    assert Whole(O, K, e, rows) == AggColumn(O.E, rows, keys, a);
    assert At(O, K, e, rows, i) == Whole(O, K, e, rows)[i];
  }

  /** Over no keys it is the aggregate of all rows, as a float. */
  lemma AggregateWhole(O: Ops, K: Kernels, arg: Expr, spec: ColumnOp, rows: seq<Cells>, a: Agg, i: nat)
    requires spec.cagg == Some(a) && (spec.over == None || spec.over == Some([])) && i < |rows|
    ensures var v := O.E.aggregate(a.(out := None), rows);
            At(O, K, ColumnOpNode(arg, spec), rows, i) ==
            match v case VI(n) => VF(n as real) case VF(r) => v case VB(b) => VF(if b then 1.0 else 0.0) case _ => Fault
  {
    var e := ColumnOpNode(arg, spec);
    assert Over(spec) == [] && Whole(O, K, e, rows) == AggColumn(O.E, rows, [], a);
    assert At(O, K, e, rows, i) == Whole(O, K, e, rows)[i] == Float(O.E.aggregate(a.(out := None), rows));
  }

  /** The operation's arguments: its operand as a column, and its second operand's, if it has one. */
  function Operands(O: Ops, K: Kernels, arg: Expr, spec: ColumnOp, rows: seq<Cells>): (seq<Val>, Option<seq<Val>>) {
    (Column(O, K, arg, rows), if spec.column2.Some? then Some(Column(O, K, spec.column2.value, rows)) else None)
  }

  /** A registered operation runs once over the whole column, with the parameters it was built with. */
  lemma OperationRuns(O: Ops, K: Kernels, arg: Expr, spec: ColumnOp, rows: seq<Cells>, i: nat)
    requires HonestOps(O) && spec.cagg == None && spec.over == None && i < |rows|
    ensures var (v, w) := Operands(O, K, arg, spec, rows);
            At(O, K, ColumnOpNode(arg, spec), rows, i) == O.run(OpKey(spec.cop, spec.ca, spec.cb, spec.text), v, w)[i]
  {
    var (v, w) := Operands(O, K, arg, spec, rows);
    var e := ColumnOpNode(arg, spec);
    assert |v| == |rows| && Whole(O, K, e, rows) == O.run(OpKey(spec.cop, spec.ca, spec.cb, spec.text), v, w);
    assert At(O, K, e, rows, i) == Whole(O, K, e, rows)[i];
  }

  /** The labels a transform is given: row by row, the cells of all its keys in order. */
  ghost predicate LabelsOver(rows: seq<Cells>, keys: seq<string>, labels: seq<seq<Val>>) {
    && |labels| == |rows|
    && forall j | 0 <= j < |rows| ::
        |labels[j]| == |keys| && forall k | 0 <= k < |keys| :: keys[k] in rows[j] && SameCell(labels[j][k], rows[j][keys[k]])
  }

  /** A transform over keys runs once over the whole column, told each row's group by all its keys. */
  lemma TransformOver(O: Ops, K: Kernels, arg: Expr, spec: ColumnOp, rows: seq<Cells>, keys: seq<string>, i: nat)
    requires HonestOps(O) && spec.cagg == None && spec.over == Some(keys) && spec.kind.Some? && HaveKeys(rows, keys) && i < |rows|
    ensures LabelsOver(rows, keys, Labels(rows, keys))
    ensures At(O, K, ColumnOpNode(arg, spec), rows, i) ==
            O.transform(OpKey(spec.cop, spec.ca, spec.cb, spec.text), spec.kind.value, spec.n, Labels(rows, keys),
                        Operands(O, K, arg, spec, rows).0)[i]
  {
    var e := ColumnOpNode(arg, spec);
    var v := Operands(O, K, arg, spec, rows).0;
    assert forall k | 0 <= k < |keys| :: keys[k] in keys;
    var out := O.transform(OpKey(spec.cop, spec.ca, spec.cb, spec.text), spec.kind.value, spec.n, Labels(rows, keys), v);
    assert |v| == |rows| && Whole(O, K, e, rows) == out;
    assert At(O, K, e, rows, i) == out[i];
  }

  // ---- `split_column_ops` ------------------------------------------------------------------------------------

  datatype Temp = Temp(name: string, arg: Expr, spec: ColumnOp)
  datatype Lifted = Lifted(e: Expr, ops: seq<Temp>)

  function Lift(e: Expr, ops: seq<Temp>): (l: Lifted)
    ensures ops <= l.ops
    decreases e
  {
    match e
    case ColumnOpNode(arg, spec) =>
      var x := Lift(arg, ops);
      var y := if spec.column2.Some? then Lift(spec.column2.value, x.ops) else Lifted(arg, x.ops);
      var name := CopName(|y.ops|);
      Lifted(Col(name), y.ops + [Temp(name, x.e, spec.(column2 := if spec.column2.Some? then Some(y.e) else None))])
    case Un(op, arg) =>
      var x := Lift(arg, ops);
      Lifted(Un(op, x.e), x.ops)
    case Bin(op, l, r) =>
      var x := Lift(l, ops);
      var y := Lift(r, x.ops);
      Lifted(Bin(op, x.e, y.e), y.ops)
    case Select(c, a, b) =>
      var x := Lift(c, ops);
      var y := Lift(a, x.ops);
      var z := Lift(b, y.ops);
      Lifted(Select(x.e, y.e, z.e), z.ops)
    case _ => Lifted(e, ops)
  }

  class OpSplitter {
    var ops: seq<Temp>

    constructor ()
      ensures ops == []
    { ops := []; }

    method Run(e: Expr) returns (out: Expr)
      modifies this
      ensures Lifted(out, ops) == Lift(e, old(ops))
      decreases e
    {
      match e
      case ColumnOpNode(arg, spec) =>
        var x := Run(arg);
        var spec' := spec;
        if spec.column2.Some? {
          var y := Run(spec.column2.value);
          spec' := spec.(column2 := Some(y));
        }
        var name := CopName(|ops|);
        ops := ops + [Temp(name, x, spec')];
        return Col(name);
      case Un(op, arg) =>
        var x := Run(arg);
        return Un(op, x);
      case Bin(op, l, r) =>
        var x := Run(l);
        var y := Run(r);
        return Bin(op, x, y);
      case Select(c, a, b) =>
        var x := Run(c);
        var y := Run(a);
        var z := Run(b);
        return Select(x, y, z);
      case _ => return e;
    }
  }

  predicate HasOp(e: Expr) {
    match e
    case ColumnOpNode(_, _) => true
    case Un(_, arg) => HasOp(arg)
    case Bin(_, l, r) => HasOp(l) || HasOp(r)
    case Select(c, a, b) => HasOp(c) || HasOp(a) || HasOp(b)
    case _ => false
  }

  /** The source columns an expression names, inside its column ops too. */
  function Names(e: Expr): set<string>
    decreases e
  {
    match e
    case Col(n) => {n}
    case Un(_, arg) => Names(arg)
    case Bin(_, l, r) => Names(l) + Names(r)
    case Select(c, a, b) => Names(c) + Names(a) + Names(b)
    case ColumnOpNode(arg, spec) => Names(arg) + if spec.column2.Some? then Names(spec.column2.value) else {}
    case _ => {}
  }

  /** A source column, or one of the first `j` temporaries. */
  ghost predicate Upto(n: string, j: nat) { !Reserved(n) || exists i :: 0 <= i < j && n == CopName(i) }

  /** The temporary at `j` is named by its number, and its operands are plain expressions over source columns and
      earlier temporaries. */
  ghost predicate WellPlaced(t: Temp, j: nat) {
    && t.name == CopName(j) && !HasOp(t.arg) && (forall n | n in Reads(t.arg) :: Upto(n, j))
    && (t.spec.column2.Some? ==> !HasOp(t.spec.column2.value) && forall n | n in Reads(t.spec.column2.value) :: Upto(n, j))
  }

  lemma UptoMore(e: Expr, j: nat, k: nat)
    requires j <= k && forall n | n in Reads(e) :: Upto(n, j)
    ensures forall n | n in Reads(e) :: Upto(n, k)
  {
    forall n | n in Reads(e) ensures Upto(n, k) {
      if Reserved(n) { var i :| 0 <= i < j && n == CopName(i); }
    }
  }

  /** Lifting leaves no column op in the expression, and yields a temporary exactly when there was one. */
  lemma {:induction false} LiftClears(e: Expr, ops: seq<Temp>)
    ensures !HasOp(Lift(e, ops).e) && (HasOp(e) <==> |Lift(e, ops).ops| > |ops|)
    decreases e
  {
    match e {
      case Un(_, arg) => LiftClears(arg, ops);
      case Bin(_, l, r) =>
        LiftClears(l, ops);
        LiftClears(r, Lift(l, ops).ops);
      case Select(c, a, b) =>
        var x := Lift(c, ops);
        LiftClears(c, ops);
        LiftClears(a, x.ops);
        LiftClears(b, Lift(a, x.ops).ops);
      case _ =>
    }
  }

  /** What the rewritten expression reads: source columns and the temporaries made so far. */
  lemma {:induction false} LiftReads(e: Expr, ops: seq<Temp>)
    requires forall n | n in Names(e) :: !Reserved(n)
    ensures forall n | n in Reads(Lift(e, ops).e) :: Upto(n, |Lift(e, ops).ops|)
    decreases e
  {
    match e {
      case Un(_, arg) => LiftReads(arg, ops);
      case Bin(_, l, r) =>
        var x := Lift(l, ops);
        LiftReads(l, ops);
        LiftReads(r, x.ops);
        UptoMore(x.e, |x.ops|, |Lift(e, ops).ops|);
      case Select(c, a, b) =>
        var x := Lift(c, ops);
        var y := Lift(a, x.ops);
        LiftReads(c, ops);
        LiftReads(a, x.ops);
        LiftReads(b, y.ops);
        UptoMore(x.e, |x.ops|, |Lift(e, ops).ops|);
        UptoMore(y.e, |y.ops|, |Lift(e, ops).ops|);
      case _ =>
    }
  }

  ghost predicate AllPlaced(ops: seq<Temp>) { forall j | 0 <= j < |ops| :: WellPlaced(ops[j], j) }

  lemma SnocPlaced(ops: seq<Temp>, t: Temp)
    requires AllPlaced(ops) && WellPlaced(t, |ops|)
    ensures AllPlaced(ops + [t])
  {
  }

  lemma NodePlaced(arg: Expr, spec: ColumnOp, ops: seq<Temp>)
    requires forall n | n in Names(ColumnOpNode(arg, spec)) :: !Reserved(n)
    requires AllPlaced(if spec.column2.Some? then Lift(spec.column2.value, Lift(arg, ops).ops).ops else Lift(arg, ops).ops)
    ensures AllPlaced(Lift(ColumnOpNode(arg, spec), ops).ops)
  {
    hide AllPlaced, HasOp, Upto;
    var x := Lift(arg, ops);
    var l := Lift(ColumnOpNode(arg, spec), ops);
    LiftClears(arg, ops);
    LiftReads(arg, ops);
    if spec.column2.Some? {
      var y := Lift(spec.column2.value, x.ops);
      LiftClears(spec.column2.value, x.ops);
      LiftReads(spec.column2.value, x.ops);
      UptoMore(x.e, |x.ops|, |y.ops|);
    }
    SnocPlaced(l.ops[..|l.ops| - 1], l.ops[|l.ops| - 1]);
    assert l.ops[..|l.ops| - 1] + [l.ops[|l.ops| - 1]] == l.ops;
  }

  /** Every temporary refers to earlier ones only. */
  lemma {:induction false} LiftPlaces(e: Expr, ops: seq<Temp>)
    requires (forall n | n in Names(e) :: !Reserved(n)) && AllPlaced(ops)
    ensures AllPlaced(Lift(e, ops).ops)
    decreases e
  {
    match e {
      case ColumnOpNode(arg, spec) =>
        var x := Lift(arg, ops);
        LiftPlaces(arg, ops);
        if spec.column2.Some? { LiftPlaces(spec.column2.value, x.ops); }
        NodePlaced(arg, spec, ops);
      case Un(_, arg) => LiftPlaces(arg, ops);
      case Bin(_, l, r) =>
        LiftPlaces(l, ops);
        LiftPlaces(r, Lift(l, ops).ops);
      case Select(c, a, b) =>
        var x := Lift(c, ops);
        LiftPlaces(c, ops);
        LiftPlaces(a, x.ops);
        LiftPlaces(b, Lift(a, x.ops).ops);
      case _ =>
    }
  }

  // ---- stages ---------------------------------------------------------------------------------------------------

  /** What a temporary's column holds, computed from the frame it is added to. */
  function TempValues(O: Ops, K: Kernels, src: seq<Cells>, rows: seq<Cells>, t: Temp): seq<Val> {
    OpColumn(O, t.spec, src, EvalAll(K, t.arg, rows),
             if t.spec.column2.Some? then Some(EvalAll(K, t.spec.column2.value, rows)) else None)
  }

  /** From one frame to the next: the same rows in order, what was known still there, one more column. */
  ghost predicate Stage(O: Ops, K: Kernels, src: seq<Cells>, rows: seq<Cells>, rows': seq<Cells>, t: Temp, j: nat) {
    && |rows| == |rows'| == |src| == |TempValues(O, K, src, rows, t)|
    && (forall i, n | 0 <= i < |rows| && Upto(n, j) :: n in rows[i] <==> n in rows'[i])
    && (forall i, n | 0 <= i < |rows| && Upto(n, j) && n in rows[i] :: rows[i][n] == rows'[i][n])
    && (forall i | 0 <= i < |rows| :: CopName(j) in rows'[i] && rows'[i][CopName(j)] == TempValues(O, K, src, rows, t)[i])
  }

  ghost predicate Stages(O: Ops, K: Kernels, ops: seq<Temp>, fs: seq<seq<Cells>>) {
    |fs| == |ops| + 1 && forall j | 0 <= j < |ops| :: Stage(O, K, fs[0], fs[j], fs[j + 1], ops[j], j)
  }

  lemma {:induction false} Persists(O: Ops, K: Kernels, ops: seq<Temp>, fs: seq<seq<Cells>>, j: nat, k: nat, n: string, i: nat)
    requires Stages(O, K, ops, fs) && j <= k <= |ops| && Upto(n, j) && i < |fs[0]|
    ensures |fs[j]| == |fs[k]| == |fs[0]|
    ensures (n in fs[j][i] <==> n in fs[k][i]) && (n in fs[j][i] ==> fs[j][i][n] == fs[k][i][n])
    decreases k - j
  {
    if j < k {
      assert Stage(O, K, fs[0], fs[k - 1], fs[k], ops[k - 1], k - 1);
      Persists(O, K, ops, fs, j, k - 1, n, i);
      assert Upto(n, k - 1) by { if Reserved(n) { var m :| 0 <= m < j && n == CopName(m); } }
    } else if j > 0 {
      assert Stage(O, K, fs[0], fs[j - 1], fs[j], ops[j - 1], j - 1);
    }
  }

  /** An expression over what is known at one stage has the same value at every later one. */
  lemma Settled(O: Ops, K: Kernels, ops: seq<Temp>, fs: seq<seq<Cells>>, e: Expr, j: nat, k: nat, i: nat)
    requires Stages(O, K, ops, fs) && j <= k <= |ops| && i < |fs[0]| && forall n | n in Reads(e) :: Upto(n, j)
    ensures |fs[j]| == |fs[k]| == |fs[0]|
    ensures Eval(K, e, Row(fs[j][i], [])) == Eval(K, e, Row(fs[k][i], []))
  {
    Persists(O, K, ops, fs, j, k, "", i);
    forall n | n in Reads(e)
      ensures (n in fs[j][i] <==> n in fs[k][i]) && (n in fs[j][i] ==> fs[j][i][n] == fs[k][i][n])
    {
      Persists(O, K, ops, fs, j, k, n, i);
    }
    EvalReads(K, e, Row(fs[j][i], []), Row(fs[k][i], []));
  }

  /** Lifting preserves meaning: over the frame reached after its temporaries, the rewritten expression has on every
      row the value of the nested one on the source. */
  lemma {:induction false} LiftMeans(O: Ops, K: Kernels, e: Expr, before: seq<Temp>, ops: seq<Temp>, fs: seq<seq<Cells>>, i: nat)
    requires Stages(O, K, ops, fs) && i < |fs[0]| && Lift(e, before).ops <= ops
    requires forall n | n in Names(e) :: !Reserved(n)
    ensures |fs[|Lift(e, before).ops|]| == |fs[0]|
    ensures Eval(K, Lift(e, before).e, Row(fs[|Lift(e, before).ops|][i], [])) == At(O, K, e, fs[0], i)
    ensures IsScalar(Lift(e, before).e) == IsScalar(e)
    decreases e
  {
    LiftReads(e, before);
    var m := |Lift(e, before).ops|;
    match e {
      case ColumnOpNode(arg, spec) => OpMeans(O, K, arg, spec, before, ops, fs, i);
      case Un(_, arg) => LiftMeans(O, K, arg, before, ops, fs, i);
      case Bin(_, l, r) =>
        var x := Lift(l, before);
        LiftReads(l, before);
        LiftMeans(O, K, l, before, ops, fs, i);
        LiftMeans(O, K, r, x.ops, ops, fs, i);
        Settled(O, K, ops, fs, x.e, |x.ops|, m, i);
      case Select(c, a, b) =>
        var x := Lift(c, before);
        var y := Lift(a, x.ops);
        LiftReads(c, before);
        LiftReads(a, x.ops);
        LiftMeans(O, K, c, before, ops, fs, i);
        LiftMeans(O, K, a, x.ops, ops, fs, i);
        LiftMeans(O, K, b, y.ops, ops, fs, i);
        Settled(O, K, ops, fs, x.e, |x.ops|, m, i);
        Settled(O, K, ops, fs, y.e, |y.ops|, m, i);
      case _ => PlainMeans(O, K, e, ops, fs, m, i);
    }
  }

  lemma {:induction false} PlainMeans(O: Ops, K: Kernels, e: Expr, ops: seq<Temp>, fs: seq<seq<Cells>>, m: nat, i: nat)
    requires Stages(O, K, ops, fs) && i < |fs[0]| && m <= |ops| && forall n | n in Reads(e) :: !Reserved(n)
    ensures |fs[m]| == |fs[0]| && Eval(K, e, Row(fs[m][i], [])) == Eval(K, e, Row(fs[0][i], []))
  {
    Settled(O, K, ops, fs, e, 0, m, i);
  }

  lemma {:induction false} OpMeans(O: Ops, K: Kernels, arg: Expr, spec: ColumnOp, before: seq<Temp>, ops: seq<Temp>,
                                   fs: seq<seq<Cells>>, i: nat)
    requires var e := ColumnOpNode(arg, spec);
             && Lift(e, before).ops <= ops && (forall n | n in Names(e) :: !Reserved(n))
    requires Stages(O, K, ops, fs) && i < |fs[0]|
    ensures var e := ColumnOpNode(arg, spec);
            && |fs[|Lift(e, before).ops|]| == |fs[0]|
            && Eval(K, Lift(e, before).e, Row(fs[|Lift(e, before).ops|][i], [])) == At(O, K, e, fs[0], i)
    decreases ColumnOpNode(arg, spec), 0
  {
    var e := ColumnOpNode(arg, spec);
    var x := Lift(arg, before);
    var l := Lift(e, before);
    var m := |l.ops| - 1;
    var t := l.ops[m];
    assert ops[m] == t;
    assert Stage(O, K, fs[0], fs[m], fs[m + 1], t, m);
    if spec.cagg.None? {
      LiftReads(arg, before);
      forall k | 0 <= k < |fs[0]| ensures EvalAll(K, t.arg, fs[m])[k] == At(O, K, arg, fs[0], k) {
        LiftMeans(O, K, arg, before, ops, fs, k);
        Settled(O, K, ops, fs, x.e, |x.ops|, m, k);
      }
      assert EvalAll(K, t.arg, fs[m]) == Column(O, K, arg, fs[0]);
      if spec.column2.Some? {
        var y := Lift(spec.column2.value, x.ops);
        forall k | 0 <= k < |fs[0]| ensures EvalAll(K, y.e, fs[m])[k] == At(O, K, spec.column2.value, fs[0], k) {
          LiftMeans(O, K, spec.column2.value, x.ops, ops, fs, k);
        }
        assert EvalAll(K, y.e, fs[m]) == Column(O, K, spec.column2.value, fs[0]);
      }
    }
    assert TempValues(O, K, fs[0], fs[m], t) == Whole(O, K, e, fs[0]);
  }

  // ---- aggregates over keys -----------------------------------------------------------------------------------------

  /** Rows numbered, joined with their groups and sorted back. */
  function Joined(E: Engine, rows: seq<Cells>, groups: seq<Cells>, keys: seq<string>): seq<Cells> {
    E.sortBy(E.join(Indexed(OVER_ROW, rows), groups, keys), OVER_ROW)
  }

  /** The group value joined back on the keys and sorted by row number: one value per row whose keys are not null. */
  function JoinedBack(E: Engine, K: Kernels, rows: seq<Cells>, keys: seq<string>, a: Agg, name: string): seq<Cells> {
    Joined(E, rows, E.groupBy(rows, keys, [a.(out := Some(name))]), keys)
  }

  function GroupValue(E: Engine, rows: seq<Cells>, keys: seq<string>, a: Agg): nat -> Val {
    (i: nat) => if i < |rows| then AggOf(E, a, Members(rows, keys, Label(rows[i], keys))) else Fault
  }

  lemma {:induction false} OneAgg(E: Engine, rows: seq<Cells>, keys: seq<string>, a: Agg, name: string)
    requires Honest(E) && Rectangular(rows, KeySet(keys)) && name !in keys
    ensures Grouped(E, rows, keys, [a.(out := Some(name))], E.groupBy(rows, keys, [a.(out := Some(name))]))
    ensures Outs([a.(out := Some(name))]) == {name}
  {
    hide Grouped;
    var aggs := [a.(out := Some(name))];
    assert aggs[0] in aggs;
    assert GroupBy.Names(keys, aggs);
  }

  lemma {:induction false} JoinedRows(E: Engine, rows: seq<Cells>, keys: seq<string>, a: Agg, name: string, groups: seq<Cells>)
    requires Honest(E) && Rectangular(rows, KeySet(keys)) && name !in keys && OVER_ROW !in keys && name != OVER_ROW
    requires Grouped(E, rows, keys, [a.(out := Some(name))], groups)
    ensures Joined(E, rows, groups, keys) == RowsWhere(|rows|, KeyedRows(rows, keys), JoinedRow(OVER_ROW, rows, keys, groups))
    ensures forall i | 0 <= i < |rows| && KeyedRows(rows, keys)(i) ::
              var r := JoinedRow(OVER_ROW, rows, keys, groups)(i);
              && r.Keys == rows[i].Keys + KeySet(keys) + {OVER_ROW, name} && r[name] == GroupValue(E, rows, keys, a)(i)
              && (forall n | n in rows[i] && n !in {OVER_ROW, name} :: r[n] == rows[i][n])
  {
    hide Honest, Grouped, PairsOf, RowsWhere, Label;
    var aggs := [a.(out := Some(name))];
    OneOut(a, name);
    forall i | 0 <= i < |rows|
      ensures PairsOf(Indexed(OVER_ROW, rows)[i], groups, keys) ==
              if KeyedRows(rows, keys)(i) then [JoinedRow(OVER_ROW, rows, keys, groups)(i)] else []
      ensures KeyedRows(rows, keys)(i) ==> Numbered(OVER_ROW, JoinedRow(OVER_ROW, rows, keys, groups)(i))
      ensures KeyedRows(rows, keys)(i) ==> JoinedRow(OVER_ROW, rows, keys, groups)(i)[OVER_ROW].i == i
    {
      MeetsGroup(E, OVER_ROW, rows, keys, aggs, groups, i);
    }
    JoinSorted(E, OVER_ROW, Indexed(OVER_ROW, rows), groups, keys, KeyedRows(rows, keys), JoinedRow(OVER_ROW, rows, keys, groups));
    forall i | 0 <= i < |rows| && KeyedRows(rows, keys)(i)
      ensures var r := JoinedRow(OVER_ROW, rows, keys, groups)(i);
              && r.Keys == rows[i].Keys + KeySet(keys) + {OVER_ROW, name} && r[name] == GroupValue(E, rows, keys, a)(i)
              && (forall n | n in rows[i] && n !in {OVER_ROW, name} :: r[n] == rows[i][n])
    {
      JoinedCells(E, rows, keys, a, name, groups, i);
    }
  }

  lemma {:induction false} OneOut(a: Agg, name: string)
    ensures Outs([a.(out := Some(name))]) == {name}
  {
    var aggs := [a.(out := Some(name))];
    assert aggs[0] in aggs;
  }

  lemma {:induction false} JoinedCells(E: Engine, rows: seq<Cells>, keys: seq<string>, a: Agg, name: string, groups: seq<Cells>, i: nat)
    requires i < |rows| && Keyed(rows, keys, i) && name != OVER_ROW && name !in keys && OVER_ROW !in keys
    requires Grouped(E, rows, keys, [a.(out := Some(name))], groups) && Outs([a.(out := Some(name))]) == {name}
    requires KeySet(keys) <= rows[i].Keys
    ensures var r := JoinedRow(OVER_ROW, rows, keys, groups)(i);
            && r.Keys == rows[i].Keys + KeySet(keys) + {OVER_ROW, name} && r[name] == GroupValue(E, rows, keys, a)(i)
            && (forall n | n in rows[i] && n !in {OVER_ROW, name} :: r[n] == rows[i][n])
  {
    hide Members;
    var at := Label(rows[i], keys);
    assert HasLabel(groups, keys, at);
    GroupRowAt(groups, keys, at);
    var g := GroupRow(groups, keys, at);
    var j :| 0 <= j < |groups| && groups[j] == g;
    assert Aggregated(E, rows, keys, [a.(out := Some(name))], g);
    assert [a.(out := Some(name))][0].out.value == name;
    var r := JoinedRow(OVER_ROW, rows, keys, groups)(i);
    assert r == Indexed(OVER_ROW, rows)[i] + g;
    forall n | n in rows[i] && n !in {OVER_ROW, name} ensures r[n] == rows[i][n] {
      if n in keys {
        var k :| 0 <= k < |keys| && keys[k] == n;
        assert Label(g, keys)[k] == at[k];
      }
    }
  }

  // ---- eager ------------------------------------------------------------------------------------------------------------

  /** `Columnar(e).apply(columns)`: nothing for an expression over no column, or over one that is missing. */
  function EagerValue(K: Kernels, e: Expr, f: Frame): Option<seq<Val>> {
    if Reads(e) == {} || !(Reads(e) <= f.columns) then None else Some(EvalAll(K, e, f.rows))
  }

  function SourceColumns(f: Frame): set<string> { set n | n in f.columns && !IsTemporary(n) }

  function EagerAggOver(E: Engine, K: Kernels, f: Frame, keys: seq<string>, a: Agg): Option<seq<Val>> {
    var names := SourceColumns(f);
    var rows := ProjectAll(f.rows, names);
    if !(KeySet(keys) <= names && AggReads(a) <= names) then None
    else if keys == [] then
      var groups := E.groupBy(rows, [], [a.(out := Some(OVER_VALUE))]);
      if groups == [] || OVER_VALUE !in groups[0] || !IsNum(groups[0][OVER_VALUE]) then None
      else Some(seq(|f.rows|, i requires 0 <= i < |f.rows| => Float(groups[0][OVER_VALUE])))
    else Some(EvalAll(K, Col(OVER_VALUE), JoinedBack(E, K, rows, keys, a, OVER_VALUE)))
  }

  /** The value of one temporary, where the source does not raise. */
  function EagerOp(O: Ops, K: Kernels, f: Frame, t: Temp): Option<seq<Val>> {
    var spec := t.spec;
    if spec.cagg.Some? then EagerAggOver(O.E, K, f, Over(spec), spec.cagg.value)
    else
      var v := EagerValue(K, t.arg, f);
      var w := if spec.column2.Some? then EagerValue(K, spec.column2.value, f) else None;
      if v.None? || (spec.column2.Some? && w.None?) then None
      else if spec.over.None? then Some(O.run(KeyOf(spec), v.value, w))
      else if spec.kind.None? || !(KeySet(Over(spec)) <= f.columns) then None
      else Some(O.transform(KeyOf(spec), spec.kind.value, spec.n, Labels(f.rows, Over(spec)), v.value))
  }

  function AddColumn(f: Frame, name: string, vs: seq<Val>): Frame
    requires |vs| == |f.rows|
  {
    Frame(f.columns + {name}, seq(|f.rows|, i requires 0 <= i < |f.rows| => f.rows[i][name := vs[i]]))
  }

  /** A frame whose columns are none of the library's own. */
  ghost predicate Plain(f: Frame) {
    && (forall i | 0 <= i < |f.rows| :: f.rows[i].Keys == f.columns) && forall n | n in f.columns :: !Reserved(n)
  }

  /** The source with the first `j` temporaries added. */
  ghost predicate Widened(src: Frame, f: Frame, j: nat) {
    && |f.rows| == |src.rows|
    && (forall i | 0 <= i < |f.rows| :: f.rows[i].Keys == f.columns)
    && (forall n :: n in f.columns <==> n in src.columns || exists i :: 0 <= i < j && n == CopName(i))
    && (forall i, n | 0 <= i < |f.rows| && n in src.columns ::
          n in src.rows[i] && n in f.rows[i] && f.rows[i][n] == src.rows[i][n])
  }

  /** Leaving the temporaries out gives the source back. */
  lemma {:induction false} SourceBack(src: Frame, f: Frame, j: nat)
    requires Plain(src) && Widened(src, f, j)
    ensures SourceColumns(f) == src.columns && ProjectAll(f.rows, src.columns) == src.rows
    ensures forall keys | KeySet(keys) <= src.columns :: Labels(f.rows, keys) == Labels(src.rows, keys)
  {
    forall n ensures n in SourceColumns(f) <==> n in src.columns {
      if i :| 0 <= i < j && n == CopName(i) { CopNamesDiffer(i, i); }
    }
    forall i | 0 <= i < |f.rows| ensures Project(f.rows[i], src.columns) == src.rows[i] {}
    forall keys | KeySet(keys) <= src.columns ensures Labels(f.rows, keys) == Labels(src.rows, keys) {
      forall i | 0 <= i < |f.rows| ensures Label(f.rows[i], keys) == Label(src.rows[i], keys) {
        assert forall k | 0 <= k < |keys| :: keys[k] in KeySet(keys);
      }
    }
  }

  ghost predicate AllKeyed(rows: seq<Cells>, keys: seq<string>) { forall i | 0 <= i < |rows| :: NonNull(Label(rows[i], keys)) }

  lemma {:induction false} UserKeys(src: Frame, keys: seq<string>)
    requires Plain(src) && KeySet(keys) <= src.columns
    ensures OVER_ROW !in keys && OVER_VALUE !in keys && Rectangular(src.rows, KeySet(keys))
    ensures forall j :: CopName(j) !in keys
  {
    assert Reserved(OVER_ROW) && Reserved(OVER_VALUE) by { assert OVER_ROW[..12] == "__dftu_over_" && OVER_VALUE[..12] == "__dftu_over_"; }
    forall n | n in keys ensures !Reserved(n) { assert n in KeySet(keys); }
    forall j: nat ensures CopName(j) !in keys { CopNamesDiffer(j, j); }
  }

  lemma {:induction false} JoinedBackIs(E: Engine, K: Kernels, rows: seq<Cells>, keys: seq<string>, a: Agg, name: string)
    ensures JoinedBack(E, K, rows, keys, a, name) == Joined(E, rows, E.groupBy(rows, keys, [a.(out := Some(name))]), keys)
  {
  }

  /** The joined-back column: the group's value of each row whose keys are not null, in input order; one per row exactly
      when no key is null. */
  lemma {:induction false} JoinedBackValues(E: Engine, K: Kernels, rows: seq<Cells>, keys: seq<string>, a: Agg, name: string)
    requires Honest(E) && Rectangular(rows, KeySet(keys)) && name !in keys && OVER_ROW !in keys && name != OVER_ROW && keys != []
    ensures EvalAll(K, Col(name), JoinedBack(E, K, rows, keys, a, name)) ==
            ValuesWhere(|rows|, KeyedRows(rows, keys), GroupValue(E, rows, keys, a))
    ensures |EvalAll(K, Col(name), JoinedBack(E, K, rows, keys, a, name))| == |rows| <==> AllKeyed(rows, keys)
    ensures AllKeyed(rows, keys) ==> EvalAll(K, Col(name), JoinedBack(E, K, rows, keys, a, name)) == AggColumn(E, rows, keys, a)
  {
    hide Honest, JoinedBack, Joined, Grouped, RowsWhere, Label, Members, ValuesWhere;
    var p, v := KeyedRows(rows, keys), GroupValue(E, rows, keys, a);
    var groups := E.groupBy(rows, keys, [a.(out := Some(name))]);
    var row := JoinedRow(OVER_ROW, rows, keys, groups);
    OneAgg(E, rows, keys, a, name);
    JoinedRows(E, rows, keys, a, name, groups);
    JoinedBackIs(E, K, rows, keys, a, name);
    forall i | 0 <= i < |rows| && p(i) ensures Eval(K, Col(name), Row(row(i), [])) == v(i) {}
    EvalWhere(K, Col(name), |rows|, p, row, v);
    ValuesAll(|rows|, p, v);
    forall i | 0 <= i < |rows| ensures p(i) <==> NonNull(Label(rows[i], keys)) {}
  }

  lemma {:induction false} FrameAgg(E: Engine, rows: seq<Cells>, a: Agg)
    requires Honest(E)
    ensures var groups := E.groupBy(rows, [], [a.(out := Some(OVER_VALUE))]);
            |groups| == 1 && OVER_VALUE in groups[0] && groups[0][OVER_VALUE] == AggOf(E, a, rows)
  {
    OneAgg(E, rows, [], a, OVER_VALUE);
    AllMembers(rows);
    var groups := E.groupBy(rows, [], [a.(out := Some(OVER_VALUE))]);
    assert Aggregated(E, rows, [], [a.(out := Some(OVER_VALUE))], groups[0]);
    assert Label(groups[0], []) == [] && [a.(out := Some(OVER_VALUE))][0].out.value == OVER_VALUE;
  }

  /** When an eager aggregate over keys runs, the column it gives, and when that column is full. */
  lemma {:induction false} EagerAggMeans(E: Engine, K: Kernels, src: Frame, f: Frame, j: nat, keys: seq<string>, a: Agg)
    requires Honest(E) && Plain(src) && Widened(src, f, j)
    ensures var vs := EagerAggOver(E, K, f, keys, a);
            && (vs.Some? <==>
                && KeySet(keys) <= src.columns && AggReads(a) <= src.columns
                && (keys == [] ==> IsNum(AggOf(E, a, src.rows))))
            && (vs.Some? && keys != [] ==>
                vs.value == ValuesWhere(|src.rows|, KeyedRows(src.rows, keys), GroupValue(E, src.rows, keys, a)))
            && (vs.Some? && |vs.value| == |src.rows| <==>
                && KeySet(keys) <= src.columns && AggReads(a) <= src.columns
                && (if keys == [] then IsNum(AggOf(E, a, src.rows)) else AllKeyed(src.rows, keys)))
            && (vs.Some? && |vs.value| == |src.rows| ==> vs.value == AggColumn(E, src.rows, keys, a))
  {
    hide Honest, JoinedBack, EvalAll, Widened, Plain, Reserved;
    SourceBack(src, f, j);
    if KeySet(keys) <= src.columns && AggReads(a) <= src.columns {
      if keys == [] {
        FrameAgg(E, src.rows, a);
        assert |f.rows| == |ProjectAll(f.rows, src.columns)|;
      } else {
        UserKeys(src, keys);
        JoinedBackValues(E, K, src.rows, keys, a, OVER_VALUE);
      }
    }
  }

  /** It does not run where the source lacks one of its keys, or a column that its value or its `by` reads. */
  lemma EagerAggNeeds(E: Engine, K: Kernels, f: Frame, keys: seq<string>, a: Agg, n: string)
    requires n !in f.columns || IsTemporary(n)
    requires n in keys || (a.value.Some? && n in Reads(a.value.value)) || (a.aby.Some? && n in Reads(a.aby.value))
    ensures EagerAggOver(E, K, f, keys, a).None?
  {
    assert n !in SourceColumns(f) && n in KeySet(keys) + AggReads(a);
  }

  /** An operand that the eager evaluator takes: known columns, at least one of them or a temporary. */
  predicate Usable(e: Expr, columns: set<string>) { Reads(e) <= columns && (Reads(e) != {} || HasOp(e)) }

  /** A temporary's operands are over known columns, and its group-wise form exists. */
  ghost predicate TempRuns(O: Ops, src: Frame, t: Temp, j: nat) {
    if t.spec.cagg.Some? then
      && KeySet(Over(t.spec)) <= src.columns && AggReads(t.spec.cagg.value) <= src.columns
      && (if Over(t.spec) == [] then IsNum(AggOf(O.E, t.spec.cagg.value, src.rows)) else AllKeyed(src.rows, Over(t.spec)))
    else
      && OverKnown(t.arg, src.columns, j) && (t.spec.column2.Some? ==> OverKnown(t.spec.column2.value, src.columns, j))
      && (t.spec.over.Some? ==> t.spec.kind.Some? && KeySet(Over(t.spec)) <= src.columns)
  }

  ghost predicate OverKnown(e: Expr, columns: set<string>, j: nat) {
    Reads(e) != {} && forall n | n in Reads(e) :: n in columns || exists i :: 0 <= i < j && n == CopName(i)
  }

  lemma {:induction false} OverKnownMeans(K: Kernels, src: Frame, f: Frame, j: nat, e: Expr)
    requires Widened(src, f, j)
    ensures EagerValue(K, e, f).Some? <==> OverKnown(e, src.columns, j)
    ensures EagerValue(K, e, f).Some? ==> EagerValue(K, e, f).value == EvalAll(K, e, f.rows)
  {
  }

  lemma {:induction false} KeysKnown(src: Frame, f: Frame, j: nat, keys: seq<string>)
    requires Plain(src) && Widened(src, f, j) && (forall k | k in keys :: !Reserved(k))
    ensures KeySet(keys) <= f.columns <==> KeySet(keys) <= src.columns
  {
    forall k | k in keys ensures k in f.columns <==> k in src.columns {
      if i :| 0 <= i < j && k == CopName(i) { CopNamesDiffer(i, i); }
    }
    if KeySet(keys) <= f.columns { forall k | k in KeySet(keys) ensures k in src.columns { assert k in f.columns; } }
  }

  /** One eager step: the temporary's column is what it should be, and it is there exactly when it can be. */
  lemma {:induction false} EagerOpMeans(O: Ops, K: Kernels, src: Frame, f: Frame, t: Temp, j: nat)
    requires HonestOps(O) && Plain(src) && Widened(src, f, j) && SpecNamed(t.spec)
    ensures var vs := EagerOp(O, K, f, t);
            && (vs.Some? && |vs.value| == |src.rows| <==> TempRuns(O, src, t, j))
            && (vs.Some? && |vs.value| == |src.rows| ==> vs.value == TempValues(O, K, src.rows, f.rows, t))
  {
    hide Honest, EagerAggOver, AggColumn, Widened, OverKnown, EagerValue, Plain, AllKeyed;
    if t.spec.cagg.Some? {
      EagerAggMeans(O.E, K, src, f, j, Over(t.spec), t.spec.cagg.value);
    } else {
      OverKnownMeans(K, src, f, j, t.arg);
      if t.spec.column2.Some? { OverKnownMeans(K, src, f, j, t.spec.column2.value); }
      KeysKnown(src, f, j, Over(t.spec));
      SourceBack(src, f, j);
      SameHeight(src, f, j);
    }
  }

  lemma {:induction false} SameHeight(src: Frame, f: Frame, j: nat)
    requires Widened(src, f, j)
    ensures |f.rows| == |src.rows|
  {
  }

  lemma {:induction false} AddStage(O: Ops, K: Kernels, src: Frame, f: Frame, t: Temp, j: nat, vs: seq<Val>)
    requires Plain(src) && Widened(src, f, j) && t.name == CopName(j)
    requires vs == TempValues(O, K, src.rows, f.rows, t) && |vs| == |src.rows|
    ensures |vs| == |f.rows| && Widened(src, AddColumn(f, t.name, vs), j + 1)
    ensures Stage(O, K, src.rows, f.rows, AddColumn(f, t.name, vs).rows, t, j)
  {
    hide TempValues;
    var g := AddColumn(f, t.name, vs);
    CopNamesDiffer(j, j);
    forall n ensures n in g.columns <==> n in src.columns || exists i :: 0 <= i < j + 1 && n == CopName(i) {
      if i :| 0 <= i < j + 1 && n == CopName(i) { if i < j { assert n in f.columns; } }
      if n == t.name { assert n == CopName(j); }
    }
    forall n | Upto(n, j) ensures n != t.name {
      if i :| 0 <= i < j && n == CopName(i) { CopNamesDiffer(i, j); }
    }
  }

  /** A column-op node whose operands the eager evaluator takes and whose group-wise form exists. */
  ghost predicate NodeRuns(O: Ops, src: Frame, arg: Expr, spec: ColumnOp) {
    if spec.cagg.Some? then
      && KeySet(Over(spec)) <= src.columns && AggReads(spec.cagg.value) <= src.columns
      && (if Over(spec) == [] then IsNum(AggOf(O.E, spec.cagg.value, src.rows)) else AllKeyed(src.rows, Over(spec)))
    else
      && Usable(arg, src.columns) && (spec.column2.Some? ==> Usable(spec.column2.value, src.columns))
      && (spec.over.Some? ==> spec.kind.Some? && KeySet(Over(spec)) <= src.columns)
  }

  /** Every column op of the expression runs. */
  ghost predicate OpsRun(O: Ops, src: Frame, e: Expr)
    decreases e
  {
    match e
    case ColumnOpNode(arg, spec) =>
      OpsRun(O, src, arg) && (spec.column2.Some? ==> OpsRun(O, src, spec.column2.value)) && NodeRuns(O, src, arg, spec)
    case Un(_, arg) => OpsRun(O, src, arg)
    case Bin(_, l, r) => OpsRun(O, src, l) && OpsRun(O, src, r)
    case Select(c, a, b) => OpsRun(O, src, c) && OpsRun(O, src, a) && OpsRun(O, src, b)
    case _ => true
  }

  /** What a lifted expression reads: what the expression reads beside its ops, and temporaries of its own. */
  lemma {:induction false} LiftTops(e: Expr, ops: seq<Temp>)
    ensures Reads(e) <= Reads(Lift(e, ops).e)
    ensures forall n | n in Reads(Lift(e, ops).e) :: n in Reads(e) || exists i :: 0 <= i < |Lift(e, ops).ops| && n == CopName(i)
    ensures Reads(Lift(e, ops).e) == {} <==> Reads(e) == {} && !HasOp(e)
    decreases e
  {
    match e {
      case Un(_, arg) => LiftTops(arg, ops);
      case Bin(_, l, r) =>
        LiftTops(l, ops);
        LiftTops(r, Lift(l, ops).ops);
      case Select(c, a, b) =>
        var x := Lift(c, ops);
        LiftTops(c, ops);
        LiftTops(a, x.ops);
        LiftTops(b, Lift(a, x.ops).ops);
      case ColumnOpNode(arg, spec) => assert Lift(e, ops).e == Col(CopName(|Lift(e, ops).ops| - 1));
      case _ =>
    }
  }

  lemma {:induction false} LiftKnown(e: Expr, ops: seq<Temp>, src: Frame, j: nat)
    requires j >= |Lift(e, ops).ops| && Plain(src) && forall n | n in Names(e) :: !Reserved(n)
    ensures OverKnown(Lift(e, ops).e, src.columns, j) <==> Usable(e, src.columns)
  {
    LiftTops(e, ops);
    ReadsNamed(e);
    forall n | n in Reads(e) ensures (exists i :: 0 <= i < j && n == CopName(i)) ==> false {
      if i :| 0 <= i < j && n == CopName(i) { CopNamesDiffer(i, i); }
    }
  }

  lemma {:induction false} ReadsNamed(e: Expr)
    ensures Reads(e) <= Names(e)
  {
    match e {
      case Un(_, arg) => ReadsNamed(arg);
      case Bin(_, l, r) =>
        ReadsNamed(l);
        ReadsNamed(r);
      case Select(c, a, b) =>
        ReadsNamed(c);
        ReadsNamed(a);
        ReadsNamed(b);
      case _ =>
    }
  }

  ghost predicate TempsRun(O: Ops, src: Frame, ops: seq<Temp>, a: nat, b: nat) {
    forall j | a <= j < b && j < |ops| :: TempRuns(O, src, ops[j], j)
  }

  lemma {:induction false} TempsJoin(O: Ops, src: Frame, ops: seq<Temp>, a: nat, b: nat, c: nat)
    requires a <= b <= c
    ensures TempsRun(O, src, ops, a, c) <==> TempsRun(O, src, ops, a, b) && TempsRun(O, src, ops, b, c)
  {
  }

  /** Every op of the expression runs exactly when every temporary it is lifted to does. */
  lemma {:induction false} LiftRuns(O: Ops, src: Frame, e: Expr, before: seq<Temp>, ops: seq<Temp>)
    requires Plain(src) && Lift(e, before).ops <= ops && forall n | n in Names(e) :: !Reserved(n)
    ensures TempsRun(O, src, ops, |before|, |Lift(e, before).ops|) <==> OpsRun(O, src, e)
    decreases e
  {
    hide CopName, Reserved;
    hide TempRuns, NodeRuns, TempsRun;
    var m := |Lift(e, before).ops|;
    match e {
      case ColumnOpNode(arg, spec) =>
        var x := Lift(arg, before);
        LiftRuns(O, src, arg, before, ops);
        if spec.column2.Some? { LiftRuns(O, src, spec.column2.value, x.ops, ops); }
        TempsJoin(O, src, ops, |before|, |x.ops|, m - 1);
        TempsJoin(O, src, ops, |before|, m - 1, m);
        NodeTemp(O, src, arg, spec, before);
        OneRun(O, src, ops, m - 1);
        assert ops[m - 1] == Lift(e, before).ops[m - 1];
      case Un(_, arg) => LiftRuns(O, src, arg, before, ops);
      case Bin(_, l, r) =>
        LiftRuns(O, src, l, before, ops);
        LiftRuns(O, src, r, Lift(l, before).ops, ops);
        TempsJoin(O, src, ops, |before|, |Lift(l, before).ops|, m);
      case Select(c, a, b) =>
        var x := Lift(c, before);
        var y := Lift(a, x.ops);
        LiftRuns(O, src, c, before, ops);
        LiftRuns(O, src, a, x.ops, ops);
        LiftRuns(O, src, b, y.ops, ops);
        TempsJoin(O, src, ops, |before|, |x.ops|, |y.ops|);
        TempsJoin(O, src, ops, |before|, |y.ops|, m);
      case _ => NoRuns(O, src, ops, m);
    }
  }

  lemma {:induction false} NoRuns(O: Ops, src: Frame, ops: seq<Temp>, a: nat)
    ensures TempsRun(O, src, ops, a, a)
  {
  }

  lemma {:induction false} OneRun(O: Ops, src: Frame, ops: seq<Temp>, a: nat)
    requires a < |ops|
    ensures TempsRun(O, src, ops, a, a + 1) <==> TempRuns(O, src, ops[a], a)
  {
    hide TempRuns;
  }

  lemma {:induction false} NodeTemp(O: Ops, src: Frame, arg: Expr, spec: ColumnOp, before: seq<Temp>)
    requires Plain(src) && forall n | n in Names(ColumnOpNode(arg, spec)) :: !Reserved(n)
    ensures var ops := Lift(ColumnOpNode(arg, spec), before).ops;
            TempRuns(O, src, ops[|ops| - 1], |ops| - 1) <==> NodeRuns(O, src, arg, spec)
  {
    hide AllKeyed, OverKnown, Usable, AggReads, AggOf;
    var x := Lift(arg, before);
    var ops := Lift(ColumnOpNode(arg, spec), before).ops;
    LiftKnown(arg, before, src, |ops| - 1);
    if spec.column2.Some? { LiftKnown(spec.column2.value, x.ops, src, |ops| - 1); }
  }

  /** Keys of `over`, and what its aggregates read, are not the library's names. */
  predicate OverNames(e: Expr)
    decreases e
  {
    match e
    case ColumnOpNode(arg, spec) =>
      && OverNames(arg) && (spec.column2.Some? ==> OverNames(spec.column2.value))
      && (forall k | 0 <= k < |Over(spec)| :: !Reserved(Over(spec)[k]))
      && (spec.cagg.Some? ==> forall n | n in AggReads(spec.cagg.value) :: !Reserved(n))
    case Un(_, arg) => OverNames(arg)
    case Bin(_, l, r) => OverNames(l) && OverNames(r)
    case Select(c, a, b) => OverNames(c) && OverNames(a) && OverNames(b)
    case _ => true
  }

  ghost predicate SpecNamed(spec: ColumnOp) {
    && (forall k | k in Over(spec) :: !Reserved(k))
    && (spec.cagg.Some? ==> forall n | n in AggReads(spec.cagg.value) :: !Reserved(n))
  }

  ghost predicate OversNamed(ops: seq<Temp>) {
    forall j | 0 <= j < |ops| :: SpecNamed(ops[j].spec)
  }

  lemma {:induction false} LiftOvers(e: Expr, ops: seq<Temp>)
    requires OverNames(e) && OversNamed(ops)
    ensures OversNamed(Lift(e, ops).ops)
    decreases e
  {
    match e {
      case ColumnOpNode(arg, spec) =>
        LiftOvers(arg, ops);
        if spec.column2.Some? { LiftOvers(spec.column2.value, Lift(arg, ops).ops); }
        var l := Lift(e, ops);
        assert Over(l.ops[|l.ops| - 1].spec) == Over(spec);
        forall k | k in Over(spec) ensures !Reserved(k) { var i :| 0 <= i < |Over(spec)| && Over(spec)[i] == k; }
      case Un(_, arg) => LiftOvers(arg, ops);
      case Bin(_, l, r) =>
        LiftOvers(l, ops);
        LiftOvers(r, Lift(l, ops).ops);
      case Select(c, a, b) =>
        var x := Lift(c, ops);
        LiftOvers(c, ops);
        LiftOvers(a, x.ops);
        LiftOvers(b, Lift(a, x.ops).ops);
      case _ =>
    }
  }

  /** An expression of the caller: it names no column of the library's. */
  ghost predicate Callers(e: Expr) { OverNames(e) && forall n | n in Names(e) :: !Reserved(n) }

  /** The whole run so far. */
  ghost predicate Ran(O: Ops, K: Kernels, src: Frame, ops: seq<Temp>, j: nat, fs: seq<seq<Cells>>, f: Frame) {
    && j <= |ops| && Stages(O, K, ops[..j], fs) && fs[0] == src.rows && fs[j] == f.rows && Widened(src, f, j)
    && TempsRun(O, src, ops, 0, j)
  }

  lemma {:induction false} RanNone(O: Ops, K: Kernels, src: Frame, ops: seq<Temp>)
    requires Plain(src)
    ensures Ran(O, K, src, ops, 0, [src.rows], src)
  {
  }

  lemma {:induction false} RanNext(O: Ops, K: Kernels, src: Frame, ops: seq<Temp>, j: nat, fs: seq<seq<Cells>>, f: Frame, g: Frame)
    requires j < |ops| && Ran(O, K, src, ops, j, fs, f) && Stage(O, K, src.rows, f.rows, g.rows, ops[j], j)
    requires Widened(src, g, j + 1) && TempRuns(O, src, ops[j], j)
    ensures Ran(O, K, src, ops, j + 1, fs + [g.rows], g)
  {
    hide Stage, Widened, TempRuns;
    var fs' := fs + [g.rows];
    assert ops[..j + 1] == ops[..j] + [ops[j]];
    forall k | 0 <= k < j + 1 ensures Stage(O, K, fs'[0], fs'[k], fs'[k + 1], ops[..j + 1][k], k) {
      if k < j { assert Stage(O, K, fs[0], fs[k], fs[k + 1], ops[..j][k], k); }
    }
  }

  /** After the last temporary the rewritten expression means the nested one, and is readable exactly when that is. */
  lemma {:induction false} RanMeans(O: Ops, K: Kernels, src: Frame, e: Expr, fs: seq<seq<Cells>>, f: Frame)
    requires Plain(src) && Callers(e) && Ran(O, K, src, Lift(e, []).ops, |Lift(e, []).ops|, fs, f)
    ensures EvalAll(K, Lift(e, []).e, f.rows) == Column(O, K, e, src.rows)
    ensures EagerValue(K, Lift(e, []).e, f).Some? <==> Usable(e, src.columns)
    ensures OpsRun(O, src, e)
  {
    hide EagerValue, Usable, Stages, TempsRun, At, Plain, OpsRun, OverKnown;
    var l := Lift(e, []);
    assert l.ops[..|l.ops|] == l.ops;
    SameHeight(src, f, |l.ops|);
    forall i | 0 <= i < |src.rows| ensures EvalAll(K, l.e, f.rows)[i] == At(O, K, e, src.rows, i) {
      LiftMeans(O, K, e, [], l.ops, fs, i);
    }
    LiftRuns(O, src, e, [], l.ops);
    LiftKnown(e, [], src, |l.ops|);
    OverKnownMeans(K, src, f, |l.ops|, l.e);
  }

  lemma {:induction false} NotRan(O: Ops, src: Frame, e: Expr, j: nat)
    requires Plain(src) && Callers(e) && j < |Lift(e, []).ops| && !TempRuns(O, src, Lift(e, []).ops[j], j)
    ensures !OpsRun(O, src, e)
  {
    hide TempRuns, OpsRun;
    LiftRuns(O, src, e, [], Lift(e, []).ops);
  }

  /** The columns once the temporaries have joined them; nothing where an op raises. */
  function RunTemps(O: Ops, K: Kernels, f: Frame, ops: seq<Temp>): Option<Frame>
    decreases |ops|
  {
    if ops == [] then Some(f)
    else
      match EagerOp(O, K, f, ops[0])
      case None => None
      case Some(vs) => if |vs| != |f.rows| then None else RunTemps(O, K, AddColumn(f, ops[0].name, vs), ops[1..])
  }

  /** `Expr.apply` on a frame. */
  function ExprApply(O: Ops, K: Kernels, e: Expr, f: Frame): Option<seq<Val>> {
    match RunTemps(O, K, f, Lift(e, []).ops)
    case None => None
    case Some(g) => EagerValue(K, Lift(e, []).e, g)
  }

  /** From any point of the run: the rest runs through exactly when every op can run. */
  lemma {:induction false} RestRuns(O: Ops, K: Kernels, src: Frame, e: Expr, j: nat, fs: seq<seq<Cells>>, f: Frame)
    returns (gs: seq<seq<Cells>>)
    requires HonestOps(O) && Plain(src) && Callers(e) && Ran(O, K, src, Lift(e, []).ops, j, fs, f)
    ensures var end := RunTemps(O, K, f, Lift(e, []).ops[j..]);
            if end.None? then !OpsRun(O, src, e) else Ran(O, K, src, Lift(e, []).ops, |Lift(e, []).ops|, gs, end.value)
    decreases |Lift(e, []).ops| - j
  {
    hide HonestOps, Plain, Ran, OpsRun, TempRuns, EagerOp, Widened, Stage, Callers, TempValues;
    var ops := Lift(e, []).ops;
    RanWidened(O, K, src, ops, j, fs, f);
    gs := fs;
    if j < |ops| {
      var t := ops[j];
      assert ops[j..][0] == t && ops[j..][1..] == ops[j + 1..];
      LiftedWell(e);
      SameHeight(src, f, j);
      EagerOpMeans(O, K, src, f, t, j);
      var vs := EagerOp(O, K, f, t);
      if vs.None? || |vs.value| != |f.rows| {
        NotRan(O, src, e, j);
      } else {
        AddStage(O, K, src, f, t, j, vs.value);
        RanNext(O, K, src, ops, j, fs, f, AddColumn(f, t.name, vs.value));
        gs := RestRuns(O, K, src, e, j + 1, fs + [AddColumn(f, t.name, vs.value).rows], AddColumn(f, t.name, vs.value));
      }
    } else {
      assert ops[j..] == [];
    }
  }

  /** `Expr.apply` yields the direct meaning of the nested expression on every row, and yields it exactly when every op
      has known, column-reading operands, a group-wise form where it is over keys, and, where it is an aggregate over
      keys, no null key. */
  lemma {:induction false} ExprApplyMeans(O: Ops, K: Kernels, e: Expr, src: Frame)
    requires HonestOps(O) && Plain(src) && Callers(e)
    ensures ExprApply(O, K, e, src).Some? <==> OpsRun(O, src, e) && Usable(e, src.columns)
    ensures ExprApply(O, K, e, src).Some? ==>
              ExprApply(O, K, e, src).value == Column(O, K, e, src.rows)
  {
    hide HonestOps, Plain, Ran, OpsRun, Usable, Callers, At, EagerValue, RunTemps;
    var ops := Lift(e, []).ops;
    RanNone(O, K, src, ops);
    var fs := RestRuns(O, K, src, e, 0, [src.rows], src);
    assert ops[0..] == ops;
    var end := RunTemps(O, K, src, ops);
    if end.Some? {
      RanMeans(O, K, src, e, fs, end.value);
      EagerIs(K, Lift(e, []).e, end.value);
    }
  }

  /** `eval_with_column_ops`: each op run over its operands and added to the columns, then the rest evaluated. */
  method EvalWithColumnOps(O: Ops, K: Kernels, e: Expr, src: Frame) returns (r: Option<seq<Val>>)
    requires HonestOps(O) && Plain(src) && Callers(e)
    ensures r == ExprApply(O, K, e, src)
    ensures r.Some? <==> OpsRun(O, src, e) && Usable(e, src.columns)
    ensures r.Some? ==> r.value == Column(O, K, e, src.rows)
  {
    hide HonestOps, Plain, OpsRun, Usable, EagerOp, Callers, At, EagerValue;
    var splitter := new OpSplitter();
    var rewritten := splitter.Run(e);
    var ops := splitter.ops;
    assert Lifted(rewritten, ops) == Lift(e, []);
    ExprApplyMeans(O, K, e, src);
    var f := src;
    assert ops[0..] == ops;
    for j := 0 to |ops|
      invariant RunTemps(O, K, f, ops[j..]) == RunTemps(O, K, src, ops)
    {
      assert ops[j..][0] == ops[j] && ops[j..][1..] == ops[j + 1..];
      var vs := EagerOp(O, K, f, ops[j]);
      if vs.None? || |vs.value| != |f.rows| { return None; }
      f := AddColumn(f, ops[j].name, vs.value);
    }
    r := EagerValue(K, rewritten, f);
  }

  lemma {:induction false} EagerIs(K: Kernels, e: Expr, f: Frame)
    ensures EagerValue(K, e, f).Some? ==> EagerValue(K, e, f).value == EvalAll(K, e, f.rows)
  {
  }

  lemma {:induction false} LiftedWell(e: Expr)
    requires Callers(e)
    ensures AllPlaced(Lift(e, []).ops) && OversNamed(Lift(e, []).ops)
    ensures forall j | 0 <= j < |Lift(e, []).ops| :: Lift(e, []).ops[j].name == CopName(j)
  {
    LiftPlaces(e, []);
    LiftOvers(e, []);
  }

  lemma {:induction false} RanWidened(O: Ops, K: Kernels, src: Frame, ops: seq<Temp>, j: nat, fs: seq<seq<Cells>>, f: Frame)
    requires Ran(O, K, src, ops, j, fs, f)
    ensures Widened(src, f, j) && j <= |ops|
  {
  }

  // ---- lazy -------------------------------------------------------------------------------------------------------------

  function Second(i: nat): string { CopName(i) + "b" }

  function DropColumn(rows: seq<Cells>, name: string): seq<Cells> {
    seq(|rows|, i requires 0 <= i < |rows| => rows[i] - {name})
  }

  /** A group transform as a plan step: the keys and the value numbered, the transform numbered by position, joined
      back on the row number and sorted. */
  function LazyOver(O: Ops, K: Kernels, p: Frame, name: string, spec: ColumnOp): seq<Cells> {
    var indexed := Indexed(OVER_ROW, p.rows);
    var part := ProjectAll(ProjectAll(indexed, KeySet(Over(spec)) + {OVER_ROW, name}), KeySet(Over(spec)) + {name});
    var kind := if spec.kind.Some? then spec.kind.value else "";
    var values := O.transform(KeyOf(spec), kind, spec.n, Labels(part, Over(spec)), EvalAll(K, Col(name), part));
    var valued := seq(|values|, i requires 0 <= i < |values| => map[OVER_ROW := VI(i), name := values[i]]);
    DropColumn(O.E.sortBy(O.leftJoin(DropColumn(indexed, name), valued, [OVER_ROW]), OVER_ROW), OVER_ROW)
  }

  /** An aggregate over keys as a plan step; rows with a null key are dropped from the plan. */
  function LazyAggOver(E: Engine, p: Frame, name: string, keys: seq<string>, a: Agg): seq<Cells> {
    var groups := E.groupBy(Indexed(OVER_ROW, p.rows), keys, [a.(out := Some(name))]);
    DropColumn(Joined(E, p.rows, groups, keys), OVER_ROW)
  }

  function WithColumn(K: Kernels, p: Frame, name: string, e: Expr): Option<Frame> {
    if Reads(e) <= p.columns then Some(AddColumn(p, name, EvalAll(K, e, p.rows))) else None
  }

  /** Where the second operand is: its own column if it is one, else a temporary beside the first. */
  function SecondName(t: Temp): Option<string> {
    if t.spec.column2.None? then None
    else if t.spec.column2.value.Col? then Some(t.spec.column2.value.name)
    else Some(t.name + "b")
  }

  function WithOperands(K: Kernels, p: Frame, t: Temp): Option<Frame> {
    match WithColumn(K, p, t.name, t.arg)
    case None => None
    case Some(p1) =>
      if t.spec.column2.None? then Some(p1)
      else if t.spec.column2.value.Col? then (if t.spec.column2.value.name in p1.columns then Some(p1) else None)
      else WithColumn(K, p1, t.name + "b", t.spec.column2.value)
  }

  /** One temporary appended to the plan. */
  function LazyStep(O: Ops, K: Kernels, p: Frame, t: Temp): Option<Frame>
    requires forall k, v, w :: |O.run(k, v, w)| == |v|
  {
    var spec := t.spec;
    if spec.cagg.Some? then
      if Over(spec) == [] || !(KeySet(Over(spec)) <= p.columns && AggReads(spec.cagg.value) <= p.columns) then None
      else Some(Frame(p.columns + {t.name}, LazyAggOver(O.E, p, t.name, Over(spec), spec.cagg.value)))
    else
      match WithOperands(K, p, t)
      case None => None
      case Some(q) =>
        if spec.over.None? then
          var second := SecondName(t);
          var v := EvalAll(K, Col(t.name), q.rows);
          Some(AddColumn(q, t.name, O.run(KeyOf(spec), v, if second.Some? then Some(EvalAll(K, Col(second.value), q.rows)) else None)))
        else if spec.kind.None? || !(KeySet(Over(spec)) <= q.columns) then None
        else Some(Frame(q.columns, LazyOver(O, K, q, t.name, spec)))
  }

  /** The columns a plan has after `j` temporaries: the source's, the temporaries and their second operands. */
  ghost predicate Shaped(src: Frame, p: Frame, j: nat) {
    && (forall i | 0 <= i < |p.rows| :: p.rows[i].Keys == p.columns)
    && src.columns <= p.columns && (forall i | 0 <= i < j :: CopName(i) in p.columns)
    && (forall n | n in p.columns :: n in src.columns || exists i :: 0 <= i < j && (n == CopName(i) || n == Second(i)))
  }

  /** The source's rows, in order. */
  ghost predicate Faithful(src: Frame, p: Frame) {
    && |p.rows| == |src.rows|
    && forall i, n | 0 <= i < |p.rows| && n in src.columns :: n in src.rows[i] && n in p.rows[i] && p.rows[i][n] == src.rows[i][n]
  }

  /** Every join of unique row numbers finds its partner, so the left join is the inner one. */
  lemma {:induction false} LeftPairsAre(left: seq<Cells>, right: seq<Cells>, keys: seq<string>)
    requires forall i | 0 <= i < |left| :: |PairsOf(left[i], right, keys)| == 1
    ensures LeftPairs(left, right, keys) == Pairs(left, right, keys)
  {
    if left != [] {
      assert |PairsOf(left[0], right, keys)| == 1;
      forall i | 0 <= i < |left| - 1 ensures |PairsOf(left[1..][i], right, keys)| == 1 { assert left[1..][i] == left[i + 1]; }
      LeftPairsAre(left[1..], right, keys);
    }
  }

  lemma {:induction false} RowLabel(c: string, row: Cells)
    requires c in row && row[c].VI?
    ensures Label(row, [c]) == [row[c]]
  {
  }

  lemma {:induction false} NumbersMeet(left: seq<Cells>, valued: seq<Cells>, i: nat)
    requires |left| == |valued| && i < |left|
    requires forall k | 0 <= k < |left| :: OVER_ROW in left[k] && left[k][OVER_ROW] == VI(k) && OVER_ROW in valued[k] && valued[k][OVER_ROW] == VI(k)
    ensures PairsOf(left[i], valued, [OVER_ROW]) == [left[i] + valued[i]]
  {
    hide PairsOf, Label;
    forall k | 0 <= k < |left| ensures Label(valued[k], [OVER_ROW]) == [VI(k)] && Label(left[k], [OVER_ROW]) == [VI(k)] {
      RowLabel(OVER_ROW, left[k]);
      RowLabel(OVER_ROW, valued[k]);
    }
    OneMatch(left[i], valued, [OVER_ROW], i);
  }

  ghost predicate BothNumbered(left: seq<Cells>, valued: seq<Cells>) {
    && |left| == |valued|
    && forall k | 0 <= k < |left| ::
        OVER_ROW in left[k] && left[k][OVER_ROW] == VI(k) && OVER_ROW in valued[k] && valued[k][OVER_ROW] == VI(k)
  }

  function Beside(left: seq<Cells>, valued: seq<Cells>): seq<Cells>
    requires |left| == |valued|
  { seq(|left|, i requires 0 <= i < |left| => left[i] + valued[i]) }

  lemma {:induction false} LeftPairsBeside(left: seq<Cells>, valued: seq<Cells>)
    requires BothNumbered(left, valued)
    ensures LeftPairs(left, valued, [OVER_ROW]) == Beside(left, valued)
  {
    hide PairsOf, Pairs, LeftPairs;
    var target := Beside(left, valued);
    forall i | 0 <= i < |left| ensures PairsOf(left[i], valued, [OVER_ROW]) == [RowAt(target)(i)] { NumbersMeet(left, valued, i); }
    LeftPairsAre(left, valued, [OVER_ROW]);
    PairsAre(left, valued, [OVER_ROW], Always(), RowAt(target));
    EveryRow(target, |target|);
  }

  lemma {:induction false} SortsTo(O: Ops, joined: seq<Cells>, target: seq<Cells>)
    requires HonestOps(O) && multiset(joined) == multiset(target) && StrictByRow(OVER_ROW, target)
    ensures O.E.sortBy(joined, OVER_ROW) == target
  {
    hide Grouped, Pairs, LeftPairs;
    forall i | 0 <= i < |joined| ensures Numbered(OVER_ROW, joined[i]) { assert joined[i] in multiset(target); }
    SortedIs(OVER_ROW, O.E.sortBy(joined, OVER_ROW), target);
  }

  lemma {:induction false} LeftJoinIs(O: Ops, left: seq<Cells>, right: seq<Cells>, keys: seq<string>)
    requires HonestOps(O)
    ensures multiset(O.leftJoin(left, right, keys)) == multiset(LeftPairs(left, right, keys))
  {
    hide Honest, LeftPairs;
  }

  /** The join on row numbers and the sort put each value back on its row. */
  lemma {:induction false} RowsRejoined(O: Ops, left: seq<Cells>, valued: seq<Cells>)
    requires HonestOps(O) && BothNumbered(left, valued)
    ensures O.E.sortBy(O.leftJoin(left, valued, [OVER_ROW]), OVER_ROW) == Beside(left, valued)
  {
    hide HonestOps;
    LeftPairsBeside(left, valued);
    LeftJoinIs(O, left, valued, [OVER_ROW]);
    SortsTo(O, O.leftJoin(left, valued, [OVER_ROW]), Beside(left, valued));
  }

  function Always(): nat -> bool { (i: nat) => true }

  lemma {:induction false} EveryRow(rows: seq<Cells>, n: nat)
    requires n <= |rows|
    ensures RowsWhere(n, Always(), RowAt(rows)) == rows[..n]
  {
    if n > 0 {
      EveryRow(rows, n - 1);
      assert rows[..n] == rows[..n - 1] + [rows[n - 1]];
    }
    assert n == |rows| ==> rows[..n] == rows;
  }

  lemma {:induction false} PartIs(K: Kernels, p: Frame, name: string, keys: seq<string>)
    requires (forall i | 0 <= i < |p.rows| :: p.rows[i].Keys == p.columns) && name in p.columns
    requires KeySet(keys) <= p.columns && OVER_ROW !in p.columns
    ensures var part := ProjectAll(ProjectAll(Indexed(OVER_ROW, p.rows), KeySet(keys) + {OVER_ROW, name}), KeySet(keys) + {name});
            Labels(part, keys) == Labels(p.rows, keys) && EvalAll(K, Col(name), part) == EvalAll(K, Col(name), p.rows)
  {
    var part := ProjectAll(ProjectAll(Indexed(OVER_ROW, p.rows), KeySet(keys) + {OVER_ROW, name}), KeySet(keys) + {name});
    forall i | 0 <= i < |part| ensures Label(part[i], keys) == Label(p.rows[i], keys) && part[i][name] == p.rows[i][name] {
      assert forall k | 0 <= k < |keys| :: keys[k] in KeySet(keys);
    }
  }

  /** What the transform yields, row by row. */
  function Transformed(O: Ops, K: Kernels, p: Frame, name: string, spec: ColumnOp): seq<Val> {
    O.transform(KeyOf(spec), if spec.kind.Some? then spec.kind.value else "", spec.n, Labels(p.rows, Over(spec)),
                EvalAll(K, Col(name), p.rows))
  }

  lemma {:induction false} TransformedHeight(O: Ops, K: Kernels, p: Frame, name: string, spec: ColumnOp)
    requires HonestOps(O)
    ensures |Transformed(O, K, p, name, spec)| == |p.rows|
  {
    hide Honest, LeftPairs;
  }

  /** The plan's group transform sets the column to the transform of its values, row for row. */
  lemma {:induction false} LazyOverMeans(O: Ops, K: Kernels, p: Frame, name: string, spec: ColumnOp)
    requires HonestOps(O) && (forall i | 0 <= i < |p.rows| :: p.rows[i].Keys == p.columns) && name in p.columns
    requires KeySet(Over(spec)) <= p.columns && OVER_ROW !in p.columns
    ensures |Transformed(O, K, p, name, spec)| == |p.rows|
    ensures LazyOver(O, K, p, name, spec) == AddColumn(p, name, Transformed(O, K, p, name, spec)).rows
  {
    hide HonestOps, Label, Labels, EvalAll;
    var vs := Transformed(O, K, p, name, spec);
    TransformedHeight(O, K, p, name, spec);
    PartIs(K, p, name, Over(spec));
    var valued := seq(|vs|, i requires 0 <= i < |vs| => map[OVER_ROW := VI(i), name := vs[i]]);
    var left := DropColumn(Indexed(OVER_ROW, p.rows), name);
    assert name != OVER_ROW;
    RowsRejoined(O, left, valued);
    forall i | 0 <= i < |p.rows| ensures (left[i] + valued[i]) - {OVER_ROW} == p.rows[i][name := vs[i]] {}
    assert DropColumn(Beside(left, valued), OVER_ROW) == AddColumn(p, name, vs).rows;
  }

  lemma {:induction false} MembersProject(rows: seq<Cells>, keys: seq<string>, at: seq<Val>, names: set<string>)
    requires KeySet(keys) <= names
    ensures ProjectAll(Members(rows, keys, at), names) == Members(ProjectAll(rows, names), keys, at)
  {
    if rows != [] {
      MembersProject(rows[1..], keys, at, names);
      assert ProjectAll(rows, names)[1..] == ProjectAll(rows[1..], names);
      assert forall k | 0 <= k < |keys| :: keys[k] in KeySet(keys);
      assert Label(Project(rows[0], names), keys) == Label(rows[0], keys);
    }
  }

  /** An aggregate of a group does not depend on columns it does not read. */
  lemma {:induction false} AggLocal(O: Ops, a: Agg, wide: seq<Cells>, rows: seq<Cells>, keys: seq<string>, at: seq<Val>, names: set<string>)
    requires HonestOps(O) && AggReads(a) <= names && KeySet(keys) <= names && ProjectAll(wide, names) == rows
    ensures AggOf(O.E, a, Members(wide, keys, at)) == AggOf(O.E, a, Members(rows, keys, at))
  {
    hide Honest, LeftPairs, Members;
    MembersProject(wide, keys, at, names);
    assert AggReads(a.(out := None)) == AggReads(a);
  }

  lemma {:induction false} IndexedProjects(p: Frame)
    requires (forall i | 0 <= i < |p.rows| :: p.rows[i].Keys == p.columns) && OVER_ROW !in p.columns
    ensures ProjectAll(Indexed(OVER_ROW, p.rows), p.columns) == p.rows
  {
    forall i | 0 <= i < |p.rows| ensures Project(Indexed(OVER_ROW, p.rows)[i], p.columns) == p.rows[i] {}
  }

  /** Grouping the numbered rows gives the groups of the rows. */
  lemma {:induction false} IndexedGroups(O: Ops, p: Frame, name: string, keys: seq<string>, a: Agg, groups: seq<Cells>)
    requires HonestOps(O) && (forall i | 0 <= i < |p.rows| :: p.rows[i].Keys == p.columns) && OVER_ROW !in p.columns
    requires KeySet(keys) <= p.columns && AggReads(a) <= p.columns
    requires Grouped(O.E, Indexed(OVER_ROW, p.rows), keys, [a.(out := Some(name))], groups)
    ensures Grouped(O.E, p.rows, keys, [a.(out := Some(name))], groups)
  {
    hide HonestOps, Members, Label;
    var wide, aggs := Indexed(OVER_ROW, p.rows), [a.(out := Some(name))];
    IndexedProjects(p);
    forall i | 0 <= i < |wide| ensures Label(wide[i], keys) == Label(p.rows[i], keys) {
      assert forall n | n in keys :: n in KeySet(keys);
      IndexedLabel(OVER_ROW, p.rows[i], keys, i);
    }
    forall j | 0 <= j < |groups| ensures Aggregated(O.E, p.rows, keys, aggs, groups[j]) {
      assert Aggregated(O.E, wide, keys, aggs, groups[j]);
      AggLocal(O, aggs[0], wide, p.rows, keys, Label(groups[j], keys), p.columns);
    }
    forall j | 0 <= j < |groups| && keys != [] ensures HasLabel(p.rows, keys, Label(groups[j], keys)) {
      assert HasLabel(wide, keys, Label(groups[j], keys));
      var i :| 0 <= i < |wide| && Label(wide[i], keys) == Label(groups[j], keys);
      assert Label(p.rows[i], keys) == Label(groups[j], keys);
    }
    forall i | 0 <= i < |p.rows| && NonNull(Label(p.rows[i], keys)) ensures HasLabel(groups, keys, Label(p.rows[i], keys)) {
      assert HasLabel(groups, keys, Label(wide[i], keys));
    }
  }

  /** The row with its group's value added. */
  function ValuedRow(E: Engine, p: Frame, name: string, keys: seq<string>, a: Agg): nat -> Cells {
    (i: nat) => if i < |p.rows| then p.rows[i][name := AggOf(E, a, Members(p.rows, keys, Label(p.rows[i], keys)))] else map[]
  }

  lemma {:induction false} DropWhere(n: nat, p: nat -> bool, row: nat -> Cells, dropped: nat -> Cells, c: string)
    requires forall i | 0 <= i < n && p(i) :: row(i) - {c} == dropped(i)
    ensures DropColumn(RowsWhere(n, p, row), c) == RowsWhere(n, p, dropped)
  {
    if n > 0 {
      DropWhere(n - 1, p, row, dropped, c);
      var a := RowsWhere(n - 1, p, row);
      assert DropColumn(a + [row(n - 1)], c) == DropColumn(a, c) + [row(n - 1) - {c}];
    }
  }

  lemma {:induction false} RowsAll(n: nat, p: nat -> bool, row: nat -> Cells)
    ensures |RowsWhere(n, p, row)| <= n
    ensures |RowsWhere(n, p, row)| == n <==> forall i | 0 <= i < n :: p(i)
    ensures (forall i | 0 <= i < n :: p(i)) ==> RowsWhere(n, p, row) == seq(n, i requires 0 <= i < n => row(i))
  {
    if n > 0 { RowsAll(n - 1, p, row); }
  }

  lemma {:induction false} RowsKeys(n: nat, p: nat -> bool, row: nat -> Cells, names: set<string>)
    requires forall i | 0 <= i < n && p(i) :: row(i).Keys == names
    ensures forall k | 0 <= k < |RowsWhere(n, p, row)| :: RowsWhere(n, p, row)[k].Keys == names
  {
    if n > 0 { RowsKeys(n - 1, p, row, names); }
  }

  /** The plan after an aggregate over keys: the rows whose keys are not null, each with its group's value. */
  lemma {:induction false} LazyAggMeans(O: Ops, p: Frame, name: string, keys: seq<string>, a: Agg)
    requires HonestOps(O) && (forall i | 0 <= i < |p.rows| :: p.rows[i].Keys == p.columns) && OVER_ROW !in p.columns
    requires KeySet(keys) <= p.columns && AggReads(a) <= p.columns && name !in p.columns && name != OVER_ROW
    ensures LazyAggOver(O.E, p, name, keys, a) ==
            RowsWhere(|p.rows|, KeyedRows(p.rows, keys), ValuedRow(O.E, p, name, keys, a))
  {
    hide HonestOps, RowsWhere, Members, Label, Joined, Honest;
    var wide := Indexed(OVER_ROW, p.rows);
    var groups := O.E.groupBy(wide, keys, [a.(out := Some(name))]);
    assert name !in keys && OVER_ROW !in keys by { assert forall n | n in keys :: n in KeySet(keys); }
    HonestEngine(O);
    OneAgg(O.E, wide, keys, a, name);
    IndexedGroups(O, p, name, keys, a, groups);
    JoinedRows(O.E, p.rows, keys, a, name, groups);
    var row, valued := JoinedRow(OVER_ROW, p.rows, keys, groups), ValuedRow(O.E, p, name, keys, a);
    forall i | 0 <= i < |p.rows| && KeyedRows(p.rows, keys)(i) ensures row(i) - {OVER_ROW} == valued(i) {
      DroppedRow(row(i), p.rows[i], keys, name, valued(i));
    }
    DropWhere(|p.rows|, KeyedRows(p.rows, keys), row, valued, OVER_ROW);
  }

  lemma {:induction false} HonestEngine(O: Ops)
    requires HonestOps(O)
    ensures Honest(O.E) && forall k, v, w :: |O.run(k, v, w)| == |v|
  {
    hide Honest, LeftPairs;
  }

  lemma {:induction false} DroppedRow(r: Cells, base: Cells, keys: seq<string>, name: string, out: Cells)
    requires r.Keys == base.Keys + KeySet(keys) + {OVER_ROW, name} && KeySet(keys) <= base.Keys
    requires OVER_ROW !in base && name !in base && name != OVER_ROW
    requires forall n | n in base && n !in {OVER_ROW, name} :: r[n] == base[n]
    requires out.Keys == base.Keys + {name} && out == base[name := r[name]]
    ensures r - {OVER_ROW} == out
  {
    assert (r - {OVER_ROW}).Keys == out.Keys;
  }

  lemma {:induction false} ShapedNames(src: Frame, p: Frame, j: nat)
    requires Plain(src) && Shaped(src, p, j)
    ensures OVER_ROW !in p.columns && CopName(j) !in p.columns && Second(j) !in p.columns
    ensures forall n | Upto(n, j) && n in p.columns :: n != CopName(j) && n != Second(j)
  {
    assert OVER_ROW[..12] == "__dftu_over_";
    forall i: nat, k: nat
      ensures (CopName(i) == CopName(k) ==> i == k) && Reserved(CopName(i)) && Second(i) != CopName(k)
      ensures CopName(i) != OVER_ROW && Second(i) != OVER_ROW && Reserved(Second(i))
    {
      CopNamesDiffer(i, k);
    }
    assert forall i | 0 <= i < j :: Second(i) != Second(j) by {
      forall i | 0 <= i < j ensures Second(i) != Second(j) {
        assert Second(i)[..|Second(i)| - 1] == CopName(i) && Second(j)[..|Second(j)| - 1] == CopName(j);
      }
    }
  }

  /** An aggregate step: the shape is kept, rows are dropped exactly where a key is null, and otherwise the step is the
      stage it should be. */
  lemma {:induction false} LazyAggStep(O: Ops, K: Kernels, src: Frame, p: Frame, t: Temp, j: nat)
    requires HonestOps(O) && Plain(src) && Shaped(src, p, j) && t.name == CopName(j) && SpecNamed(t.spec)
    requires t.spec.cagg.Some? && LazyStepOf(O, K, p, t).Some?
    ensures var q := LazyStepOf(O, K, p, t).value;
            && Shaped(src, q, j + 1) && |q.rows| <= |p.rows|
            && (Faithful(src, p) ==> (|q.rows| == |p.rows| <==> AllKeyed(src.rows, Over(t.spec))))
            && (Faithful(src, p) && |q.rows| == |p.rows| ==> Faithful(src, q) && Stage(O, K, src.rows, p.rows, q.rows, t, j))
  {
    hide HonestOps, Members, LazyAggOver, RowsWhere, Upto, Stage, Faithful;
    hide AllKeyed, Plain, Label, KeyedRows, ValuedRow;
    var keys, a := Over(t.spec), t.spec.cagg.value;
    var q := LazyStepOf(O, K, p, t).value;
    var row := ValuedRow(O.E, p, t.name, keys, a);
    ShapedNames(src, p, j);
    CopNamesDiffer(j, j);
    LazyAggMeans(O, p, t.name, keys, a);
    RowsAll(|p.rows|, KeyedRows(p.rows, keys), row);
    ValuedKeys(O.E, p, t.name, keys, a);
    RowsKeys(|p.rows|, KeyedRows(p.rows, keys), row, p.columns + {t.name});
    ShapedMore(src, p, q, j);
    SourceNamed(src, p, j, KeySet(keys));
    SourceNamed(src, p, j, AggReads(a));
    KeyedIs(p.rows, keys);
    if Faithful(src, p) {
      SameKeyed(src, p, keys);
      if |q.rows| == |p.rows| {
        ValuedIs(O, src, p, t.name, keys, a);
        AggStage(O, K, src, p, q, t, j);
      }
    }
  }

  lemma {:induction false} ValuedKeys(E: Engine, p: Frame, name: string, keys: seq<string>, a: Agg)
    requires forall i | 0 <= i < |p.rows| :: p.rows[i].Keys == p.columns
    ensures forall i | 0 <= i < |p.rows| :: ValuedRow(E, p, name, keys, a)(i).Keys == p.columns + {name}
  {
    hide Members, Label;
  }

  lemma {:induction false} KeyedIs(rows: seq<Cells>, keys: seq<string>)
    ensures AllKeyed(rows, keys) <==> forall i | 0 <= i < |rows| :: KeyedRows(rows, keys)(i)
  {
    hide Label;
    forall i | 0 <= i < |rows| ensures KeyedRows(rows, keys)(i) == NonNull(Label(rows[i], keys)) {}
  }

  lemma {:induction false} SameKeyed(src: Frame, p: Frame, keys: seq<string>)
    requires Plain(src) && Faithful(src, p) && KeySet(keys) <= src.columns
    ensures |p.rows| == |src.rows| && (AllKeyed(p.rows, keys) <==> AllKeyed(src.rows, keys))
  {
    hide Label;
    FaithfulBack(src, p, keys);
    forall i | 0 <= i < |p.rows| ensures NonNull(Label(p.rows[i], keys)) == NonNull(Label(src.rows[i], keys)) {}
  }

  /** Read from the plan, a row's group value is the one read from the source. */
  lemma {:induction false} ValuedIs(O: Ops, src: Frame, p: Frame, name: string, keys: seq<string>, a: Agg)
    requires HonestOps(O) && Plain(src) && Faithful(src, p) && KeySet(keys) <= src.columns && AggReads(a) <= src.columns
    ensures |p.rows| == |src.rows| && forall i | 0 <= i < |p.rows| ::
              ValuedRow(O.E, p, name, keys, a)(i) == p.rows[i][name := AggOf(O.E, a, Members(src.rows, keys, Label(src.rows[i], keys)))]
  {
    hide HonestOps, Members, Label;
    FaithfulBack(src, p, keys);
    forall i | 0 <= i < |p.rows|
      ensures ValuedRow(O.E, p, name, keys, a)(i) == p.rows[i][name := AggOf(O.E, a, Members(src.rows, keys, Label(src.rows[i], keys)))]
    {
      AggLocal(O, a, p.rows, src.rows, keys, Label(p.rows[i], keys), src.columns);
    }
  }

  function LazyStepOf(O: Ops, K: Kernels, p: Frame, t: Temp): Option<Frame>
    requires HonestOps(O)
  {
    HonestEngine(O);
    LazyStep(O, K, p, t)
  }

  lemma {:induction false} ShapedMore(src: Frame, p: Frame, q: Frame, j: nat)
    requires Shaped(src, p, j) && (forall i | 0 <= i < |q.rows| :: q.rows[i].Keys == q.columns)
    requires p.columns + {CopName(j)} <= q.columns <= p.columns + {CopName(j), Second(j)}
    ensures Shaped(src, q, j + 1)
  {
  }

  /** Names that are not the library's and are in the plan are the source's. */
  lemma {:induction false} SourceNamed(src: Frame, p: Frame, j: nat, names: set<string>)
    requires Shaped(src, p, j) && names <= p.columns && forall n | n in names :: !Reserved(n)
    ensures names <= src.columns
  {
    forall n | n in names ensures n in src.columns {
      if i :| 0 <= i < j && (n == CopName(i) || n == Second(i)) { CopNamesDiffer(i, i); }
    }
  }

  lemma {:induction false} FaithfulBack(src: Frame, p: Frame, keys: seq<string>)
    requires Plain(src) && Faithful(src, p) && KeySet(keys) <= src.columns
    ensures ProjectAll(p.rows, src.columns) == src.rows && Labels(p.rows, keys) == Labels(src.rows, keys)
    ensures forall i | 0 <= i < |p.rows| :: Label(p.rows[i], keys) == Label(src.rows[i], keys)
  {
    forall i | 0 <= i < |p.rows| ensures Project(p.rows[i], src.columns) == src.rows[i] && Label(p.rows[i], keys) == Label(src.rows[i], keys) {
      assert forall k | 0 <= k < |keys| :: keys[k] in KeySet(keys);
    }
  }

  lemma {:induction false} AggStage(O: Ops, K: Kernels, src: Frame, p: Frame, q: Frame, t: Temp, j: nat)
    requires Plain(src) && Shaped(src, p, j) && Faithful(src, p) && t.name == CopName(j) && t.spec.cagg.Some? && Over(t.spec) != []
    requires |q.rows| == |p.rows| && forall i | 0 <= i < |p.rows| ::
               q.rows[i] == p.rows[i][t.name := AggOf(O.E, t.spec.cagg.value, Members(src.rows, Over(t.spec), Label(src.rows[i], Over(t.spec))))]
    ensures Faithful(src, q) && Stage(O, K, src.rows, p.rows, q.rows, t, j)
  {
    hide Members, Label;
    ShapedNames(src, p, j);
    forall n | Upto(n, j) ensures n != t.name {
      CopNamesDiffer(j, j);
      if i :| 0 <= i < j && n == CopName(i) { CopNamesDiffer(i, j); }
    }
    CopNamesDiffer(j, j);
  }

  lemma {:induction false} AddedColumn(p: Frame, name: string, vs: seq<Val>)
    requires |vs| == |p.rows| && forall i | 0 <= i < |p.rows| :: p.rows[i].Keys == p.columns
    ensures var q := AddColumn(p, name, vs);
            && q.columns == p.columns + {name} && |q.rows| == |p.rows|
            && (forall i | 0 <= i < |q.rows| :: q.rows[i].Keys == q.columns && q.rows[i][name] == vs[i])
            && (forall i, n | 0 <= i < |q.rows| && n in p.columns && n != name :: q.rows[i][n] == p.rows[i][n])
  {
  }

  /** Only columns the expression does not read have changed. */
  lemma {:induction false} SameValues(K: Kernels, e: Expr, p: Frame, q: Frame)
    requires |q.rows| == |p.rows|
    requires forall i, n | 0 <= i < |p.rows| && n in Reads(e) :: n in p.rows[i] && n in q.rows[i] && q.rows[i][n] == p.rows[i][n]
    ensures EvalAll(K, e, q.rows) == EvalAll(K, e, p.rows)
  {
    forall i | 0 <= i < |p.rows| ensures Eval(K, e, Row(q.rows[i], [])) == Eval(K, e, Row(p.rows[i], [])) {
      EvalReads(K, e, Row(p.rows[i], []), Row(q.rows[i], []));
    }
  }

  /** With the operands' columns in place: the first under the temporary's name, the second where it is looked for. */
  lemma {:induction false} OperandsPlaced(K: Kernels, src: Frame, p: Frame, t: Temp, j: nat)
    requires Plain(src) && Shaped(src, p, j) && WellPlaced(t, j) && WithOperands(K, p, t).Some?
    ensures var q := WithOperands(K, p, t).value;
            && |q.rows| == |p.rows| && (forall i | 0 <= i < |q.rows| :: q.rows[i].Keys == q.columns)
            && p.columns + {t.name} <= q.columns <= p.columns + {t.name, Second(j)}
            && (forall i, n | 0 <= i < |q.rows| && n in p.columns :: q.rows[i][n] == p.rows[i][n])
            && EvalAll(K, Col(t.name), q.rows) == EvalAll(K, t.arg, p.rows)
            && (t.spec.column2.Some? ==>
                  EvalAll(K, Col(SecondName(t).value), q.rows) == EvalAll(K, t.spec.column2.value, p.rows))
  {
    hide HasOp, Eval;
    ShapedNames(src, p, j);
    var vs := EvalAll(K, t.arg, p.rows);
    var p1 := AddColumn(p, t.name, vs);
    AddedColumn(p, t.name, vs);
    ColumnIs(K, p1, t.name, vs);
    if t.spec.column2.Some? {
      var e2 := t.spec.column2.value;
      forall n | n in Reads(e2) && n in p1.columns ensures n in p.columns && n != t.name { assert Upto(n, j); EarlierName(n, j); }
      assert Reads(e2) <= p1.columns by { if e2.Col? { assert Reads(e2) == {e2.name}; } }
      SameValues(K, e2, p, p1);
      if !e2.Col? {
        var ws := EvalAll(K, e2, p1.rows);
        AddedColumn(p1, t.name + "b", ws);
        ColumnIs(K, AddColumn(p1, t.name + "b", ws), t.name + "b", ws);
        CopNamesDiffer(j, j);
        SameValues(K, Col(t.name), p1, AddColumn(p1, t.name + "b", ws));
      } else {
        assert e2 == Col(SecondName(t).value);
      }
    }
  }

  lemma {:induction false} EarlierName(n: string, j: nat)
    requires Upto(n, j)
    ensures n != CopName(j)
  {
    CopNamesDiffer(j, j);
    if i :| 0 <= i < j && n == CopName(i) { CopNamesDiffer(i, j); }
  }

  lemma {:induction false} ColumnIs(K: Kernels, p: Frame, name: string, vs: seq<Val>)
    requires |vs| == |p.rows| && forall i | 0 <= i < |p.rows| :: name in p.rows[i] && p.rows[i][name] == vs[i]
    ensures EvalAll(K, Col(name), p.rows) == vs
  {
  }

  /** A column-op step: rows and columns are kept, and the step is the stage it should be. */
  lemma {:induction false} LazyOpStep(O: Ops, K: Kernels, src: Frame, p: Frame, t: Temp, j: nat)
    requires HonestOps(O) && Plain(src) && Shaped(src, p, j) && WellPlaced(t, j) && SpecNamed(t.spec)
    requires t.spec.cagg.None? && LazyStepOf(O, K, p, t).Some?
    ensures var q := LazyStepOf(O, K, p, t).value;
            && Shaped(src, q, j + 1) && |q.rows| == |p.rows|
            && (Faithful(src, p) ==> Faithful(src, q) && Stage(O, K, src.rows, p.rows, q.rows, t, j))
  {
    hide HonestOps, LazyOver, WithOperands, Upto, EvalAll, HasOp;
    var q := WithOperands(K, p, t).value;
    var out := LazyStepOf(O, K, p, t).value;
    ShapedNames(src, p, j);
    CopNamesDiffer(j, j);
    OperandsPlaced(K, src, p, t, j);
    HonestEngine(O);
    var first := EvalAll(K, Col(t.name), q.rows);
    EvalHeight(K, Col(t.name), q.rows);
    var vs;
    if t.spec.over.None? {
      var second := SecondName(t);
      vs := O.run(KeyOf(t.spec), first, if second.Some? then Some(EvalAll(K, Col(second.value), q.rows)) else None);
    } else {
      vs := Transformed(O, K, q, t.name, t.spec);
      LazyOverMeans(O, K, q, t.name, t.spec);
    }
    assert |vs| == |q.rows| && out.rows == AddColumn(q, t.name, vs).rows && out.columns == q.columns;
    AddedColumn(q, t.name, vs);
    assert q.columns + {t.name} == q.columns;
    ShapedMore(src, p, out, j);
    if Faithful(src, p) {
      OpValuesIs(O, K, src, p, q, t, j, vs);
      OpStage(O, K, src, p, q, out, t, j, vs);
    }
  }

  lemma {:induction false} EvalHeight(K: Kernels, e: Expr, rows: seq<Cells>)
    ensures |EvalAll(K, e, rows)| == |rows|
  {
  }

  lemma {:induction false} OpValuesIs(O: Ops, K: Kernels, src: Frame, p: Frame, q: Frame, t: Temp, j: nat, vs: seq<Val>)
    requires Plain(src) && Faithful(src, p) && Shaped(src, p, j) && t.spec.cagg.None? && SpecNamed(t.spec)
    requires |q.rows| == |p.rows| && (forall i | 0 <= i < |q.rows| :: q.rows[i].Keys == q.columns)
    requires p.columns + {t.name} <= q.columns <= p.columns + {t.name, Second(j)} && t.name == CopName(j)
    requires forall i, n | 0 <= i < |q.rows| && n in p.columns :: q.rows[i][n] == p.rows[i][n]
    requires EvalAll(K, Col(t.name), q.rows) == EvalAll(K, t.arg, p.rows)
    requires t.spec.column2.Some? ==> EvalAll(K, Col(SecondName(t).value), q.rows) == EvalAll(K, t.spec.column2.value, p.rows)
    requires t.spec.over.Some? ==> t.spec.kind.Some? && KeySet(Over(t.spec)) <= q.columns
    requires vs == if t.spec.over.None? then
                     O.run(KeyOf(t.spec), EvalAll(K, Col(t.name), q.rows),
                           if SecondName(t).Some? then Some(EvalAll(K, Col(SecondName(t).value), q.rows)) else None)
                   else Transformed(O, K, q, t.name, t.spec)
    ensures vs == TempValues(O, K, src.rows, p.rows, t)
  {
    hide EvalAll, Label;
    if t.spec.over.Some? {
      var keys := Over(t.spec);
      ShapedMore(src, p, q, j);
      SourceNamed(src, q, j + 1, KeySet(keys));
      FaithfulMore(src, p, q);
      FaithfulBack(src, q, keys);
    }
  }

  lemma {:induction false} FaithfulMore(src: Frame, p: Frame, q: Frame)
    requires Faithful(src, p) && src.columns <= p.columns <= q.columns && |q.rows| == |p.rows|
    requires (forall i | 0 <= i < |q.rows| :: q.rows[i].Keys == q.columns)
    requires forall i, n | 0 <= i < |q.rows| && n in p.columns :: n in q.rows[i] && n in p.rows[i] && q.rows[i][n] == p.rows[i][n]
    ensures Faithful(src, q)
  {
  }

  lemma {:induction false} OpStage(O: Ops, K: Kernels, src: Frame, p: Frame, q: Frame, out: Frame, t: Temp, j: nat, vs: seq<Val>)
    requires Plain(src) && Shaped(src, p, j) && Faithful(src, p) && t.name == CopName(j)
    requires |q.rows| == |p.rows| && (forall i | 0 <= i < |q.rows| :: q.rows[i].Keys == q.columns)
    requires p.columns + {t.name} <= q.columns <= p.columns + {t.name, Second(j)}
    requires forall i, n | 0 <= i < |q.rows| && n in p.columns :: q.rows[i][n] == p.rows[i][n]
    requires |vs| == |q.rows| && out.rows == AddColumn(q, t.name, vs).rows && vs == TempValues(O, K, src.rows, p.rows, t)
    ensures Faithful(src, out) && Stage(O, K, src.rows, p.rows, out.rows, t, j)
  {
    hide TempValues;
    ShapedNames(src, p, j);
    AddedColumn(q, t.name, vs);
    forall n | Upto(n, j) ensures n != t.name && n != Second(j) {
      EarlierName(n, j);
      CopNamesDiffer(j, j);
      if i :| 0 <= i < j && n == CopName(i) { CopNamesDiffer(j, i); }
    }
  }

  /** No aggregate over keys meets a null key. */
  ghost predicate OversKeyed(src: Frame, e: Expr)
    decreases e
  {
    match e
    case ColumnOpNode(arg, spec) =>
      && OversKeyed(src, arg) && (spec.column2.Some? ==> OversKeyed(src, spec.column2.value))
      && (spec.cagg.Some? ==> AllKeyed(src.rows, Over(spec)))
    case Un(_, arg) => OversKeyed(src, arg)
    case Bin(_, l, r) => OversKeyed(src, l) && OversKeyed(src, r)
    case Select(c, a, b) => OversKeyed(src, c) && OversKeyed(src, a) && OversKeyed(src, b)
    case _ => true
  }

  ghost predicate TempKeyed(src: Frame, t: Temp) { t.spec.cagg.Some? ==> AllKeyed(src.rows, Over(t.spec)) }

  ghost predicate TempsKeyed(src: Frame, ops: seq<Temp>, a: nat, b: nat) {
    forall j | a <= j < b && j < |ops| :: TempKeyed(src, ops[j])
  }

  lemma {:induction false} KeyedJoin(src: Frame, ops: seq<Temp>, a: nat, b: nat, c: nat)
    requires a <= b <= c
    ensures TempsKeyed(src, ops, a, c) <==> TempsKeyed(src, ops, a, b) && TempsKeyed(src, ops, b, c)
  {
  }

  lemma {:induction false} LiftKeyed(src: Frame, e: Expr, before: seq<Temp>, ops: seq<Temp>)
    requires Lift(e, before).ops <= ops
    ensures TempsKeyed(src, ops, |before|, |Lift(e, before).ops|) <==> OversKeyed(src, e)
    decreases e
  {
    hide TempKeyed, AllKeyed;
    var m := |Lift(e, before).ops|;
    match e {
      case ColumnOpNode(arg, spec) =>
        var x := Lift(arg, before);
        LiftKeyed(src, arg, before, ops);
        if spec.column2.Some? { LiftKeyed(src, spec.column2.value, x.ops, ops); }
        KeyedJoin(src, ops, |before|, |x.ops|, m - 1);
        KeyedJoin(src, ops, |before|, m - 1, m);
        NodeKeyed(src, arg, spec, before);
        assert ops[m - 1] == Lift(e, before).ops[m - 1];
      case Un(_, arg) => LiftKeyed(src, arg, before, ops);
      case Bin(_, l, r) =>
        LiftKeyed(src, l, before, ops);
        LiftKeyed(src, r, Lift(l, before).ops, ops);
        KeyedJoin(src, ops, |before|, |Lift(l, before).ops|, m);
      case Select(c, a, b) =>
        var x := Lift(c, before);
        var y := Lift(a, x.ops);
        LiftKeyed(src, c, before, ops);
        LiftKeyed(src, a, x.ops, ops);
        LiftKeyed(src, b, y.ops, ops);
        KeyedJoin(src, ops, |before|, |x.ops|, |y.ops|);
        KeyedJoin(src, ops, |before|, |y.ops|, m);
      case _ =>
    }
  }

  lemma {:induction false} NodeKeyed(src: Frame, arg: Expr, spec: ColumnOp, before: seq<Temp>)
    ensures var ops := Lift(ColumnOpNode(arg, spec), before).ops;
            TempKeyed(src, ops[|ops| - 1]) <==> (spec.cagg.Some? ==> AllKeyed(src.rows, Over(spec)))
  {
    hide AllKeyed;
  }

  /** A plan can take a column-op node: known operands and keys, a group-wise form where it is over keys, and keys where
      it is an aggregate. */
  ghost predicate NodePlans(src: Frame, arg: Expr, spec: ColumnOp) {
    if spec.cagg.Some? then Over(spec) != [] && KeySet(Over(spec)) <= src.columns && AggReads(spec.cagg.value) <= src.columns
    else
      && Reads(arg) <= src.columns && (spec.column2.Some? ==> Reads(spec.column2.value) <= src.columns)
      && (spec.over.Some? ==> spec.kind.Some? && KeySet(Over(spec)) <= src.columns)
  }

  /** A plan can take every column op of the expression. */
  ghost predicate OpsPlan(src: Frame, e: Expr)
    decreases e
  {
    match e
    case ColumnOpNode(arg, spec) =>
      OpsPlan(src, arg) && (spec.column2.Some? ==> OpsPlan(src, spec.column2.value)) && NodePlans(src, arg, spec)
    case Un(_, arg) => OpsPlan(src, arg)
    case Bin(_, l, r) => OpsPlan(src, l) && OpsPlan(src, r)
    case Select(c, a, b) => OpsPlan(src, c) && OpsPlan(src, a) && OpsPlan(src, b)
    case _ => true
  }

  ghost predicate Known(e: Expr, columns: set<string>, j: nat) {
    forall n | n in Reads(e) :: n in columns || exists i :: 0 <= i < j && n == CopName(i)
  }

  ghost predicate TempPlans(src: Frame, t: Temp, j: nat) {
    if t.spec.cagg.Some? then
      Over(t.spec) != [] && KeySet(Over(t.spec)) <= src.columns && AggReads(t.spec.cagg.value) <= src.columns
    else
      && Known(t.arg, src.columns, j) && (t.spec.column2.Some? ==> Known(t.spec.column2.value, src.columns, j))
      && (t.spec.over.Some? ==> t.spec.kind.Some? && KeySet(Over(t.spec)) <= src.columns)
  }

  ghost predicate TempsPlan(src: Frame, ops: seq<Temp>, a: nat, b: nat) {
    forall j | a <= j < b && j < |ops| :: TempPlans(src, ops[j], j)
  }

  lemma {:induction false} PlansJoin(src: Frame, ops: seq<Temp>, a: nat, b: nat, c: nat)
    requires a <= b <= c
    ensures TempsPlan(src, ops, a, c) <==> TempsPlan(src, ops, a, b) && TempsPlan(src, ops, b, c)
  {
  }

  lemma {:induction false} LiftKnows(e: Expr, ops: seq<Temp>, src: Frame, j: nat)
    requires j >= |Lift(e, ops).ops| && Plain(src) && forall n | n in Names(e) :: !Reserved(n)
    ensures Known(Lift(e, ops).e, src.columns, j) <==> Reads(e) <= src.columns
  {
    LiftTops(e, ops);
    ReadsNamed(e);
    forall n | n in Reads(e) ensures (exists i :: 0 <= i < j && n == CopName(i)) ==> false {
      if i :| 0 <= i < j && n == CopName(i) { CopNamesDiffer(i, i); }
    }
  }

  lemma {:induction false} NodeTempPlans(src: Frame, arg: Expr, spec: ColumnOp, before: seq<Temp>)
    requires Plain(src) && forall n | n in Names(ColumnOpNode(arg, spec)) :: !Reserved(n)
    ensures var ops := Lift(ColumnOpNode(arg, spec), before).ops;
            TempPlans(src, ops[|ops| - 1], |ops| - 1) <==> NodePlans(src, arg, spec)
  {
    hide Known, AggReads;
    var x := Lift(arg, before);
    var ops := Lift(ColumnOpNode(arg, spec), before).ops;
    LiftKnows(arg, before, src, |ops| - 1);
    if spec.column2.Some? { LiftKnows(spec.column2.value, x.ops, src, |ops| - 1); }
  }

  /** A plan takes every op of the expression exactly when it takes every temporary that is lifted to. */
  lemma {:induction false} LiftPlans(src: Frame, e: Expr, before: seq<Temp>, ops: seq<Temp>)
    requires Plain(src) && Lift(e, before).ops <= ops && forall n | n in Names(e) :: !Reserved(n)
    ensures TempsPlan(src, ops, |before|, |Lift(e, before).ops|) <==> OpsPlan(src, e)
    decreases e
  {
    hide CopName, Reserved, TempPlans, NodePlans, TempsPlan;
    var m := |Lift(e, before).ops|;
    match e {
      case ColumnOpNode(arg, spec) =>
        var x := Lift(arg, before);
        LiftPlans(src, arg, before, ops);
        if spec.column2.Some? { LiftPlans(src, spec.column2.value, x.ops, ops); }
        PlansJoin(src, ops, |before|, |x.ops|, m - 1);
        PlansJoin(src, ops, |before|, m - 1, m);
        NodeTempPlans(src, arg, spec, before);
        OnePlan(src, ops, m - 1);
        assert ops[m - 1] == Lift(e, before).ops[m - 1];
      case Un(_, arg) => LiftPlans(src, arg, before, ops);
      case Bin(_, l, r) =>
        LiftPlans(src, l, before, ops);
        LiftPlans(src, r, Lift(l, before).ops, ops);
        PlansJoin(src, ops, |before|, |Lift(l, before).ops|, m);
      case Select(c, a, b) =>
        var x := Lift(c, before);
        var y := Lift(a, x.ops);
        LiftPlans(src, c, before, ops);
        LiftPlans(src, a, x.ops, ops);
        LiftPlans(src, b, y.ops, ops);
        PlansJoin(src, ops, |before|, |x.ops|, |y.ops|);
        PlansJoin(src, ops, |before|, |y.ops|, m);
      case _ => NoPlans(src, ops, m);
    }
  }

  lemma {:induction false} NoPlans(src: Frame, ops: seq<Temp>, a: nat)
    ensures TempsPlan(src, ops, a, a)
  {
  }

  lemma {:induction false} OnePlan(src: Frame, ops: seq<Temp>, a: nat)
    requires a < |ops|
    ensures TempsPlan(src, ops, a, a + 1) <==> TempPlans(src, ops[a], a)
  {
    hide TempPlans;
  }

  /** Among names up to the j-th temporary, the plan's columns are the source's and the temporaries. */
  lemma {:induction false} InPlan(src: Frame, p: Frame, j: nat, n: string)
    requires Plain(src) && Shaped(src, p, j) && Upto(n, j)
    ensures n in p.columns <==> n in src.columns || exists i :: 0 <= i < j && n == CopName(i)
  {
    if n in p.columns && n !in src.columns {
      var i :| 0 <= i < j && (n == CopName(i) || n == Second(i));
      CopNamesDiffer(i, i);
      if k :| 0 <= k < j && n == CopName(k) {} else { assert false; }
    }
  }

  lemma {:induction false} KnownInPlan(src: Frame, p: Frame, j: nat, e: Expr)
    requires Plain(src) && Shaped(src, p, j) && forall n | n in Reads(e) :: Upto(n, j)
    ensures Reads(e) <= p.columns <==> Known(e, src.columns, j)
    ensures CopName(j) !in Reads(e)
  {
    hide Upto, Shaped, Plain;
    forall n | n in Reads(e) ensures n in p.columns <==> n in src.columns || exists i :: 0 <= i < j && n == CopName(i) {
      InPlan(src, p, j, n);
    }
    forall n | n in Reads(e) ensures n != CopName(j) { EarlierName(n, j); }
  }

  lemma {:induction false} OverInPlan(src: Frame, p: Frame, j: nat, names: set<string>)
    requires Plain(src) && Shaped(src, p, j) && forall n | n in names :: !Reserved(n)
    ensures names <= p.columns <==> names <= src.columns
  {
    if names <= p.columns { SourceNamed(src, p, j, names); }
  }

  /** A step is appended exactly when a plan can take its temporary. */
  lemma {:induction false} StepPlans(O: Ops, K: Kernels, src: Frame, p: Frame, t: Temp, j: nat)
    requires HonestOps(O) && Plain(src) && Shaped(src, p, j) && WellPlaced(t, j) && SpecNamed(t.spec)
    ensures LazyStepOf(O, K, p, t).Some? <==> TempPlans(src, t, j)
  {
    hide HonestOps, Plain, Shaped, Upto, Reserved, HasOp, EvalAll, LazyOver, LazyAggOver, Known, AggReads;
    if t.spec.cagg.Some? {
      OverInPlan(src, p, j, KeySet(Over(t.spec)));
      OverInPlan(src, p, j, AggReads(t.spec.cagg.value));
    } else {
      KnownInPlan(src, p, j, t.arg);
      OverInPlan(src, p, j, KeySet(Over(t.spec)));
      OverTemporary(src, p, j, KeySet(Over(t.spec)));
      if t.spec.column2.Some? {
        KnownInPlan(src, p, j, t.spec.column2.value);
        if t.spec.column2.value.Col? { assert Reads(t.spec.column2.value) == {t.spec.column2.value.name}; }
      }
    }
  }

  lemma {:induction false} OverTemporary(src: Frame, p: Frame, j: nat, names: set<string>)
    requires Plain(src) && Shaped(src, p, j) && forall n | n in names :: !Reserved(n)
    ensures CopName(j) !in names && CopName(j) + "b" !in names
  {
    CopNamesDiffer(j, j);
  }

  /** The plan so far: on the source's rows as long as no aggregate met a null key, fewer rows once one has. */
  ghost predicate Planned(O: Ops, K: Kernels, src: Frame, ops: seq<Temp>, j: nat, fs: seq<seq<Cells>>, p: Frame) {
    && j <= |ops| && Shaped(src, p, j)
    && (if TempsKeyed(src, ops, 0, j) then Faithful(src, p) && Stages(O, K, ops[..j], fs) && fs[0] == src.rows && fs[j] == p.rows
        else |p.rows| < |src.rows|)
  }

  lemma {:induction false} PlannedNone(O: Ops, K: Kernels, src: Frame, ops: seq<Temp>)
    requires Plain(src)
    ensures Planned(O, K, src, ops, 0, [src.rows], src)
  {
  }

  lemma {:induction false} PlannedNext(O: Ops, K: Kernels, src: Frame, ops: seq<Temp>, j: nat, fs: seq<seq<Cells>>, p: Frame, q: Frame)
    requires HonestOps(O) && Plain(src) && j < |ops| && Planned(O, K, src, ops, j, fs, p)
    requires WellPlaced(ops[j], j) && SpecNamed(ops[j].spec) && LazyStepOf(O, K, p, ops[j]) == Some(q)
    ensures Planned(O, K, src, ops, j + 1, fs + [q.rows], q)
  {
    hide HonestOps, Plain, Shaped, Stage, AllKeyed, LazyStepOf, WellPlaced, SpecNamed;
    KeyedJoin(src, ops, 0, j, j + 1);
    PlacedName(ops[j], j);
    if ops[j].spec.cagg.Some? { LazyAggStep(O, K, src, p, ops[j], j); } else { LazyOpStep(O, K, src, p, ops[j], j); }
    assert TempsKeyed(src, ops, j, j + 1) <==> TempKeyed(src, ops[j]);
    if TempsKeyed(src, ops, 0, j + 1) {
      StagesNext(O, K, ops, j, fs, q.rows);
    }
  }

  lemma {:induction false} PlacedName(t: Temp, j: nat)
    requires WellPlaced(t, j)
    ensures t.name == CopName(j)
  {
  }

  lemma {:induction false} StagesNext(O: Ops, K: Kernels, ops: seq<Temp>, j: nat, fs: seq<seq<Cells>>, rows: seq<Cells>)
    requires j < |ops| && Stages(O, K, ops[..j], fs) && Stage(O, K, fs[0], fs[j], rows, ops[j], j)
    ensures Stages(O, K, ops[..j + 1], fs + [rows]) && (fs + [rows])[j + 1] == rows
  {
    hide Stage;
    var fs' := fs + [rows];
    assert ops[..j + 1] == ops[..j] + [ops[j]];
    forall k | 0 <= k < j + 1 ensures Stage(O, K, fs'[0], fs'[k], fs'[k + 1], ops[..j + 1][k], k) {
      if k < j { assert Stage(O, K, fs[0], fs[k], fs[k + 1], ops[..j][k], k); }
    }
  }

  lemma {:induction false} PlannedMeans(O: Ops, K: Kernels, src: Frame, e: Expr, fs: seq<seq<Cells>>, p: Frame)
    requires Plain(src) && Callers(e) && Planned(O, K, src, Lift(e, []).ops, |Lift(e, []).ops|, fs, p)
    ensures |p.rows| == |src.rows| <==> OversKeyed(src, e)
    ensures OversKeyed(src, e) ==> Faithful(src, p) && forall i | 0 <= i < |src.rows| ::
              Eval(K, Lift(e, []).e, Row(p.rows[i], [])) == At(O, K, e, src.rows, i)
  {
    hide Plain, Shaped, Stages, At, Eval, OversKeyed, TempsKeyed;
    var l := Lift(e, []);
    assert l.ops[..|l.ops|] == l.ops;
    LiftKeyed(src, e, [], l.ops);
    if OversKeyed(src, e) {
      forall i | 0 <= i < |src.rows| ensures Eval(K, l.e, Row(p.rows[i], [])) == At(O, K, e, src.rows, i) {
        LiftMeans(O, K, e, [], l.ops, fs, i);
      }
    }
  }

  /** The steps one temporary adds to a plan, and the temporaries they leave on it. */
  function StepTemps(t: Temp): seq<string> {
    if t.spec.cagg.None? && t.spec.column2.Some? && !t.spec.column2.value.Col? then [t.name, t.name + "b"] else [t.name]
  }

  lemma {:induction false} StepColumns(O: Ops, K: Kernels, p: Frame, t: Temp)
    requires HonestOps(O) && LazyStepOf(O, K, p, t).Some?
    ensures LazyStepOf(O, K, p, t).value.columns == p.columns + KeySet(StepTemps(t))
  {
    hide HonestOps, EvalAll, LazyOver, LazyAggOver;
  }

  /** The plan with every column op of the expression appended, the expression over it, and the temporaries to drop: on
      every row the rewritten expression means the nested one, the source's rows and columns are kept in order, and the
      rest of the columns are the temporaries listed; so long as no aggregate over keys meets a null key, and exactly
      then does the plan keep all its rows. */
  method LowerColumnOps(O: Ops, K: Kernels, e: Expr, src: Frame) returns (plan: Option<Frame>, rewritten: Expr, temps: seq<string>)
    requires HonestOps(O) && Plain(src) && Callers(e)
    ensures !HasOp(rewritten)
    ensures plan.Some? <==> OpsPlan(src, e)
    ensures plan.Some? ==> plan.value.columns == src.columns + KeySet(temps)
    ensures plan.Some? ==> (|plan.value.rows| == |src.rows| <==> OversKeyed(src, e))
    ensures plan.Some? && OversKeyed(src, e) ==> Faithful(src, plan.value) && forall i | 0 <= i < |src.rows| ::
              Eval(K, rewritten, Row(plan.value.rows[i], [])) == At(O, K, e, src.rows, i)
  {
    hide HonestOps, Plain, Planned, OversKeyed, LazyStep, Callers, Column, At, Eval, WellPlaced;
    hide SpecNamed, Faithful, OpsPlan, TempPlans, Upto, HasOp, LazyAggOver, LazyOver;
    hide StepTemps, Honest, Widened;
    var splitter := new OpSplitter();
    rewritten := splitter.Run(e);
    var ops := splitter.ops;
    assert Lifted(rewritten, ops) == Lift(e, []);
    LiftedWell(e);
    LiftClears(e, []);
    HonestEngine(O);
    var p := src;
    temps := [];
    ghost var fs := [src.rows];
    PlannedNone(O, K, src, ops);
    CallersLift(src, e);
    for j := 0 to |ops|
      invariant Planned(O, K, src, ops, j, fs, p)
      invariant p.columns == src.columns + KeySet(temps)
      invariant TempsPlan(src, ops, 0, j)
    {
      var q := LazyStep(O, K, p, ops[j]);
      assert LazyStepOf(O, K, p, ops[j]) == q;
      PlannedStep(O, K, src, ops, j, fs, p);
      if q.None? { return None, rewritten, temps; }
      StepColumns(O, K, p, ops[j]);
      PlannedNext(O, K, src, ops, j, fs, p, q.value);
      KeySetAppend(temps, StepTemps(ops[j]));
      p := q.value;
      temps := temps + StepTemps(ops[j]);
      fs := fs + [p.rows];
    }
    PlannedMeans(O, K, src, e, fs, p);
    plan := Some(p);
  }

  lemma {:induction false} PlannedStep(O: Ops, K: Kernels, src: Frame, ops: seq<Temp>, j: nat, fs: seq<seq<Cells>>, p: Frame)
    requires HonestOps(O) && Plain(src) && j < |ops| && Planned(O, K, src, ops, j, fs, p)
    requires WellPlaced(ops[j], j) && SpecNamed(ops[j].spec)
    ensures LazyStepOf(O, K, p, ops[j]).Some? <==> TempPlans(src, ops[j], j)
  {
    hide HonestOps, Plain, Shaped, WellPlaced, SpecNamed, LazyStepOf, TempPlans;
    StepPlans(O, K, src, p, ops[j], j);
  }

  lemma {:induction false} CallersLift(src: Frame, e: Expr)
    requires Plain(src) && Callers(e)
    ensures TempsPlan(src, Lift(e, []).ops, 0, |Lift(e, []).ops|) <==> OpsPlan(src, e)
  {
    hide TempPlans, OpsPlan, Plain;
    LiftPlans(src, e, [], Lift(e, []).ops);
  }

  lemma {:induction false} KeySetAppend(a: seq<string>, b: seq<string>)
    ensures KeySet(a + b) == KeySet(a) + KeySet(b)
  {
  }
}
