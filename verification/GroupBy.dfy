/** Groups: aggregate leaves lifted into columns, rows joined with their groups and sorted back by row number, and the
    group-by-group run of a filter.

    The engine's group-by, join and sort enter as functions with stated contracts: groups in any order, join matches
    in any order, any sorted permutation. Columns whose names start with `__dftu_` are the library's own. */
module GroupBy {
  import opened Options
  import opened Text
  import opened Exprs
  import opened PostOrder

  type Cells = map<string, Val>

  datatype Frame = Frame(columns: set<string>, rows: seq<Cells>)

  datatype Engine = Engine(
    aggregate: (Agg, seq<Cells>) -> Val,
    groupBy: (seq<Cells>, seq<string>, seq<Agg>) -> seq<Cells>,
    join: (seq<Cells>, seq<Cells>, seq<string>) -> seq<Cells>,
    sortBy: (seq<Cells>, string) -> seq<Cells>)

  const ROW := "__dftu_row__"

  function AggName(i: nat): string { "__dftu_agg_" + Digits(i) + "__" }

  predicate Own(name: string) { IsPrefix("__dftu_", name) }

  // ---- `split_aggs` ------------------------------------------------------------------------------------

  /** The expression with its aggregate leaves replaced by columns, and the list of aggregates after it. */
  datatype Split = Split(e: Expr, aggs: seq<Agg>)

  function Rewrite(e: Expr, aggs: seq<Agg>): (s: Split)
    ensures aggs <= s.aggs
  {
    match e
    case AggLeaf(a) => Split(Col(AggName(|aggs|)), aggs + [a.(out := Some(AggName(|aggs|)))])
    case Un(op, arg) =>
      var x := Rewrite(arg, aggs);
      Split(Un(op, x.e), x.aggs)
    case Bin(op, l, r) =>
      var x := Rewrite(l, aggs);
      var y := Rewrite(r, x.aggs);
      Split(Bin(op, x.e, y.e), y.aggs)
    case Select(c, a, b) =>
      var x := Rewrite(c, aggs);
      var y := Rewrite(a, x.aggs);
      var z := Rewrite(b, y.aggs);
      Split(Select(x.e, y.e, z.e), z.aggs)
    case ColumnOpNode(arg, spec) =>
      var x := Rewrite(arg, aggs);
      Split(ColumnOpNode(x.e, spec), x.aggs)
    case _ => Split(e, aggs)
  }

  /** The rewriter and the list it appends to. */
  class Splitter {
    var aggs: seq<Agg>

    constructor ()
      ensures aggs == []
    { aggs := []; }

    method Run(e: Expr) returns (out: Expr)
      modifies this
      ensures Split(out, aggs) == Rewrite(e, old(aggs))
      decreases e
    {
      match e
      case AggLeaf(a) =>
        aggs := aggs + [a.(out := Some(AggName(|aggs|)))];
        return Col(AggName(|aggs| - 1));
      case Un(op, arg) =>
        var x := Run(arg);
        return Un(op, x);
      case Bin(op, l, r) =>
        var x := Run(l);
        var y := Run(r);
        return Bin(op, x, y);
      case Select(c, a, b) =>
        var x := Run(c);
        var y := Run(a);
        var z := Run(b);
        return Select(x, y, z);
      case ColumnOpNode(arg, spec) =>
        var x := Run(arg);
        return ColumnOpNode(x, spec);
      case _ => return e;
    }
  }

  predicate HasAggLeaf(e: Expr) {
    match e
    case AggLeaf(_) => true
    case Un(_, arg) => HasAggLeaf(arg)
    case Bin(_, l, r) => HasAggLeaf(l) || HasAggLeaf(r)
    case Select(c, a, b) => HasAggLeaf(c) || HasAggLeaf(a) || HasAggLeaf(b)
    case ColumnOpNode(arg, _) => HasAggLeaf(arg)
    case _ => false
  }

  /** There are aggregates to evaluate exactly when the expression has such a leaf, and none is left in it. */
  lemma {:induction false} SplitLeaves(e: Expr, aggs: seq<Agg>)
    ensures HasAggLeaf(e) <==> |Rewrite(e, aggs).aggs| > |aggs|
    ensures !HasAggLeaf(Rewrite(e, aggs).e)
  {
    match e {
      case Un(_, arg) => SplitLeaves(arg, aggs);
      case Bin(_, l, r) =>
        SplitLeaves(l, aggs);
        SplitLeaves(r, Rewrite(l, aggs).aggs);
      case Select(c, a, b) =>
        SplitLeaves(c, aggs);
        SplitLeaves(a, Rewrite(c, aggs).aggs);
        SplitLeaves(b, Rewrite(a, Rewrite(c, aggs).aggs).aggs);
      case ColumnOpNode(arg, _) => SplitLeaves(arg, aggs);
      case _ =>
    }
  }

  lemma {:induction false} AggsNamed(e: Expr, aggs: seq<Agg>)
    requires forall i | 0 <= i < |aggs| :: aggs[i].out == Some(AggName(i))
    ensures forall i | 0 <= i < |Rewrite(e, aggs).aggs| :: Rewrite(e, aggs).aggs[i].out == Some(AggName(i))
  {
    match e {
      case Un(_, arg) => AggsNamed(arg, aggs);
      case Bin(_, l, r) =>
        AggsNamed(l, aggs);
        AggsNamed(r, Rewrite(l, aggs).aggs);
      case Select(c, a, b) =>
        AggsNamed(c, aggs);
        AggsNamed(a, Rewrite(c, aggs).aggs);
        AggsNamed(b, Rewrite(a, Rewrite(c, aggs).aggs).aggs);
      case ColumnOpNode(arg, _) => AggsNamed(arg, aggs);
      case _ =>
    }
  }

  lemma {:induction false} DigitsEnd(n: nat)
    ensures |Digits(n)| >= 1 && Digits(n)[|Digits(n)| - 1] == "0123456789"[n % 10]
    ensures Digits(n)[..|Digits(n)| - 1] == if n < 10 then [] else Digits(n / 10)
  {
    if n >= 10 { assert Digits(n)[..|Digits(n)| - 1] == Digits(n / 10); }
  }

  lemma {:induction false} DigitOf(a: nat, b: nat)
    requires a < 10 && b < 10 && "0123456789"[a] == "0123456789"[b]
    ensures a == b
  {
  }

  lemma {:induction false} DigitsInjective(m: nat, n: nat)
    requires Digits(m) == Digits(n)
    ensures m == n
    decreases m + n
  {
    hide Digits;
    DigitsEnd(m);
    DigitsEnd(n);
    DigitOf(m % 10, n % 10);
    if m >= 10 && n >= 10 {
      DigitsInjective(m / 10, n / 10);
    } else if m >= 10 {
      DigitsEnd(m / 10);
    } else if n >= 10 {
      DigitsEnd(n / 10);
    }
  }

  /** Each aggregate has a column name of its own. */
  lemma {:induction false} AggNamesDiffer(i: nat, j: nat)
    ensures AggName(i) == AggName(j) ==> i == j
    ensures Own(AggName(i)) && AggName(i) != ROW
  {
    DigitsEnd(i);
    assert AggName(i)[..7] == "__dftu_" && AggName(i)[7] == 'a' && ROW[7] == 'r';
    if AggName(i) == AggName(j) {
      assert AggName(i)[11..|AggName(i)| - 2] == Digits(i) && AggName(j)[11..|AggName(j)| - 2] == Digits(j);
      DigitsInjective(i, j);
    }
  }

  // ---- groups ----------------------------------------------------------------------------------------------

  ghost predicate Rectangular(rows: seq<Cells>, names: set<string>) { forall i | 0 <= i < |rows| :: names <= rows[i].Keys }

  /** A cell as a key: a null is a null, whatever lies under it. */
  function KeyCell(v: Val): Val { if v.VNull? then VNull(v.t, false) else v }

  function Label(row: Cells, keys: seq<string>): seq<Val> {
    seq(|keys|, k requires 0 <= k < |keys| => if keys[k] in row then KeyCell(row[keys[k]]) else Fault)
  }

  predicate NonNull(at: seq<Val>) { forall k | 0 <= k < |at| :: !at[k].VNull? }

  /** The rows of one group, in input order. */
  function Members(rows: seq<Cells>, keys: seq<string>, at: seq<Val>): seq<Cells> {
    if rows == [] then []
    else (if Label(rows[0], keys) == at then [rows[0]] else []) + Members(rows[1..], keys, at)
  }

  function AggOf(E: Engine, a: Agg, group: seq<Cells>): Val { E.aggregate(a.(out := None), group) }

  /** The aggregates of one group. */
  function Leaf(E: Engine, group: seq<Cells>): Agg -> Val { a => E.aggregate(a, group) }

  function GroupLeaf(E: Engine, rows: seq<Cells>, keys: seq<string>, at: seq<Val>): Agg -> Val {
    Leaf(E, Members(rows, keys, at))
  }

  // ---- what the engine promises ---------------------------------------------------------------------------

  /** One row per label that occurs, each non-null label once, with the keys and the group's aggregates. */
  ghost predicate Grouped(E: Engine, rows: seq<Cells>, keys: seq<string>, aggs: seq<Agg>, out: seq<Cells>) {
    && (forall j | 0 <= j < |out| :: out[j].Keys == KeySet(keys) + Outs(aggs) && Aggregated(E, rows, keys, aggs, out[j]))
    && (forall j, k | 0 <= j < k < |out| && NonNull(Label(out[j], keys)) :: Label(out[j], keys) != Label(out[k], keys))
    && (forall i | 0 <= i < |rows| && NonNull(Label(rows[i], keys)) :: HasLabel(out, keys, Label(rows[i], keys)))
    && (forall j | 0 <= j < |out| && keys != [] :: HasLabel(rows, keys, Label(out[j], keys)))
    && (keys == [] ==> |out| == 1)
  }

  function KeySet(keys: seq<string>): set<string> { set k | k in keys }
  function Outs(aggs: seq<Agg>): set<string> { set a | a in aggs && a.out.Some? :: a.out.value }

  ghost predicate Aggregated(E: Engine, rows: seq<Cells>, keys: seq<string>, aggs: seq<Agg>, row: Cells) {
    forall m | 0 <= m < |aggs| && aggs[m].out.Some? ::
      aggs[m].out.value in row && row[aggs[m].out.value] == AggOf(E, aggs[m], Members(rows, keys, Label(row, keys)))
  }

  ghost predicate HasLabel(rows: seq<Cells>, keys: seq<string>, at: seq<Val>) {
    exists j :: 0 <= j < |rows| && Label(rows[j], keys) == at
  }

  predicate Matches(l: Cells, r: Cells, keys: seq<string>) { NonNull(Label(l, keys)) && Label(l, keys) == Label(r, keys) }

  function PairsOf(l: Cells, right: seq<Cells>, keys: seq<string>): seq<Cells> {
    if right == [] then []
    else (if Matches(l, right[0], keys) then [l + right[0]] else []) + PairsOf(l, right[1..], keys)
  }

  function Pairs(left: seq<Cells>, right: seq<Cells>, keys: seq<string>): seq<Cells> {
    if left == [] then [] else PairsOf(left[0], right, keys) + Pairs(left[1..], right, keys)
  }

  predicate Numbered(c: string, row: Cells) { c in row && row[c].VI? }

  ghost predicate SortedByRow(c: string, rows: seq<Cells>) {
    && (forall i | 0 <= i < |rows| :: Numbered(c, rows[i]))
    && forall i, j | 0 <= i < j < |rows| :: rows[i][c].i <= rows[j][c].i
  }

  /** Distinct names that no key or aggregate shares. */
  ghost predicate Names(keys: seq<string>, aggs: seq<Agg>) {
    && (forall i, j | 0 <= i < j < |aggs| :: aggs[i].out != aggs[j].out)
    && (forall i | 0 <= i < |aggs| :: aggs[i].out.Some? && aggs[i].out.value !in keys)
  }

  ghost predicate Honest(E: Engine) {
    && (forall rows, keys, aggs | Rectangular(rows, KeySet(keys)) && Names(keys, aggs) ::
          Grouped(E, rows, keys, aggs, E.groupBy(rows, keys, aggs)))
    && (forall left, right, keys :: multiset(E.join(left, right, keys)) == multiset(Pairs(left, right, keys)))
    && (forall rows, c | forall i | 0 <= i < |rows| :: Numbered(c, rows[i]) ::
          SortedByRow(c, E.sortBy(rows, c)) && multiset(E.sortBy(rows, c)) == multiset(rows))
  }

  // ---- rows by number ------------------------------------------------------------------------------------

  /** The positions below `n` that satisfy `p`, ascending. */
  function Where(n: nat, p: nat -> bool): seq<nat> { if n == 0 then [] else Where(n - 1, p) + if p(n - 1) then [n - 1] else [] }

  function TakeRows(rows: seq<Cells>, idxs: seq<nat>): seq<Cells>
    requires forall k | 0 <= k < |idxs| :: idxs[k] < |rows|
  { seq(|idxs|, k requires 0 <= k < |idxs| => rows[idxs[k]]) }

  lemma {:induction false} WhereHolds(n: nat, p: nat -> bool)
    ensures forall k | 0 <= k < |Where(n, p)| :: Where(n, p)[k] < n && p(Where(n, p)[k])
    ensures forall j, k | 0 <= j < k < |Where(n, p)| :: Where(n, p)[j] < Where(n, p)[k]
    ensures forall i | 0 <= i < n && p(i) :: i in Where(n, p)
  {
    if n > 0 { WhereHolds(n - 1, p); }
  }

  function Indexed(c: string, rows: seq<Cells>): seq<Cells> {
    seq(|rows|, i requires 0 <= i < |rows| => rows[i][c := VI(i)])
  }

  function Project(row: Cells, names: set<string>): Cells { map n | n in row && n in names :: row[n] }

  function ProjectAll(rows: seq<Cells>, names: set<string>): seq<Cells> {
    seq(|rows|, i requires 0 <= i < |rows| => Project(rows[i], names))
  }

  ghost predicate StrictByRow(c: string, rows: seq<Cells>) {
    && (forall i | 0 <= i < |rows| :: Numbered(c, rows[i]))
    && forall i, j | 0 <= i < j < |rows| :: rows[i][c].i < rows[j][c].i
  }

  lemma {:induction false} SameHead(c: string, s: seq<Cells>, t: seq<Cells>)
    requires SortedByRow(c, s) && StrictByRow(c, t) && multiset(s) == multiset(t) && s != [] && t != []
    ensures s[0] == t[0]
  {
    assert s[0] in multiset(t) && t[0] in multiset(s);
    var i :| 0 <= i < |t| && t[i] == s[0];
    var j :| 0 <= j < |s| && s[j] == t[0];
    if i > 0 { assert t[0][c].i < t[i][c].i; }
    if j > 0 { assert s[0][c].i <= s[j][c].i; }
  }

  lemma {:induction false} TailBag(s: seq<Cells>)
    requires s != []
    ensures multiset(s) == multiset{s[0]} + multiset(s[1..])
  {
    assert s == [s[0]] + s[1..];
  }

  lemma {:induction false} TailsSorted(c: string, s: seq<Cells>, t: seq<Cells>)
    requires SortedByRow(c, s) && StrictByRow(c, t) && s != [] && t != []
    ensures SortedByRow(c, s[1..]) && StrictByRow(c, t[1..])
  {
  }

  lemma {:induction false} SameTails(c: string, s: seq<Cells>, t: seq<Cells>)
    requires SortedByRow(c, s) && StrictByRow(c, t) && multiset(s) == multiset(t) && s != [] && t != []
    ensures s[0] == t[0] && multiset(s[1..]) == multiset(t[1..])
  {
    hide SortedByRow, StrictByRow;
    SameHead(c, s, t);
    TailBag(s);
    TailBag(t);
    assert multiset(s[1..]) == multiset(s) - multiset{s[0]};
    assert multiset(t[1..]) == multiset(t) - multiset{t[0]};
  }

  /** Whatever order a sort is given rows of different numbers in, it gives one result. */
  lemma {:induction false} SortedIs(c: string, s: seq<Cells>, t: seq<Cells>)
    requires SortedByRow(c, s) && StrictByRow(c, t) && multiset(s) == multiset(t)
    ensures s == t
    decreases |s|
  {
    hide SortedByRow, StrictByRow;
    assert |s| == |multiset(s)| == |multiset(t)| == |t|;
    if s != [] {
      SameTails(c, s, t);
      TailsSorted(c, s, t);
      SortedIs(c, s[1..], t[1..]);
      assert s == [s[0]] + s[1..] && t == [t[0]] + t[1..];
    }
  }

  // ---- joins on group labels -------------------------------------------------------------------------------

  ghost predicate DistinctLabels(right: seq<Cells>, keys: seq<string>) {
    forall j, k | 0 <= j < k < |right| && NonNull(Label(right[j], keys)) :: Label(right[j], keys) != Label(right[k], keys)
  }

  lemma {:induction false} NoMatch(l: Cells, right: seq<Cells>, keys: seq<string>)
    requires forall j | 0 <= j < |right| :: !Matches(l, right[j], keys)
    ensures PairsOf(l, right, keys) == []
  {
    if right != [] {
      assert !Matches(l, right[0], keys);
      forall j | 0 <= j < |right| - 1 ensures !Matches(l, right[1..][j], keys) { assert right[1..][j] == right[j + 1]; }
      NoMatch(l, right[1..], keys);
    }
  }

  /** A row meets its group once. */
  lemma {:induction false} OneMatch(l: Cells, right: seq<Cells>, keys: seq<string>, j: nat)
    requires DistinctLabels(right, keys) && j < |right| && Matches(l, right[j], keys)
    ensures PairsOf(l, right, keys) == [l + right[j]]
  {
    if j == 0 {
      forall k | 0 <= k < |right| - 1 ensures !Matches(l, right[1..][k], keys) {
        assert right[1..][k] == right[k + 1] && Label(right[0], keys) != Label(right[k + 1], keys);
      }
      NoMatch(l, right[1..], keys);
    } else {
      assert NonNull(Label(right[0], keys)) ==> Label(right[0], keys) != Label(right[j], keys);
      assert DistinctLabels(right[1..], keys);
      OneMatch(l, right[1..], keys, j - 1);
    }
  }

  lemma {:induction false} PairsAppend(a: seq<Cells>, b: seq<Cells>, right: seq<Cells>, keys: seq<string>)
    ensures Pairs(a + b, right, keys) == Pairs(a, right, keys) + Pairs(b, right, keys)
  {
    hide PairsOf;
    if a == [] {
      assert a + b == b;
    } else {
      PairsAppend(a[1..], b, right, keys);
      assert (a + b)[1..] == a[1..] + b && (a + b)[0] == a[0];
      assert Pairs(a + b, right, keys) == PairsOf(a[0], right, keys) + (Pairs(a[1..], right, keys) + Pairs(b, right, keys));
    }
  }

  /** The rows of the chosen positions, in order. */
  function RowsWhere(n: nat, p: nat -> bool, row: nat -> Cells): seq<Cells> {
    if n == 0 then [] else RowsWhere(n - 1, p, row) + if p(n - 1) then [row(n - 1)] else []
  }

  /** The pairs of rows with at most one match each are rows in input order. */
  lemma {:induction false} PairsAre(rows: seq<Cells>, right: seq<Cells>, keys: seq<string>, p: nat -> bool, row: nat -> Cells)
    requires forall i | 0 <= i < |rows| :: PairsOf(rows[i], right, keys) == if p(i) then [row(i)] else []
    ensures Pairs(rows, right, keys) == RowsWhere(|rows|, p, row)
  {
    if rows != [] {
      var n := |rows| - 1;
      var front := rows[..n];
      PairsAre(front, right, keys, p, row);
      PairsAppend(front, [rows[n]], right, keys);
      assert front + [rows[n]] == rows;
      assert Pairs([rows[n]], right, keys) == PairsOf(rows[n], right, keys);
    }
  }

  lemma {:induction false} RowsWhereStrict(c: string, n: nat, p: nat -> bool, row: nat -> Cells)
    requires forall i | 0 <= i < n && p(i) :: Numbered(c, row(i)) && row(i)[c].i == i
    ensures StrictByRow(c, RowsWhere(n, p, row))
    ensures forall k | 0 <= k < |RowsWhere(n, p, row)| :: Numbered(c, RowsWhere(n, p, row)[k]) && RowsWhere(n, p, row)[k][c].i < n
  {
    if n > 0 { RowsWhereStrict(c, n - 1, p, row); }
  }

  /** Join and sort by row number together: each row that meets its group, once, in input order. */
  lemma {:induction false} JoinSorted(E: Engine, c: string, rows: seq<Cells>, right: seq<Cells>, keys: seq<string>, p: nat -> bool, row: nat -> Cells)
    requires Honest(E)
    requires forall i | 0 <= i < |rows| :: PairsOf(rows[i], right, keys) == if p(i) then [row(i)] else []
    requires forall i | 0 <= i < |rows| && p(i) :: Numbered(c, row(i)) && row(i)[c].i == i
    ensures E.sortBy(E.join(rows, right, keys), c) == RowsWhere(|rows|, p, row)
  {
    hide Grouped, Names, Pairs, PairsOf, RowsWhere;
    var target := RowsWhere(|rows|, p, row);
    PairsAre(rows, right, keys, p, row);
    RowsWhereStrict(c, |rows|, p, row);
    var joined := E.join(rows, right, keys);
    assert multiset(joined) == multiset(target);
    forall i | 0 <= i < |joined| ensures Numbered(c, joined[i]) { assert joined[i] in multiset(target); }
    SortedIs(c, E.sortBy(joined, c), target);
  }

  // ---- rows chosen -----------------------------------------------------------------------------------------------

  lemma {:induction false} IndexedLabel(c: string, row: Cells, keys: seq<string>, i: nat)
    requires c !in keys
    ensures Label(row[c := VI(i)], keys) == Label(row, keys)
  {
  }

  function RowAt(rows: seq<Cells>): nat -> Cells { (i: nat) => if i < |rows| then rows[i] else map[] }

  /** Chosen rows are the rows at the chosen positions. */
  lemma {:induction false} RowsWhereTakes(rows: seq<Cells>, n: nat, p: nat -> bool)
    requires n <= |rows|
    ensures (forall k | 0 <= k < |Where(n, p)| :: Where(n, p)[k] < |rows|) && RowsWhere(n, p, RowAt(rows)) == TakeRows(rows, Where(n, p))
  {
    WhereHolds(n, p);
    if n > 0 {
      RowsWhereTakes(rows, n - 1, p);
      WhereHolds(n - 1, p);
    }
  }

  /** No key of the row is null or missing. */
  lemma LabelNonNull(row: Cells, keys: seq<string>)
    requires forall k | k in keys :: k in row
    ensures NonNull(Label(row, keys)) <==> forall k | k in keys :: !row[k].VNull?
  {
    if NonNull(Label(row, keys)) {
      forall k | k in keys ensures !row[k].VNull? {
        var i :| 0 <= i < |keys| && keys[i] == k;
        assert !Label(row, keys)[i].VNull?;
      }
    }
  }

  /** The same cell, whatever lies under a null. */
  predicate SameCell(v: Val, w: Val) { v == w || (v.VNull? && w.VNull? && v.t == w.t) }

  /** Two rows agree on every name. */
  predicate Agree(r: Cells, s: Cells, keys: seq<string>) {
    forall k | k in keys :: k in r && k in s && SameCell(r[k], s[k])
  }

  lemma LabelsAgree(r: Cells, s: Cells, keys: seq<string>)
    requires forall k | k in keys :: k in r && k in s
    ensures Label(r, keys) == Label(s, keys) <==> Agree(r, s, keys)
  {
    if Label(r, keys) == Label(s, keys) {
      forall k | k in keys ensures SameCell(r[k], s[k]) {
        var i :| 0 <= i < |keys| && keys[i] == k;
        assert Label(r, keys)[i] == Label(s, keys)[i];
      }
    }
  }

  function Agreeing(rows: seq<Cells>, r: Cells, keys: seq<string>): nat -> bool { (j: nat) => j < |rows| && Agree(rows[j], r, keys) }

  lemma MembersFirst(r: Cells, rows: seq<Cells>, keys: seq<string>, at: seq<Val>)
    ensures Members([r] + rows, keys, at) == (if Label(r, keys) == at then [r] else []) + Members(rows, keys, at)
  {
    hide Label;
    assert ([r] + rows)[1..] == rows;
  }

  lemma {:induction false} MembersAppend(a: seq<Cells>, r: Cells, keys: seq<string>, at: seq<Val>)
    ensures Members(a + [r], keys, at) == Members(a, keys, at) + if Label(r, keys) == at then [r] else []
  {
    hide Label, Members;
    NoMembers(keys, at);
    if a == [] {
      MembersFirst(r, [], keys, at);
      assert a + [r] == [r] + [];
    } else {
      MembersAppend(a[1..], r, keys, at);
      MembersFirst(a[0], a[1..], keys, at);
      MembersFirst(a[0], a[1..] + [r], keys, at);
      assert a == [a[0]] + a[1..] && a + [r] == [a[0]] + (a[1..] + [r]);
    }
  }

  /** The group of a row: the rows that agree with it on every key, in input order. */
  lemma {:induction false} GroupOfRow(rows: seq<Cells>, n: nat, r: Cells, keys: seq<string>)
    requires n <= |rows| && (forall j, k | 0 <= j < |rows| && k in keys :: k in rows[j]) && forall k | k in keys :: k in r
    ensures Members(rows[..n], keys, Label(r, keys)) == RowsWhere(n, Agreeing(rows, r, keys), RowAt(rows))
  {
    hide Label, Agree, Members;
    if n > 0 {
      GroupOfRow(rows, n - 1, r, keys);
      assert rows[..n] == rows[..n - 1] + [rows[n - 1]];
      MembersAppend(rows[..n - 1], rows[n - 1], keys, Label(r, keys));
      LabelsAgree(rows[n - 1], r, keys);
    } else {
      NoMembers(keys, Label(r, keys));
    }
  }

  lemma NoMembers(keys: seq<string>, at: seq<Val>)
    ensures Members([], keys, at) == []
  {
  }

  /** The rows whose group satisfies a test, whether or not their keys are null. */
  function GroupTest(rows: seq<Cells>, keys: seq<string>, holds: seq<Cells> -> bool): nat -> bool {
    (i: nat) => i < |rows| && holds(Members(rows, keys, Label(rows[i], keys)))
  }

  // ---- the group by group run -----------------------------------------------------------------------------------

  /** The positions below `n` of one label's rows, ascending. */
  function Positions(rows: seq<Cells>, keys: seq<string>, at: seq<Val>, n: nat): (r: seq<nat>)
    requires n <= |rows|
    ensures forall k | 0 <= k < |r| :: r[k] < n
  {
    if n == 0 then []
    else Positions(rows, keys, at, n - 1) + if Label(rows[n - 1], keys) == at then [n - 1] else []
  }

  /** A `{label: [positions]}` dictionary and its insertion order, over the first `n` rows. */
  ghost predicate GroupsOf(rows: seq<Cells>, keys: seq<string>, n: nat, order: seq<seq<Val>>, dict: map<seq<Val>, seq<nat>>)
    requires n <= |rows|
  {
    && (forall at :: at in dict <==> at in order)
    && (forall a, b | 0 <= a < b < |order| :: order[a] != order[b])
    && (forall at | at in dict :: dict[at] == Positions(rows, keys, at, n))
    && (forall i | 0 <= i < n :: Label(rows[i], keys) in dict)
    && (forall at | at !in dict :: Positions(rows, keys, at, n) == [])
  }

  method Groups(rows: seq<Cells>, keys: seq<string>) returns (order: seq<seq<Val>>, dict: map<seq<Val>, seq<nat>>)
    ensures GroupsOf(rows, keys, |rows|, order, dict)
  {
    hide GroupsOf;
    if keys == [] {
      order := [[]];
      var all := Everyone(rows);
      dict := map[[] := all];
      AllAreOne(rows);
      return;
    }
    order, dict := [], map[];
    NoGroups(rows, keys);
    for i := 0 to |rows|
      invariant GroupsOf(rows, keys, i, order, dict)
    {
      var at := Label(rows[i], keys);
      if at in dict {
        KnownLabel(rows, keys, i, order, dict);
        dict := dict[at := dict[at] + [i]];
      } else {
        NewLabel(rows, keys, i, order, dict);
        order := order + [at];
        dict := dict[at := [i]];
      }
    }
  }

  lemma {:induction false} PositionsNext(rows: seq<Cells>, keys: seq<string>, at: seq<Val>, i: nat)
    requires i < |rows|
    ensures Positions(rows, keys, at, i + 1) == Positions(rows, keys, at, i) + if Label(rows[i], keys) == at then [i] else []
  {
  }

  lemma {:induction false} KnownLabel(rows: seq<Cells>, keys: seq<string>, i: nat, order: seq<seq<Val>>, dict: map<seq<Val>, seq<nat>>)
    requires i < |rows| && GroupsOf(rows, keys, i, order, dict) && Label(rows[i], keys) in dict
    ensures GroupsOf(rows, keys, i + 1, order, dict[Label(rows[i], keys) := dict[Label(rows[i], keys)] + [i]])
  {
    hide Label, Positions;
    forall b: seq<Val>
      ensures Positions(rows, keys, b, i + 1) == Positions(rows, keys, b, i) + if Label(rows[i], keys) == b then [i] else []
    {
      PositionsNext(rows, keys, b, i);
    }
  }

  lemma {:induction false} NewLabel(rows: seq<Cells>, keys: seq<string>, i: nat, order: seq<seq<Val>>, dict: map<seq<Val>, seq<nat>>)
    requires i < |rows| && GroupsOf(rows, keys, i, order, dict) && Label(rows[i], keys) !in dict
    ensures GroupsOf(rows, keys, i + 1, order + [Label(rows[i], keys)], dict[Label(rows[i], keys) := [i]])
  {
    hide Label, Positions;
    var at := Label(rows[i], keys);
    var order', dict' := order + [at], dict[at := [i]];
    PositionsNext(rows, keys, at, i);
    assert Positions(rows, keys, at, i) == [] && [] + [i] == [i];
    forall b | b != at ensures Positions(rows, keys, b, i + 1) == Positions(rows, keys, b, i) {
      PositionsNext(rows, keys, b, i);
      assert Positions(rows, keys, b, i) + [] == Positions(rows, keys, b, i);
    }
    assert at !in order;
    forall a, b | 0 <= a < b < |order'| ensures order'[a] != order'[b] {
      assert order'[a] in order;
    }
    assert forall b :: b in dict' <==> b in order';
  }

  lemma {:induction false} NoGroups(rows: seq<Cells>, keys: seq<string>)
    ensures GroupsOf(rows, keys, 0, [], map[])
  {
  }

  lemma {:induction false} AllAreOne(rows: seq<Cells>)
    ensures GroupsOf(rows, [], |rows|, [[]], map[[] := Positions(rows, [], [], |rows|)])
  {
    forall at: seq<Val> | at != [] ensures Positions(rows, [], at, |rows|) == [] { NobodyElse(rows, at, |rows|); }
    forall i | 0 <= i < |rows| ensures Label(rows[i], []) == [] {}
  }

  method Everyone(rows: seq<Cells>) returns (all: seq<nat>)
    ensures all == Positions(rows, [], [], |rows|)
  {
    all := [];
    for i := 0 to |rows|
      invariant all == Positions(rows, [], [], i)
    {
      assert Label(rows[i], []) == [];
      all := all + [i];
    }
  }

  lemma {:induction false} NobodyElse(rows: seq<Cells>, at: seq<Val>, n: nat)
    requires n <= |rows| && at != []
    ensures Positions(rows, [], at, n) == []
  {
    if n > 0 { NobodyElse(rows, at, n - 1); }
  }

  /** `frame.take(rows of the label)` is the group. */
  lemma {:induction false} PositionsTake(rows: seq<Cells>, keys: seq<string>, at: seq<Val>, n: nat)
    requires n <= |rows|
    ensures TakeRows(rows, Positions(rows, keys, at, n)) == Members(rows[..n], keys, at)
  {
    if n > 0 {
      PositionsTake(rows, keys, at, n - 1);
      MembersAppend(rows[..n - 1], rows[n - 1], keys, at);
      assert rows[..n - 1] + [rows[n - 1]] == rows[..n];
    }
  }

  lemma {:induction false} SnocCount(front: seq<nat>, x: nat, i: nat)
    ensures multiset(front + [x])[i] == multiset(front)[i] + if x == i then 1 else 0
  {
  }

  lemma {:induction false} PositionsCount(rows: seq<Cells>, keys: seq<string>, at: seq<Val>, n: nat, i: nat)
    requires n <= |rows|
    ensures multiset(Positions(rows, keys, at, n))[i] == if i < n && Label(rows[i], keys) == at then 1 else 0
  {
    hide Label;
    if n > 0 {
      var front := Positions(rows, keys, at, n - 1);
      PositionsCount(rows, keys, at, n - 1, i);
      CountNext(front, n - 1, Label(rows[n - 1], keys) == at, Positions(rows, keys, at, n), i);
    }
  }

  lemma {:induction false} CountNext(front: seq<nat>, x: nat, taken: bool, all: seq<nat>, i: nat)
    requires all == front + if taken then [x] else []
    ensures multiset(all)[i] == multiset(front)[i] + if taken && x == i then 1 else 0
  {
    if taken { SnocCount(front, x, i); } else { assert all == front; }
  }

  ghost predicate Ascends(xs: seq<nat>) { forall i, j | 0 <= i < j < |xs| :: xs[i] <= xs[j] }
  ghost predicate SortsInts(sorted: seq<nat> -> seq<nat>) {
    forall xs: seq<nat> :: Ascends(sorted(xs)) && multiset(sorted(xs)) == multiset(xs)
  }

  lemma {:induction false} LeastIn(s: seq<nat>, t: seq<nat>)
    requires Ascends(s) && multiset(s) == multiset(t) && s != [] && t != []
    ensures s[0] <= t[0]
  {
    assert t[0] in multiset(s);
    var j :| 0 <= j < |s| && s[j] == t[0];
  }

  lemma {:induction false} TailCounts(s: seq<nat>)
    requires s != []
    ensures multiset(s[1..]) == multiset(s) - multiset{s[0]}
  {
    assert s == [s[0]] + s[1..];
  }

  lemma {:induction false} SameLeast(s: seq<nat>, t: seq<nat>)
    requires Ascends(s) && Ascends(t) && multiset(s) == multiset(t) && s != [] && t != []
    ensures s[0] == t[0] && multiset(s[1..]) == multiset(t[1..])
  {
    LeastIn(s, t);
    LeastIn(t, s);
    TailCounts(s);
    TailCounts(t);
  }

  lemma {:induction false} AscendingIs(s: seq<nat>, t: seq<nat>)
    requires Ascends(s) && Ascends(t) && multiset(s) == multiset(t)
    ensures s == t
    decreases |s|
  {
    assert |s| == |multiset(s)| == |multiset(t)| == |t|;
    if s != [] {
      SameLeast(s, t);
      AscendingIs(s[1..], t[1..]);
      assert s == [s[0]] + s[1..] && t == [t[0]] + t[1..];
    }
  }

  lemma {:induction false} TakeWhere(rows: seq<Cells>, n: nat, p: nat -> bool)
    requires n <= |rows|
    ensures (forall k | 0 <= k < |Where(n, p)| :: Where(n, p)[k] < |rows|) && TakeRows(rows, Where(n, p)) == RowsWhere(n, p, RowAt(rows))
  {
    if n > 0 { TakeWhere(rows, n - 1, p); }
  }

  lemma {:induction false} WhereNext(n: nat, p: nat -> bool)
    ensures Where(n + 1, p) == Where(n, p) + if p(n) then [n] else []
  {
  }

  lemma {:induction false} WhereCount(n: nat, p: nat -> bool, i: nat)
    ensures multiset(Where(n, p))[i] == if i < n && p(i) then 1 else 0
    decreases n
  {
    hide Where;
    if n == 0 {
      WhereNone(p);
    } else {
      var m := n - 1;
      var taken := p(m);
      WhereCount(m, p, i);
      WhereNext(m, p);
      CountNext(Where(m, p), m, taken, Where(n, p), i);
    }
  }

  lemma {:induction false} WhereNone(p: nat -> bool)
    ensures Where(0, p) == []
  {
  }

  /** The positions kept once the labels listed have been visited. */
  ghost predicate KeptSoFar(rows: seq<Cells>, keys: seq<string>, holds: seq<Cells> -> bool, done: seq<seq<Val>>, keep: seq<nat>) {
    forall i: nat :: multiset(keep)[i] ==
      if i < |rows| && Label(rows[i], keys) in done && holds(Members(rows, keys, Label(rows[i], keys))) then 1 else 0
  }

  lemma {:induction false} VisitGroup(rows: seq<Cells>, keys: seq<string>, holds: seq<Cells> -> bool, done: seq<seq<Val>>, at: seq<Val>,
                   keep: seq<nat>, more: seq<nat>)
    requires KeptSoFar(rows, keys, holds, done, keep) && at !in done
    requires more == if holds(Members(rows, keys, at)) then Positions(rows, keys, at, |rows|) else []
    ensures KeptSoFar(rows, keys, holds, done + [at], keep + more)
  {
    hide Label, Members, Positions;
    forall i: nat
      ensures multiset(keep + more)[i] ==
        if i < |rows| && Label(rows[i], keys) in done + [at] && holds(Members(rows, keys, Label(rows[i], keys))) then 1 else 0
    {
      PositionsCount(rows, keys, at, |rows|, i);
      assert multiset(keep + more)[i] == multiset(keep)[i] + multiset(more)[i];
      if i < |rows| { assert Label(rows[i], keys) in done + [at] <==> Label(rows[i], keys) in done || Label(rows[i], keys) == at; }
    }
  }

  lemma {:induction false} KeptSorted(rows: seq<Cells>, keys: seq<string>, holds: seq<Cells> -> bool, keep: seq<nat>, idxs: seq<nat>)
    requires forall i: nat :: multiset(keep)[i] == if GroupTest(rows, keys, holds)(i) then 1 else 0
    requires Ascends(idxs) && multiset(idxs) == multiset(keep)
    ensures idxs == Where(|rows|, GroupTest(rows, keys, holds))
  {
    var p := GroupTest(rows, keys, holds);
    WhereHolds(|rows|, p);
    forall i: nat ensures multiset(Where(|rows|, p))[i] == multiset(idxs)[i] { WhereCount(|rows|, p, i); }
    assert multiset(Where(|rows|, p)) == multiset(idxs);
    AscendingIs(idxs, Where(|rows|, p));
  }

  /** The Python filter: every row, in input order, whose group the function holds of. */
  method FilterPython(rows: seq<Cells>, keys: seq<string>, holds: seq<Cells> -> bool, sorted: seq<nat> -> seq<nat>)
    returns (out: seq<Cells>)
    requires SortsInts(sorted)
    ensures out == RowsWhere(|rows|, GroupTest(rows, keys, holds), RowAt(rows))
  {
    hide RowsWhere, KeptSoFar, Label, Members, GroupsOf, GroupTest, Where, SortsInts, Ascends, Positions;
    var order, dict := Groups(rows, keys);
    var keep: seq<nat> := [];
    NothingKept(rows, keys, holds);
    for g := 0 to |order|
      invariant KeptSoFar(rows, keys, holds, order[..g], keep)
    {
      DictAt(rows, keys, order, dict, g);
      var idxs := dict[order[g]];
      if holds(TakeRows(rows, idxs)) {
        VisitGroup(rows, keys, holds, order[..g], order[g], keep, idxs);
        keep := keep + idxs;
      } else {
        VisitGroup(rows, keys, holds, order[..g], order[g], keep, []);
        assert keep + [] == keep;
      }
      assert order[..g] + [order[g]] == order[..g + 1];
    }
    assert order[..|order|] == order;
    AllKept(rows, keys, holds, order, dict, keep);
    SortsOne(sorted, keep);
    KeptSorted(rows, keys, holds, keep, sorted(keep));
    TakeWhere(rows, |rows|, GroupTest(rows, keys, holds));
    out := TakeRows(rows, sorted(keep));
  }

  lemma {:induction false} DictAt(rows: seq<Cells>, keys: seq<string>, order: seq<seq<Val>>, dict: map<seq<Val>, seq<nat>>, g: nat)
    requires GroupsOf(rows, keys, |rows|, order, dict) && g < |order|
    ensures order[g] in dict && dict[order[g]] == Positions(rows, keys, order[g], |rows|) && order[g] !in order[..g]
    ensures (forall k | 0 <= k < |dict[order[g]]| :: dict[order[g]][k] < |rows|)
    ensures TakeRows(rows, dict[order[g]]) == Members(rows, keys, order[g])
  {
    hide Label, Members;
    PositionsTake(rows, keys, order[g], |rows|);
    assert rows[..|rows|] == rows;
  }

  lemma {:induction false} SortsOne(sorted: seq<nat> -> seq<nat>, xs: seq<nat>)
    requires SortsInts(sorted)
    ensures Ascends(sorted(xs)) && multiset(sorted(xs)) == multiset(xs)
  {
  }

  lemma {:induction false} NothingKept(rows: seq<Cells>, keys: seq<string>, holds: seq<Cells> -> bool)
    ensures KeptSoFar(rows, keys, holds, [], [])
  {
  }

  lemma {:induction false} AllKept(rows: seq<Cells>, keys: seq<string>, holds: seq<Cells> -> bool, order: seq<seq<Val>>,
                dict: map<seq<Val>, seq<nat>>, keep: seq<nat>)
    requires GroupsOf(rows, keys, |rows|, order, dict) && KeptSoFar(rows, keys, holds, order, keep)
    ensures forall i: nat :: multiset(keep)[i] == if GroupTest(rows, keys, holds)(i) then 1 else 0
  {
  }

  lemma {:induction false} FewerRows(rows: seq<Cells>, n: nat, p: nat -> bool, q: nat -> bool)
    requires n <= |rows| && forall i | 0 <= i < n :: p(i) ==> q(i)
    ensures |RowsWhere(n, p, RowAt(rows))| <= |RowsWhere(n, q, RowAt(rows))|
    ensures RowsWhere(n, p, RowAt(rows)) == RowsWhere(n, q, RowAt(rows)) <==> forall i | 0 <= i < n :: q(i) ==> p(i)
  {
    if n > 0 {
      FewerRows(rows, n - 1, p, q);
      var a, b := RowsWhere(n - 1, p, RowAt(rows)), RowsWhere(n - 1, q, RowAt(rows));
      var x := [RowAt(rows)(n - 1)];
      if p(n - 1) {
        assert q(n - 1) && RowsWhere(n, p, RowAt(rows)) == a + x && RowsWhere(n, q, RowAt(rows)) == b + x;
        assert (a + x)[..|a|] == a && (b + x)[..|b|] == b;
      } else if q(n - 1) {
        assert RowsWhere(n, p, RowAt(rows)) == a && RowsWhere(n, q, RowAt(rows)) == b + x && |b + x| == |b| + 1;
        assert !(q(n - 1) ==> p(n - 1));
      } else {
        assert RowsWhere(n, p, RowAt(rows)) == a && RowsWhere(n, q, RowAt(rows)) == b;
      }
    }
  }

  // ---- rows joined with their groups --------------------------------------------------------------------------------

  function EvalAll(K: Kernels, e: Expr, rows: seq<Cells>): seq<Val> {
    seq(|rows|, i requires 0 <= i < |rows| => Eval(K, e, Row(rows[i], [])))
  }

  /** The row of a label among the groups. */
  function GroupRow(groups: seq<Cells>, keys: seq<string>, at: seq<Val>): Cells {
    if groups == [] then map[] else if Label(groups[0], keys) == at then groups[0] else GroupRow(groups[1..], keys, at)
  }

  lemma {:induction false} GroupRowAt(groups: seq<Cells>, keys: seq<string>, at: seq<Val>)
    requires HasLabel(groups, keys, at)
    ensures GroupRow(groups, keys, at) in groups && Label(GroupRow(groups, keys, at), keys) == at
  {
    if Label(groups[0], keys) != at {
      var j :| 0 <= j < |groups| && Label(groups[j], keys) == at;
      assert Label(groups[1..][j - 1], keys) == at;
      GroupRowAt(groups[1..], keys, at);
    }
  }

  predicate Keyed(rows: seq<Cells>, keys: seq<string>, i: nat) { i < |rows| && NonNull(Label(rows[i], keys)) }

  function KeyedRows(rows: seq<Cells>, keys: seq<string>): nat -> bool { (i: nat) => Keyed(rows, keys, i) }

  /** The row joined with its group's aggregates. */
  function JoinedRow(c: string, rows: seq<Cells>, keys: seq<string>, groups: seq<Cells>): nat -> Cells {
    (i: nat) => if i < |rows| then Indexed(c, rows)[i] + GroupRow(groups, keys, Label(rows[i], keys)) else map[]
  }

  lemma {:induction false} MeetsGroup(E: Engine, c: string, rows: seq<Cells>, keys: seq<string>, aggs: seq<Agg>, groups: seq<Cells>, i: nat)
    requires i < |rows| && c !in keys && Grouped(E, rows, keys, aggs, groups) && c !in Outs(aggs)
    ensures PairsOf(Indexed(c, rows)[i], groups, keys) ==
            if KeyedRows(rows, keys)(i) then [JoinedRow(c, rows, keys, groups)(i)] else []
    ensures Keyed(rows, keys, i) ==> Numbered(c, JoinedRow(c, rows, keys, groups)(i)) && JoinedRow(c, rows, keys, groups)(i)[c].i == i
  {
    hide PairsOf, Aggregated;
    var l := Indexed(c, rows)[i];
    IndexedLabel(c, rows[i], keys, i);
    if Keyed(rows, keys, i) {
      GroupRowAt(groups, keys, Label(rows[i], keys));
      var r := GroupRow(groups, keys, Label(rows[i], keys));
      var j :| 0 <= j < |groups| && groups[j] == r;
      assert c !in KeySet(keys);
      OneMatch(l, groups, keys, j);
    } else {
      NoMatch(l, groups, keys);
    }
  }

  /** Values of the chosen positions, in order. */
  function ValuesWhere(n: nat, p: nat -> bool, v: nat -> Val): seq<Val> {
    if n == 0 then [] else ValuesWhere(n - 1, p, v) + if p(n - 1) then [v(n - 1)] else []
  }

  lemma {:induction false} EvalWhere(K: Kernels, e: Expr, n: nat, p: nat -> bool, row: nat -> Cells, v: nat -> Val)
    requires forall i | 0 <= i < n && p(i) :: Eval(K, e, Row(row(i), [])) == v(i)
    ensures EvalAll(K, e, RowsWhere(n, p, row)) == ValuesWhere(n, p, v)
  {
    if n > 0 {
      EvalWhere(K, e, n - 1, p, row, v);
      var a := RowsWhere(n - 1, p, row);
      assert EvalAll(K, e, a + [row(n - 1)]) == EvalAll(K, e, a) + [Eval(K, e, Row(row(n - 1), []))];
    }
  }

  lemma {:induction false} ValuesAll(n: nat, p: nat -> bool, v: nat -> Val)
    ensures |ValuesWhere(n, p, v)| <= n
    ensures |ValuesWhere(n, p, v)| == n <==> forall i | 0 <= i < n :: p(i)
    ensures (forall i | 0 <= i < n :: p(i)) ==> ValuesWhere(n, p, v) == seq(n, i requires 0 <= i < n => v(i))
  {
    if n > 0 { ValuesAll(n - 1, p, v); }
  }

  lemma {:induction false} AllMembers(rows: seq<Cells>)
    ensures Members(rows, [], []) == rows
  {
    if rows != [] {
      AllMembers(rows[1..]);
      assert Label(rows[0], []) == [];
    }
  }
}
