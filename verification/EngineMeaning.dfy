/** What the engine's nodes do to types and to nulls, said node by node and over whole expressions rather than by
    evaluating them. */
module EngineMeaning {
  import opened Options
  import opened Exprs
  import opened PostOrder

  // ---- which operands a node takes ---------------------------------------------------------------------------

  predicate Numeric(t: Base) { t == TI || t == TF }

  predicate IsOrder(op: CmpOp) { op != Eq && op != Ne }

  /** The column types each one-operand node takes. */
  lemma UnTakes(op: UnOp, t: Base)
    ensures op.Unary? || op.Clip? || op.Fillna? ==> UnBase(op, t).Some? ==> Numeric(t)
    ensures op.Unary? ==> (UnBase(op, t).Some? <==> Numeric(t))
    ensures op.Cast? ==> (UnBase(op, t).Some? <==> Numeric(op.target) && t != TS)
    ensures op.Cmp? && !op.rhs.CS? ==> (UnBase(op, t).Some? <==> Numeric(t))
    ensures op.Cmp? && op.rhs.CS? ==> (UnBase(op, t).Some? <==> t == TS && !IsOrder(op.cmp))
    ensures op.Not? ==> (UnBase(op, t).Some? <==> t == TB)
    ensures op.StrPred? || op.StrMap? || op.StrLen? || op.StrFind? || op.StrReplace? || op.StrSlice? || op.IContains? || op.ILike? ==>
              (UnBase(op, t).Some? <==> t == TS)
    ensures op.IsNull? ==> UnBase(op, t).Some?
    ensures op.CmpBool? || op.IRegex? ==> UnBase(op, t).None?
  {
  }

  /** Arithmetic over at least one column: numbers and flags, but not two flags, nor a flag and a whole constant, and no
      constant minus or over a column; it is Int64 unless a float or a division is in it. */
  lemma ArithTakes(op: ArithOp, s: Ty, t: Ty)
    requires !s.scalar || !t.scalar
    ensures var float := op == Div || s.base == TF || t.base == TF;
            BinTy(Arith(op), s, t) ==
            if s.base == TS || t.base == TS || (s.scalar && (op == Sub || op == Div)) then None
            else if float then Some(Ty(false, TF))
            else if (!s.scalar && s.base == TB && (t.scalar || t.base == TB)) || (s.scalar && t.base == TB) then None
            else Some(Ty(false, TI))
  {
  }

  /** `and` and `or` take two Bool columns. */
  lemma LogicalTakes(op: LogicalOp, s: Ty, t: Ty)
    ensures BinTy(Logical(op), s, t).Some? <==> !s.scalar && !t.scalar && s.base == TB && t.base == TB
  {
  }

  /** The arms of a select: two strings, or no string; a float makes both floats, a constant takes the other arm's type,
      and different types meet at Int64. */
  lemma SelectTakes(s: Base, sScalar: bool, t: Base, tScalar: bool)
    requires (sScalar ==> Numeric(s)) && (tScalar ==> Numeric(t))
    ensures SelectBase(s, sScalar, t, tScalar).None? <==> (s == TS) != (t == TS)
    ensures s != TS && t != TS && (s == TF || t == TF) ==> SelectBase(s, sScalar, t, tScalar) == Some(TF)
    ensures s != TS && t != TS && s != TF && t != TF ==>
              SelectBase(s, sScalar, t, tScalar) ==
              Some(if sScalar && tScalar then TI else if sScalar then t else if tScalar then s else if s == t then s else TI)
  {
  }

  // ---- nulls ---------------------------------------------------------------------------------------------------

  /** Nodes whose kernels carry a null through. */
  predicate Carries(op: UnOp) {
    op.Unary? || op.Cast? || op.Cmp? || op.StrPred? || op.StrMap? || op.StrReplace? || op.IContains? || op.ILike?
    || (op.StrLen? && op.chars)
  }

  predicate Strict(e: Expr) {
    match e
    case Lit(_) => true
    case Col(_) => true
    case Un(op, arg) => Carries(op) && Strict(arg)
    case Bin(Arith(_), l, r) => Strict(l) && Strict(r)
    case _ => false
  }

  lemma UnCarries(K: Kernels, op: UnOp, v: Val)
    requires Carries(op) && v.Tag().Some? && UnBase(op, v.Tag().value).Some?
    ensures UnVal(K, op, v).VNull? <==> v.VNull?
  {
  }

  lemma ArithCarries(K: Kernels, op: ArithOp, a: Val, b: Val)
    requires a.Tag().Some? && b.Tag().Some? && a.Tag() != Some(TS) && b.Tag() != Some(TS)
    ensures ArithVal(K, op, a, b).VNull? <==> a.VNull? || b.VNull?
  {
  }

  /** Through arithmetic, comparisons and string functions a row's value is null if and only if a column read is. */
  lemma {:induction false} NullsSpread(K: Kernels, e: Expr, row: Row, sch: Schema)
    requires RowFits(row, sch) && TypeOf(e, sch).Some? && Strict(e)
    ensures Reads(e) <= row.named.Keys
    ensures Eval(K, e, row).VNull? <==> exists n | n in Reads(e) :: row.named[n].VNull?
  {
    hide UnVal, ArithVal, UnBase, BinTy, Carries;
    match e
    case Lit(_) =>
    case Col(_) =>
    case Un(op, arg) =>
      TypeSound(K, arg, row, sch);
      NullsSpread(K, arg, row, sch);
      UnCarries(K, op, Eval(K, arg, row));
    case Bin(Arith(op), l, r) =>
      TypeSound(K, l, row, sch);
      TypeSound(K, r, row, sch);
      NullsSpread(K, l, row, sch);
      NullsSpread(K, r, row, sch);
      NumbersTyped(op, TypeOf(l, sch).value, TypeOf(r, sch).value);
      ArithCarries(K, op, Eval(K, l, row), Eval(K, r, row));
  }

  lemma NumbersTyped(op: ArithOp, s: Ty, t: Ty)
    requires BinTy(Arith(op), s, t).Some? && (s.scalar ==> s.base != TS) && (t.scalar ==> t.base != TS)
    ensures s.base != TS && t.base != TS
  {
  }

  /** Where a null stops: a null test answers, a null is no member of a list, the logical nodes answer whatever is under
      it, and a select on a null condition takes its second arm. */
  lemma NullsStop(K: Kernels, v: Val, missing: bool, cs: seq<Const>, negated: bool)
    requires v.VNull?
    ensures UnVal(K, IsNull(missing), v) == VB(missing)
    ensures UnBase(IsIn(cs, negated), v.t).Some? ==> UnVal(K, IsIn(cs, negated), v) == VB(negated)
    ensures v.t == TB ==> UnVal(K, Not, v).VB?
  {
  }

  /** `and`, `or` and `not` answer with a flag whatever their operands hold, and on flags as logic has it. */
  lemma LogicalAnswers(K: Kernels, a: Val, b: Val)
    requires HasBit(a) && HasBit(b)
    ensures LogicalVal(And, a, b).VB? && LogicalVal(Or, a, b).VB? && UnVal(K, Not, a).VB?
    ensures a.VB? && b.VB? ==> LogicalVal(And, a, b) == VB(a.b && b.b) && LogicalVal(Or, a, b) == VB(a.b || b.b)
    ensures a.VB? ==> UnVal(K, Not, a) == VB(!a.b)
    ensures a.VNull? && b.VNull? ==>
              LogicalVal(And, a, b) == VB(a.bit && b.bit) && LogicalVal(Or, a, b) == VB(a.bit || b.bit) && UnVal(K, Not, a) == VB(!a.bit)
  {
  }

  lemma ValuesKnown(K: Kernels, v: Val, missing: bool)
    requires !v.VNull? && !v.Fault?
    ensures UnVal(K, IsNull(missing), v) == VB(!missing)
  {
  }

  /** A select yields the value of the arm its condition picks, a null condition picking the second. */
  lemma SelectPicks(c: Val, a: Val, b: Val)
    requires HasBit(c) && a.Tag().Some? && a.Tag() == b.Tag()
    ensures SelectVal(c, a, false, b, false) == if c == VB(true) then a else b
  {
  }

  /** Arms of different types keep their numbers. */
  lemma SelectKeeps(c: Val, a: Val, b: Val)
    requires HasBit(c) && IsNum(a) && IsNum(b)
    ensures var r := SelectVal(c, a, false, b, false); IsNum(r) && NumOf(r) == NumOf(if c == VB(true) then a else b)
  {
  }

  // ---- the unary kernels Python has no name for ---------------------------------------------------------------------

  /** On a number cell: the sign, and the opposite number. */
  lemma SignMeans(K: Kernels, v: Val)
    requires v.VI? || v.VF?
    ensures var r := UnVal(K, Unary(Sign), v);
            r.Tag() == v.Tag() && IsNum(r) && NumOf(r) == if NumOf(v) > 0.0 then 1.0 else if NumOf(v) < 0.0 then -1.0 else 0.0
    ensures var r := UnVal(K, Unary(Negate), v); r.Tag() == v.Tag() && IsNum(r) && NumOf(r) + NumOf(v) == 0.0
  {
  }

  /** Truncation goes to the whole number on the side of zero. */
  lemma TruncMeans(K: Kernels, v: Val)
    requires v.VI? || v.VF?
    ensures var x, r := NumOf(v), UnVal(K, Unary(Trunc), v);
            && r.Tag() == v.Tag() && IsNum(r) && NumOf(r) == NumOf(r).Floor as real
            && (if x >= 0.0 then 0.0 <= NumOf(r) <= x < NumOf(r) + 1.0 else NumOf(r) - 1.0 < x <= NumOf(r) <= 0.0)
  {
    var n := (-NumOf(v)).Floor;
    assert n as real <= -NumOf(v) < n as real + 1.0;
  }

  /** An exact real is a finite number. */
  lemma FiniteMeans(K: Kernels, v: Val)
    requires v.VI? || v.VF?
    ensures UnVal(K, Unary(IsFinite), v) == VB(true)
    ensures UnVal(K, Unary(IsNan), v) == VB(false) && UnVal(K, Unary(IsInfinite), v) == VB(false)
  {
  }
}
