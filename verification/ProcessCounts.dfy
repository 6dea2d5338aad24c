/** The process-count plugin: a growable array of pid counts per slice, merged across workers and sorted at the
    end, so that the result does not depend on how the rows were split or in which order the slices were merged. */
module ProcessCounts {
  import opened Options
  datatype Entry = Entry(pid: nat, count: nat)

  // ---- what the array means ------------------------------------------------------------------------

  ghost predicate Distinct(es: seq<Entry>) { forall i, j | 0 <= i < j < |es| :: es[i].pid != es[j].pid }

  function CountOf(es: seq<Entry>, pid: nat): nat {
    if es == [] then 0 else (if es[0].pid == pid then es[0].count else 0) + CountOf(es[1..], pid)
  }

  function Total(es: seq<Entry>): nat { if es == [] then 0 else es[0].count + Total(es[1..]) }

  function Pids(es: seq<Entry>): set<nat> { set e | e in es :: e.pid }

  /** One addition: in place where the pid is present, else at the end. */
  function Added(es: seq<Entry>, pid: nat, n: nat): seq<Entry> {
    if es == [] then [Entry(pid, n)]
    else if es[0].pid == pid then [Entry(pid, es[0].count + n)] + es[1..]
    else [es[0]] + Added(es[1..], pid, n)
  }

  function AddedRows(es: seq<Entry>, rows: seq<nat>): seq<Entry> {
    if rows == [] then es else Added(AddedRows(es, rows[..|rows| - 1]), rows[|rows| - 1], 1)
  }

  function AddedEntries(es: seq<Entry>, other: seq<Entry>): seq<Entry> {
    if other == [] then es
    else Added(AddedEntries(es, other[..|other| - 1]), other[|other| - 1].pid, other[|other| - 1].count)
  }

  /** Where an addition lands. */
  lemma {:induction false} AddedAt(es: seq<Entry>, pid: nat, n: nat, i: nat)
    requires i <= |es| && (forall k | 0 <= k < i :: es[k].pid != pid) && (i < |es| ==> es[i].pid == pid)
    ensures Added(es, pid, n) == if i < |es| then es[i := Entry(pid, es[i].count + n)] else es + [Entry(pid, n)]
  {
    if i > 0 {
      AddedAt(es[1..], pid, n, i - 1);
      assert es == [es[0]] + es[1..];
    }
  }

  lemma PidsCons(e: Entry, es: seq<Entry>)
    ensures Pids([e] + es) == {e.pid} + Pids(es)
  {
    assert forall x :: x in [e] + es <==> x == e || x in es;
  }

  lemma {:induction false} AddedPids(es: seq<Entry>, pid: nat, n: nat)
    ensures Pids(Added(es, pid, n)) == Pids(es) + {pid}
  {
    if es == [] {
      PidsCons(Entry(pid, n), []);
    } else {
      assert es == [es[0]] + es[1..];
      PidsCons(es[0], es[1..]);
      if es[0].pid == pid {
        PidsCons(Entry(pid, es[0].count + n), es[1..]);
      } else {
        AddedPids(es[1..], pid, n);
        PidsCons(es[0], Added(es[1..], pid, n));
      }
    }
  }

  lemma DistinctCons(e: Entry, es: seq<Entry>)
    ensures Distinct([e] + es) <==> Distinct(es) && e.pid !in Pids(es)
  {
    var all := [e] + es;
    if Distinct(all) {
      forall i, j | 0 <= i < j < |es| ensures es[i].pid != es[j].pid { assert all[i + 1].pid != all[j + 1].pid; }
      forall x | x in es ensures x.pid != e.pid { var i :| 0 <= i < |es| && es[i] == x; assert all[0].pid != all[i + 1].pid; }
    } else {
      var i, j :| 0 <= i < j < |all| && all[i].pid == all[j].pid;
      assert all[j] == es[j - 1] && es[j - 1].pid in Pids(es);
      if i > 0 { assert es[i - 1].pid == es[j - 1].pid; }
    }
  }

  lemma {:induction false} AddedDistinct(es: seq<Entry>, pid: nat, n: nat)
    requires Distinct(es)
    ensures Distinct(Added(es, pid, n))
  {
    if es == [] {
    } else {
      assert es == [es[0]] + es[1..];
      DistinctCons(es[0], es[1..]);
      if es[0].pid == pid {
        DistinctCons(Entry(pid, es[0].count + n), es[1..]);
      } else {
        AddedDistinct(es[1..], pid, n);
        AddedPids(es[1..], pid, n);
        DistinctCons(es[0], Added(es[1..], pid, n));
      }
    }
  }

  lemma {:induction false} AddedCount(es: seq<Entry>, pid: nat, n: nat, q: nat)
    ensures CountOf(Added(es, pid, n), q) == CountOf(es, q) + if q == pid then n else 0
  {
    if es != [] {
      if es[0].pid == pid {
        assert ([Entry(pid, es[0].count + n)] + es[1..])[1..] == es[1..];
      } else {
        AddedCount(es[1..], pid, n, q);
        assert ([es[0]] + Added(es[1..], pid, n))[1..] == Added(es[1..], pid, n);
      }
    }
  }

  lemma {:induction false} AddedTotal(es: seq<Entry>, pid: nat, n: nat)
    ensures Total(Added(es, pid, n)) == Total(es) + n
  {
    if es != [] {
      if es[0].pid == pid {
        assert ([Entry(pid, es[0].count + n)] + es[1..])[1..] == es[1..];
      } else {
        AddedTotal(es[1..], pid, n);
        assert ([es[0]] + Added(es[1..], pid, n))[1..] == Added(es[1..], pid, n);
      }
    }
  }

  // ---- the slice ----------------------------------------------------------------------------------------

  class Counts {
    var entries: array<Entry>
    var size: nat

    ghost predicate Valid()
      reads this, entries
    { size <= entries.Length && Distinct(entries[..size]) }

    ghost function Table(): seq<Entry>
      requires size <= entries.Length
      reads this, entries
    { entries[..size] }

    constructor ()
      ensures Valid() && Table() == [] && fresh(entries)
    {
      entries := new Entry[0];
      size := 0;
    }

    /** Adds to the pid's count, growing the array when it is full: to 8 entries, then to twice as many. */
    method Add(pid: nat, n: nat)
      requires Valid()
      modifies this, entries
      ensures Valid() && Table() == Added(old(Table()), pid, n)
      ensures entries == old(entries) || fresh(entries)
    {
      hide Distinct, Added;
      ghost var before := Table();
      AddedDistinct(before, pid, n);
      for i := 0 to size
        invariant Valid() && Table() == before && entries == old(entries)
        invariant forall k | 0 <= k < i :: before[k].pid != pid
      {
        if entries[i].pid == pid {
          AddedAt(before, pid, n, i);
          entries[i] := Entry(pid, entries[i].count + n);
          return;
        }
      }
      AddedAt(before, pid, n, size);
      if size == entries.Length {
        Grow();
      }
      entries[size] := Entry(pid, n);
      size := size + 1;
      assert Table() == before + [Entry(pid, n)];
    }

    method Grow()
      requires Valid() && size == entries.Length
      modifies this
      ensures Valid() && Table() == old(Table()) && size == old(size) < entries.Length && fresh(entries)
    {
      var cap := if entries.Length != 0 then entries.Length * 2 else 8;
      var grown := new Entry[cap];
      for i := 0 to size
        invariant size == old(size) && entries == old(entries) && entries[..] == old(entries[..])
        invariant grown[..i] == entries[..i]
      {
        grown[i] := entries[i];
      }
      entries := grown;
      assert Table() == old(Table());
    }

    /** One batch: every row's pid counts one; a batch without a uint64 pid column counts nothing. */
    method OnBatch(pids: Option<seq<nat>>)
      requires Valid()
      modifies this, entries
      ensures Valid() && Table() == if pids.Some? then AddedRows(old(Table()), pids.value) else old(Table())
      ensures entries == old(entries) || fresh(entries)
    {
      if pids.None? { return; }
      var rows := pids.value;
      for i := 0 to |rows|
        invariant Valid() && Table() == AddedRows(old(Table()), rows[..i])
        invariant entries == old(entries) || fresh(entries)
      {
        assert rows[..i + 1][..i] == rows[..i];
        Add(rows[i], 1);
      }
      assert rows[..|rows|] == rows;
    }

    /** Adds another slice's counts; the other slice is left as it was. */
    method Merge(other: Counts)
      requires Valid() && other.Valid() && other != this && other.entries != entries
      modifies this, entries
      ensures Valid() && Table() == AddedEntries(old(Table()), old(other.Table()))
      ensures entries == old(entries) || fresh(entries)
    {
      ghost var rest := other.Table();
      for i := 0 to other.size
        invariant Valid() && other.Valid() && other.Table() == rest && other.entries != entries
        invariant Table() == AddedEntries(old(Table()), rest[..i])
        invariant entries == old(entries) || fresh(entries)
      {
        assert rest[..i + 1][..i] == rest[..i] && rest[i] == other.entries[i];
        Add(other.entries[i].pid, other.entries[i].count);
      }
      assert rest[..|rest|] == rest;
    }

    /** The exchange sort of the final array. */
    method Finalize()
      requires Valid()
      modifies entries
      ensures Valid() && size == old(size) && entries == old(entries)
      ensures SortedByPid(Table()) && multiset(Table()) == multiset(old(Table()))
    {
      hide Distinct, Settled, Least, SortedByPid;
      ghost var start := Table();
      NothingSettled(start);
      var i := 0;
      while i + 1 < size
        invariant 0 <= i <= size && Valid() && multiset(Table()) == multiset(start) && Settled(Table(), i)
        decreases size - i
      {
        var j := i + 1;
        NextSettles(Table(), i, j);
        while j < size
          invariant i < j <= size && Valid() && multiset(Table()) == multiset(start)
          invariant Settled(Table(), i) && Least(Table(), i, j)
          decreases size - j
        {
          ghost var was := Table();
          if entries[j].pid < entries[i].pid {
            SwapKeeps(was, i, j);
            var t := entries[i];
            entries[i] := entries[j];
            entries[j] := t;
            assert Table() == Swapped(was, i, j);
          } else {
            StaysLeast(was, i, j);
          }
          j := j + 1;
        }
        NextSettles(Table(), i, j);
        i := i + 1;
      }
      SettledSorts(Table(), i);
    }
  }

  ghost predicate SortedByPid(es: seq<Entry>) { forall i, j | 0 <= i < j < |es| :: es[i].pid < es[j].pid }

  /** The first `i` entries are in place: sorted, and below every later one. */
  ghost predicate Settled(es: seq<Entry>, i: nat) {
    forall p, q | 0 <= p < i && p < q < |es| :: es[p].pid < es[q].pid
  }

  ghost predicate Least(es: seq<Entry>, i: nat, j: nat) {
    i < |es| && forall q | i < q < j && q < |es| :: es[i].pid < es[q].pid
  }

  function Swapped(es: seq<Entry>, i: nat, j: nat): seq<Entry>
    requires i < j < |es|
  { es[i := es[j]][j := es[i]] }

  lemma SwapKeeps(es: seq<Entry>, i: nat, j: nat)
    requires i < j < |es| && Distinct(es) && Settled(es, i) && Least(es, i, j) && es[j].pid < es[i].pid
    ensures var s := Swapped(es, i, j);
            Distinct(s) && Settled(s, i) && Least(s, i, j + 1) && multiset(s) == multiset(es)
  {
  }

  lemma NothingSettled(es: seq<Entry>)
    ensures Settled(es, 0)
  {
  }

  lemma NextSettles(es: seq<Entry>, i: nat, j: nat)
    requires i < j <= |es|
    ensures j == i + 1 ==> Least(es, i, j)
    ensures j == |es| && Settled(es, i) && Least(es, i, j) ==> Settled(es, i + 1)
  {
  }

  lemma StaysLeast(es: seq<Entry>, i: nat, j: nat)
    requires i < j < |es| && Distinct(es) && Least(es, i, j) && es[i].pid <= es[j].pid
    ensures Least(es, i, j + 1)
  {
  }

  lemma SettledSorts(es: seq<Entry>, i: nat)
    requires Settled(es, i) && |es| <= i + 1
    ensures SortedByPid(es)
  {
  }

  // ---- any split, any merge order -----------------------------------------------------------------------

  /** A way the host may run the plugin: batches into a slice, or one finished slice merged into another. */
  datatype Schedule = Slice(batches: seq<seq<nat>>) | Merge(into: Schedule, other: Schedule)

  function Concat(batches: seq<seq<nat>>): seq<nat> {
    if batches == [] then [] else Concat(batches[..|batches| - 1]) + batches[|batches| - 1]
  }

  /** Every row the schedule processes. */
  function Rows(s: Schedule): seq<nat> {
    match s
    case Slice(batches) => Concat(batches)
    case Merge(a, b) => Rows(a) + Rows(b)
  }

  function Batched(batches: seq<seq<nat>>): seq<Entry> {
    if batches == [] then [] else AddedRows(Batched(batches[..|batches| - 1]), batches[|batches| - 1])
  }

  function Result(s: Schedule): seq<Entry> {
    match s
    case Slice(batches) => Batched(batches)
    case Merge(a, b) => AddedEntries(Result(a), Result(b))
  }

  /** The plugin run along a schedule. */
  method RunSchedule(s: Schedule) returns (c: Counts)
    ensures fresh(c) && fresh(c.entries) && c.Valid() && c.Table() == Result(s)
    decreases s
  {
    match s
    case Slice(batches) =>
      c := new Counts();
      for i := 0 to |batches|
        invariant fresh(c) && fresh(c.entries) && c.Valid() && c.Table() == Batched(batches[..i])
      {
        assert batches[..i + 1][..i] == batches[..i];
        c.OnBatch(Some(batches[i]));
      }
      assert batches[..|batches|] == batches;
    case Merge(a, b) =>
      c := RunSchedule(a);
      var other := RunSchedule(b);
      c.Merge(other);
  }

  /** A table counts exactly these rows: each pid once, with its number of rows, and no pid without rows. */
  ghost predicate Tallies(es: seq<Entry>, rows: seq<nat>) {
    && Distinct(es) && (forall q :: CountOf(es, q) == multiset(rows)[q])
    && (forall e | e in es :: e.count > 0) && Total(es) == |rows|
  }

  lemma {:induction false} AddedPositive(es: seq<Entry>, pid: nat, n: nat)
    requires n > 0 && forall e | e in es :: e.count > 0
    ensures forall e | e in Added(es, pid, n) :: e.count > 0
  {
    if es != [] && es[0].pid != pid { AddedPositive(es[1..], pid, n); }
  }

  lemma {:induction false} RowsTally(es: seq<Entry>, done: seq<nat>, rows: seq<nat>)
    requires Tallies(es, done)
    ensures Tallies(AddedRows(es, rows), done + rows)
  {
    if rows == [] {
      assert done + rows == done;
    } else {
      var front, last := rows[..|rows| - 1], rows[|rows| - 1];
      RowsTally(es, done, front);
      var r := AddedRows(es, front);
      AddTally(r, done + front, last, 1, [last]);
      assert done + rows == done + front + [last];
    }
  }

  lemma AddTally(es: seq<Entry>, done: seq<nat>, pid: nat, n: nat, rows: seq<nat>)
    requires Tallies(es, done) && n > 0 && |rows| == n && forall i | 0 <= i < |rows| :: rows[i] == pid
    ensures Tallies(Added(es, pid, n), done + rows)
  {
    AddedDistinct(es, pid, n);
    AddedPositive(es, pid, n);
    AddedTotal(es, pid, n);
    Repeats(rows, pid);
    forall q ensures CountOf(Added(es, pid, n), q) == multiset(done + rows)[q] { AddedCount(es, pid, n, q); }
  }

  lemma {:induction false} Repeats(rows: seq<nat>, pid: nat)
    requires forall i | 0 <= i < |rows| :: rows[i] == pid
    ensures forall q :: multiset(rows)[q] == if q == pid then |rows| else 0
  {
    if rows != [] {
      Repeats(rows[1..], pid);
      assert rows == [rows[0]] + rows[1..];
    }
  }

  /** Rows with the tally of an entry list: each pid as often as its count. */
  function Spread(es: seq<Entry>): seq<nat> {
    if es == [] then [] else Spread(es[..|es| - 1]) + seq(es[|es| - 1].count, _ => es[|es| - 1].pid)
  }

  lemma {:induction false} EntriesTally(es: seq<Entry>, done: seq<nat>, other: seq<Entry>)
    requires Tallies(es, done) && forall e | e in other :: e.count > 0
    ensures Tallies(AddedEntries(es, other), done + Spread(other))
  {
    if other == [] {
      assert done + Spread(other) == done;
    } else {
      var front, last := other[..|other| - 1], other[|other| - 1];
      var same := seq(last.count, _ => last.pid);
      EntriesTally(es, done, front);
      AddTally(AddedEntries(es, front), done + Spread(front), last.pid, last.count, same);
      assert done + Spread(other) == done + Spread(front) + same;
    }
  }

  lemma {:induction false} CountSplit(es: seq<Entry>, q: nat)
    requires es != []
    ensures CountOf(es, q) == CountOf(es[..|es| - 1], q) + if es[|es| - 1].pid == q then es[|es| - 1].count else 0
  {
    if |es| > 1 {
      CountSplit(es[1..], q);
      assert es[1..][..|es| - 2] == es[..|es| - 1][1..];
    }
  }

  lemma {:induction false} SpreadCounts(es: seq<Entry>, q: nat)
    ensures multiset(Spread(es))[q] == CountOf(es, q)
  {
    if es != [] {
      var last := es[|es| - 1];
      SpreadCounts(es[..|es| - 1], q);
      CountSplit(es, q);
      Repeats(seq(last.count, _ => last.pid), last.pid);
    }
  }

  lemma SameTally(es: seq<Entry>, a: seq<nat>, b: seq<nat>)
    requires Tallies(es, a) && multiset(a) == multiset(b)
    ensures Tallies(es, b)
  {
    assert |a| == |multiset(a)| == |multiset(b)| == |b|;
  }

  /** Every schedule tallies exactly its rows. */
  lemma {:induction false} ResultTallies(s: Schedule)
    ensures Tallies(Result(s), Rows(s))
    decreases s
  {
    match s
    case Slice(batches) => BatchesTally(batches);
    case Merge(a, b) =>
      ResultTallies(a);
      ResultTallies(b);
      EntriesTally(Result(a), Rows(a), Result(b));
      forall q ensures multiset(Spread(Result(b)))[q] == multiset(Rows(b))[q] { SpreadCounts(Result(b), q); }
      assert multiset(Spread(Result(b))) == multiset(Rows(b));
      SameTally(Result(s), Rows(a) + Spread(Result(b)), Rows(a) + Rows(b));
  }

  lemma {:induction false} BatchesTally(batches: seq<seq<nat>>)
    ensures Tallies(Batched(batches), Concat(batches))
  {
    if batches != [] {
      BatchesTally(batches[..|batches| - 1]);
      RowsTally(Batched(batches[..|batches| - 1]), Concat(batches[..|batches| - 1]), batches[|batches| - 1]);
    }
  }

  lemma {:induction false} CountIn(es: seq<Entry>, e: Entry)
    requires Distinct(es) && e in es
    ensures CountOf(es, e.pid) == e.count
  {
    if es[0] == e {
      NoCount(es[1..], e.pid);
    } else {
      CountIn(es[1..], e);
    }
  }

  lemma {:induction false} NoCount(es: seq<Entry>, pid: nat)
    requires forall i | 0 <= i < |es| :: es[i].pid != pid
    ensures CountOf(es, pid) == 0
  {
    if es != [] { NoCount(es[1..], pid); }
  }

  lemma CountedPresent(es: seq<Entry>, pid: nat)
    requires CountOf(es, pid) > 0
    ensures exists e :: e in es && e.pid == pid
  {
    if forall i | 0 <= i < |es| :: es[i].pid != pid { NoCount(es, pid); }
  }

  lemma HeadOnce(es: seq<Entry>)
    requires SortedByPid(es) && es != []
    ensures es[0] !in es[1..] && es == [es[0]] + es[1..]
  {
    forall k | 0 <= k < |es| - 1 ensures es[1..][k] != es[0] { assert es[0].pid < es[k + 1].pid; }
  }

  /** Sorted tables of the same tally are the same table. */
  lemma {:induction false} SortedUnique(a: seq<Entry>, b: seq<Entry>)
    requires SortedByPid(a) && SortedByPid(b) && forall e :: e in a <==> e in b
    ensures a == b
    decreases |a|
  {
    if a == [] {
      assert forall i | 0 <= i < |b| :: b[i] in b;
    } else {
      assert a[0] in b && b != [];
      assert b[0] in a;
      var i :| 0 <= i < |b| && b[i] == a[0];
      var j :| 0 <= j < |a| && a[j] == b[0];
      assert a[0] == b[0];
      HeadOnce(a);
      HeadOnce(b);
      forall e ensures e in a[1..] <==> e in b[1..] {
        assert e in a <==> e == a[0] || e in a[1..];
        assert e in b <==> e == b[0] || e in b[1..];
      }
      SortedUnique(a[1..], b[1..]);
    }
  }

  lemma TalliesAgree(a: seq<Entry>, b: seq<Entry>, rows: seq<nat>, e: Entry)
    requires Tallies(a, rows) && Tallies(b, rows) && e in a
    ensures e in b
  {
    CountIn(a, e);
    CountedPresent(b, e.pid);
    var f :| f in b && f.pid == e.pid;
    CountIn(b, f);
  }

  /** Scheduling does not show: two schedules over the same rows, however split and merged, finalize to one array:
      sorted by pid, each pid once with its number of rows, the counts summing to the number of rows. */
  lemma ScheduleIndependent(s: Schedule, t: Schedule, a: seq<Entry>, b: seq<Entry>)
    requires multiset(Rows(s)) == multiset(Rows(t))
    requires SortedByPid(a) && multiset(a) == multiset(Result(s))
    requires SortedByPid(b) && multiset(b) == multiset(Result(t))
    ensures a == b && (forall q :: CountOf(Result(s), q) == multiset(Rows(s))[q]) && Total(Result(s)) == |Rows(s)|
    ensures forall e | e in a :: e.count == multiset(Rows(s))[e.pid] > 0
  {
    ResultTallies(s);
    ResultTallies(t);
    SameTally(Result(t), Rows(t), Rows(s));
    forall e ensures e in a <==> e in b {
      assert e in a <==> e in multiset(a);
      assert e in b <==> e in multiset(b);
      if e in Result(s) { TalliesAgree(Result(s), Result(t), Rows(s), e); }
      if e in Result(t) { TalliesAgree(Result(t), Result(s), Rows(s), e); }
    }
    SortedUnique(a, b);
    forall e | e in a ensures e.count == multiset(Rows(s))[e.pid] > 0 {
      assert e in multiset(a);
      CountIn(Result(s), e);
    }
  }
}
