/** Paging through sharded events by timestamp: each worker returns its smallest page, the coordinator merges and
    cuts, and the next page starts one past the last timestamp. */
module Paging {
  datatype Event = Event(ts: int, id: nat)
  datatype Cursor = Start | At(ts: int)
  datatype QueryPage = QueryPage(table: seq<Event>, nextCursor: Cursor, more: bool)

  predicate Reached(c: Cursor, e: Event) { c.Start? || e.ts >= c.ts }

  function From(es: seq<Event>, c: Cursor): seq<Event> {
    if es == [] then [] else (if Reached(c, es[0]) then [es[0]] else []) + From(es[1..], c)
  }

  /** The events that share no timestamp from `t` on. */
  function CountBelow(es: seq<Event>, t: int): nat {
    if es == [] then 0 else (if es[0].ts < t then 1 else 0) + CountBelow(es[1..], t)
  }

  predicate Sorted(es: seq<Event>) { forall i, j | 0 <= i < j < |es| :: es[i].ts <= es[j].ts }

  /** A sort by timestamp; equal timestamps in any order. */
  ghost predicate IsSort(es: seq<Event>, s: seq<Event>) { Sorted(s) && multiset(s) == multiset(es) }
  ghost predicate Sorts(f: seq<Event> -> seq<Event>) { forall es :: IsSort(es, f(es)) }

  function Limit(es: seq<Event>, n: nat): seq<Event> { if |es| <= n then es else es[..n] }

  function Flat(parts: seq<seq<Event>>): seq<Event> {
    if parts == [] then [] else parts[0] + Flat(parts[1..])
  }

  // ---- a page over shards --------------------------------------------------------------------------

  /** One shard's matching events from the cursor on: its smallest page. */
  function EventsTask(native: seq<Event> -> seq<Event>, shard: seq<Event>, c: Cursor, size: nat): seq<Event> {
    Limit(native(From(shard, c)), size)
  }

  function Tasks(native: seq<Event> -> seq<Event>, shards: seq<seq<Event>>, c: Cursor, size: nat): (r: seq<seq<Event>>)
    ensures |r| == |shards|
    ensures forall i | 0 <= i < |shards| :: r[i] == EventsTask(native, shards[i], c, size)
  {
    if shards == [] then [] else [EventsTask(native, shards[0], c, size)] + Tasks(native, shards[1..], c, size)
  }

  /** `page`: the merged page; `more` is false where the source returns no next cursor. */
  function Page(native: seq<Event> -> seq<Event>, arrow: seq<Event> -> seq<Event>, shards: seq<seq<Event>>,
                c: Cursor, size: nat): QueryPage {
    Cut(arrow, Flat(Tasks(native, shards, c, size)), size)
  }

  function Cut(arrow: seq<Event> -> seq<Event>, combined: seq<Event>, size: nat): QueryPage {
    if combined == [] then QueryPage([], Start, false)
    else
      var page := Limit(arrow(combined), size);
      if |page| >= size && page != [] then QueryPage(page, At(page[|page| - 1].ts + 1), true)
      else QueryPage(page, Start, false)
  }

  /** The `size` smallest events of a pool, in order: whatever the page leaves out is no earlier than all of it. */
  ghost predicate Smallest(page: seq<Event>, pool: seq<Event>, size: nat) {
    && Sorted(page) && multiset(page) <= multiset(pool)
    && |page| == (if |pool| < size then |pool| else size)
    && forall e, k | multiset(page)[e] < multiset(pool)[e] && 0 <= k < |page| :: page[k].ts <= e.ts
  }

  lemma SubsetEqual(a: multiset<Event>, b: multiset<Event>)
    requires a <= b && |a| == |b|
    ensures a == b
  {
    assert b == a + (b - a);
  }

  lemma SubsetSize(a: multiset<Event>, b: multiset<Event>)
    requires a <= b
    ensures |a| <= |b|
  {
    assert b == a + (b - a);
  }

  lemma LimitSmallest(pool: seq<Event>, s: seq<Event>, size: nat)
    requires IsSort(pool, s)
    ensures Smallest(Limit(s, size), pool, size)
  {
    assert |s| == |multiset(s)| == |multiset(pool)| == |pool|;
    if size < |s| {
      assert s == s[..size] + s[size..];
      forall e, k | multiset(s[..size])[e] < multiset(pool)[e] && 0 <= k < size ensures s[k].ts <= e.ts {
        assert e in s[size..];
      }
    }
  }

  ghost predicate Pages(parts: seq<seq<Event>>, pools: seq<seq<Event>>, size: nat) {
    |parts| == |pools| && forall i | 0 <= i < |parts| :: Smallest(parts[i], pools[i], size)
  }

  lemma {:induction false} FlatWithin(parts: seq<seq<Event>>, pools: seq<seq<Event>>, size: nat)
    requires Pages(parts, pools, size)
    ensures multiset(Flat(parts)) <= multiset(Flat(pools))
    ensures |Flat(parts)| < size ==> multiset(Flat(parts)) == multiset(Flat(pools))
  {
    if parts != [] {
      FlatWithin(parts[1..], pools[1..], size);
      assert Smallest(parts[0], pools[0], size);
      if |pools[0]| < size { SubsetEqual(multiset(parts[0]), multiset(pools[0])); }
    }
  }

  lemma {:induction false} FlatExcess(parts: seq<seq<Event>>, pools: seq<seq<Event>>, e: Event) returns (i: nat)
    requires |parts| == |pools| && multiset(Flat(parts))[e] < multiset(Flat(pools))[e]
    ensures i < |parts| && multiset(parts[i])[e] < multiset(pools[i])[e]
  {
    if multiset(parts[0])[e] < multiset(pools[0])[e] { return 0; }
    var j := FlatExcess(parts[1..], pools[1..], e);
    i := j + 1;
  }

  lemma {:induction false} FlatPart(parts: seq<seq<Event>>, i: nat)
    requires i < |parts|
    ensures multiset(parts[i]) <= multiset(Flat(parts))
  {
    if i > 0 { FlatPart(parts[1..], i - 1); }
  }

  /** The smallest page over the truncated pages of the shards is the smallest page over the shards. */
  lemma {:induction false} MergedSmallest(page: seq<Event>, parts: seq<seq<Event>>, pools: seq<seq<Event>>, size: nat)
    requires Pages(parts, pools, size) && Smallest(page, Flat(parts), size)
    ensures Smallest(page, Flat(pools), size)
  {
    FlatWithin(parts, pools, size);
    SubsetSize(multiset(Flat(parts)), multiset(Flat(pools)));
    forall e, k | multiset(page)[e] < multiset(Flat(pools))[e] && 0 <= k < |page| ensures page[k].ts <= e.ts {
      if multiset(page)[e] >= multiset(Flat(parts))[e] {
        var i := FlatExcess(parts, pools, e);
        FlatPart(parts, i);
        CutShard(page, parts[i], Flat(parts), e, k, pools[i], size);
      }
    }
  }

  lemma CutShard(page: seq<Event>, part: seq<Event>, merged: seq<Event>, e: Event, k: nat, pool: seq<Event>, size: nat)
    requires Smallest(part, pool, size) && Smallest(page, merged, size) && multiset(part) <= multiset(merged)
    requires multiset(part)[e] < multiset(pool)[e] && k < |page|
    ensures page[k].ts <= e.ts
  {
    if |pool| <= size { SubsetEqual(multiset(part), multiset(pool)); }
    SubsetSize(multiset(part), multiset(merged));
    assert |part| == size == |page|;
    if multiset(part) <= multiset(page) {
      SubsetEqual(multiset(part), multiset(page));
      assert page[k] in multiset(page);
      var j :| 0 <= j < |part| && part[j] == page[k];
    } else {
      var x :| multiset(part)[x] > multiset(page)[x];
      assert x in multiset(part);
      var j :| 0 <= j < |part| && part[j] == x;
    }
  }

  // ---- what is left from a cursor ------------------------------------------------------------------

  lemma {:induction false} FromCount(es: seq<Event>, c: Cursor, e: Event)
    ensures multiset(From(es, c))[e] == if Reached(c, e) then multiset(es)[e] else 0
  {
    if es != [] {
      FromCount(es[1..], c, e);
      assert es == [es[0]] + es[1..];
    }
  }

  function Pools(shards: seq<seq<Event>>, c: Cursor): seq<seq<Event>> {
    seq(|shards|, i requires 0 <= i < |shards| => From(shards[i], c))
  }

  lemma {:induction false} FromFlat(shards: seq<seq<Event>>, c: Cursor)
    ensures multiset(Flat(Pools(shards, c))) == multiset(From(Flat(shards), c))
  {
    if shards != [] {
      FromFlat(shards[1..], c);
      assert Pools(shards, c)[1..] == Pools(shards[1..], c);
      FromAppend(shards[0], Flat(shards[1..]), c);
    }
  }

  lemma {:induction false} FromAppend(a: seq<Event>, b: seq<Event>, c: Cursor)
    ensures From(a + b, c) == From(a, c) + From(b, c)
  {
    if a == [] {
      assert a + b == b;
    } else {
      var h := if Reached(c, a[0]) then [a[0]] else [];
      FromAppend(a[1..], b, c);
      assert (a + b)[1..] == a[1..] + b;
      assert From(a + b, c) == h + (From(a[1..], c) + From(b, c));
    }
  }

  lemma MergeCut(arrow: seq<Event> -> seq<Event>, combined: seq<Event>, size: nat, p: QueryPage)
    requires Sorts(arrow) && p == Cut(arrow, combined, size)
    ensures Smallest(p.table, combined, size)
    ensures !p.more ==> |p.table| < size || size == 0
    ensures p.more ==> p.table != [] && p.nextCursor == At(p.table[|p.table| - 1].ts + 1) && |p.table| == size
  {
    var s := arrow(combined);
    assert IsSort(combined, s);
    LimitSmallest(combined, s, size);
  }

  lemma SmallestSwap(page: seq<Event>, a: seq<Event>, b: seq<Event>, size: nat)
    requires Smallest(page, a, size) && multiset(a) == multiset(b)
    ensures Smallest(page, b, size)
  {
    assert |a| == |multiset(a)| == |multiset(b)| == |b|;
  }

  lemma {:induction false} TasksSmallest(native: seq<Event> -> seq<Event>, shards: seq<seq<Event>>, c: Cursor, size: nat)
    requires Sorts(native)
    ensures Pages(Tasks(native, shards, c, size), Pools(shards, c), size)
  {
    var parts, pools := Tasks(native, shards, c, size), Pools(shards, c);
    forall i | 0 <= i < |parts| ensures Smallest(parts[i], pools[i], size) {
      assert IsSort(pools[i], native(pools[i]));
      LimitSmallest(pools[i], native(pools[i]), size);
    }
  }

  /** One page holds the `size` smallest of all events from the cursor on, over all shards together; it is short
      only when nothing is left. */
  lemma {:induction false} PageSmallest(native: seq<Event> -> seq<Event>, arrow: seq<Event> -> seq<Event>, shards: seq<seq<Event>>,
                     c: Cursor, size: nat, p: QueryPage)
    requires Sorts(native) && Sorts(arrow) && p == Page(native, arrow, shards, c, size)
    ensures Smallest(p.table, From(Flat(shards), c), size) && Sorted(p.table)
    ensures !p.more && size > 0 ==> |p.table| < size
    ensures size == 0 ==> p.table == [] && !p.more
    ensures !p.more ==> size == 0 || multiset(p.table) == multiset(From(Flat(shards), c))
    ensures p.more ==> p.table != [] && p.nextCursor == At(p.table[|p.table| - 1].ts + 1) && |p.table| == size
  {
    var parts, pools, all := Tasks(native, shards, c, size), Pools(shards, c), From(Flat(shards), c);
    TasksSmallest(native, shards, c, size);
    MergeCut(arrow, Flat(parts), size, p);
    MergedSmallest(p.table, parts, pools, size);
    FromFlat(shards, c);
    SmallestSwap(p.table, Flat(pools), all, size);
    if !p.more && size > 0 { SubsetEqual(multiset(p.table), multiset(all)); }
  }

  // ---- all pages -------------------------------------------------------------------------------------------

  /** The events with a timestamp below the cursor. */
  predicate Passed(c: Cursor, e: Event) { !Reached(c, e) }

  /** Position `m * size` of the sorted events falls inside a run of equal timestamps. */
  ghost predicate Straddled(es: seq<Event>, size: nat, m: nat) {
    exists t :: CountBelow(es, t) < m * size < CountBelow(es, t + 1)
  }

  ghost predicate Straddle(es: seq<Event>, size: nat) { exists m: nat :: Straddled(es, size, m) }

  function Passing(es: seq<Event>, c: Cursor): nat { if c.Start? then 0 else CountBelow(es, c.ts) }

  /** Everything below the cursor has been yielded, in whole pages, and nothing else. */
  ghost predicate Exhaustive(es: seq<Event>, out: seq<Event>, c: Cursor, size: nat, k: nat) {
    && (forall e :: multiset(out)[e] == if Passed(c, e) then multiset(es)[e] else 0)
    && |out| == k * size == Passing(es, c)
    && forall m: nat | m <= k :: !Straddled(es, size, m)
  }

  /** Some event below the cursor has not been yielded, and never will be. */
  ghost predicate Lost(es: seq<Event>, out: seq<Event>, c: Cursor, size: nat) {
    Straddle(es, size) && exists e :: Passed(c, e) && multiset(out)[e] < multiset(es)[e]
  }

  ghost predicate Within(es: seq<Event>, out: seq<Event>, c: Cursor) {
    && Sorted(out) && (forall k | 0 <= k < |out| :: Passed(c, out[k])) && multiset(out) <= multiset(es)
  }

  lemma {:induction false} CountMonotone(es: seq<Event>, s: int, t: int)
    requires s <= t
    ensures CountBelow(es, s) <= CountBelow(es, t) <= |es|
  {
    if es != [] { CountMonotone(es[1..], s, t); }
  }

  /** The events from the cursor on and below `t`. */
  function Slice(es: seq<Event>, c: Cursor, t: int): seq<Event> {
    if es == [] then [] else (if Reached(c, es[0]) && es[0].ts < t then [es[0]] else []) + Slice(es[1..], c, t)
  }

  lemma ConsCount(x: Event, rest: seq<Event>, e: Event)
    ensures multiset([x] + rest)[e] == multiset(rest)[e] + if x == e then 1 else 0
  {
  }

  lemma {:induction false} SliceCount(es: seq<Event>, c: Cursor, t: int, e: Event)
    ensures multiset(Slice(es, c, t))[e] == if Reached(c, e) && e.ts < t then multiset(es)[e] else 0
  {
    if es != [] {
      var x, rest := es[0], es[1..];
      SliceCount(rest, c, t, e);
      assert es == [x] + rest;
      ConsCount(x, rest, e);
      ConsCount(x, Slice(rest, c, t), e);
      assert [] + Slice(rest, c, t) == Slice(rest, c, t);
    }
  }

  lemma {:induction false} SliceLength(es: seq<Event>, c: Cursor, t: int)
    requires c.Start? || c.ts <= t
    ensures |Slice(es, c, t)| == CountBelow(es, t) - Passing(es, c)
  {
    if es != [] { SliceLength(es[1..], c, t); }
  }

  lemma {:induction false} FromLength(es: seq<Event>, c: Cursor)
    ensures |From(es, c)| == |es| - Passing(es, c)
  {
    if es != [] { FromLength(es[1..], c); }
  }

  lemma StrictlyWithin(a: multiset<Event>, b: multiset<Event>, e: Event)
    requires a <= b && a[e] < b[e]
    ensures |a| < |b|
  {
    SubsetSize(a, b);
    if |a| == |b| { SubsetEqual(a, b); }
  }

  /** A full page among the events from its cursor: everything before its last timestamp is on it. */
  ghost predicate FullPage(es: seq<Event>, page: seq<Event>, c: Cursor, size: nat) {
    page != [] && |page| == size && Smallest(page, From(es, c), size)
  }

  function Last(page: seq<Event>): int
    requires page != []
  { page[|page| - 1].ts }

  lemma LastReached(es: seq<Event>, page: seq<Event>, c: Cursor)
    requires page != [] && multiset(page) <= multiset(From(es, c))
    ensures c.Start? || c.ts <= Last(page)
  {
    var l := page[|page| - 1];
    FromCount(es, c, l);
    assert l in multiset(page);
  }

  lemma PageCounts(es: seq<Event>, page: seq<Event>, c: Cursor, t: int, e: Event)
    requires page != [] && Sorted(page) && t == Last(page) && multiset(page)[e] <= multiset(From(es, c))[e]
    requires multiset(page)[e] < multiset(From(es, c))[e] ==> t <= e.ts
    ensures multiset(page)[e] <= multiset(Slice(es, c, t + 1))[e]
    ensures multiset(Slice(es, c, t))[e] <= multiset(page)[e]
  {
    hide From, Slice;
    FromCount(es, c, e);
    SliceCount(es, c, t + 1, e);
    SliceCount(es, c, t, e);
    assert multiset(page)[e] > 0 ==> e.ts <= t by {
      if multiset(page)[e] > 0 { var j :| 0 <= j < |page| && page[j] == e; }
    }
  }

  lemma {:induction false} PageBetween(es: seq<Event>, page: seq<Event>, c: Cursor, size: nat)
    requires FullPage(es, page, c, size)
    ensures Sorted(page) && multiset(page) <= multiset(From(es, c))
    ensures multiset(page) <= multiset(Slice(es, c, Last(page) + 1))
    ensures multiset(Slice(es, c, Last(page))) <= multiset(page)
    ensures c.Start? || c.ts <= Last(page)
  {
    hide From, Slice, Reached;
    var t := Last(page);
    LastReached(es, page, c);
    forall e
      ensures multiset(page)[e] <= multiset(Slice(es, c, t + 1))[e]
      ensures multiset(Slice(es, c, t))[e] <= multiset(page)[e]
    {
      if multiset(page)[e] < multiset(From(es, c))[e] { assert page[|page| - 1].ts <= e.ts; }
      PageCounts(es, page, c, t, e);
    }
  }

  /** The page ends exactly at a run's end, or its end straddles the run. */
  lemma EndsWithin(es: seq<Event>, page: seq<Event>, c: Cursor, t: int)
    requires multiset(Slice(es, c, t)) <= multiset(page) <= multiset(Slice(es, c, t + 1))
    requires page != [] && t == Last(page) && (c.Start? || c.ts <= t)
    ensures CountBelow(es, t) < Passing(es, c) + |page| <= CountBelow(es, t + 1)
    ensures Passing(es, c) + |page| == CountBelow(es, t + 1) <==> multiset(page) == multiset(Slice(es, c, t + 1))
  {
    SliceLength(es, c, t);
    SliceLength(es, c, t + 1);
    var l := page[|page| - 1];
    assert l in multiset(page);
    SliceCount(es, c, t, l);
    StrictlyWithin(multiset(Slice(es, c, t)), multiset(page), l);
    SubsetSize(multiset(page), multiset(Slice(es, c, t + 1)));
    if |page| == |Slice(es, c, t + 1)| { SubsetEqual(multiset(page), multiset(Slice(es, c, t + 1))); }
  }

  lemma PageReached(es: seq<Event>, page: seq<Event>, c: Cursor)
    requires multiset(page) <= multiset(From(es, c))
    ensures forall k | 0 <= k < |page| :: Reached(c, page[k])
    ensures forall e :: multiset(page)[e] <= multiset(es)[e]
    ensures forall e | Passed(c, e) :: multiset(page)[e] == 0
  {
    forall e ensures multiset(From(es, c))[e] == if Reached(c, e) then multiset(es)[e] else 0 { FromCount(es, c, e); }
    forall k | 0 <= k < |page| ensures Reached(c, page[k]) { assert page[k] in multiset(page); }
  }

  lemma {:induction false} NextCounts(es: seq<Event>, out: seq<Event>, page: seq<Event>, c: Cursor)
    requires multiset(out) <= multiset(es) && forall k | 0 <= k < |out| :: Passed(c, out[k])
    requires multiset(page) <= multiset(From(es, c))
    ensures multiset(out + page) <= multiset(es)
    ensures forall e | Passed(c, e) :: multiset(out + page)[e] == multiset(out)[e]
  {
    PageReached(es, page, c);
    forall e ensures multiset(out + page)[e] <= multiset(es)[e] {
      if e in multiset(out) { var j :| 0 <= j < |out| && out[j] == e; }
    }
  }

  lemma {:induction false} NextWithin(es: seq<Event>, out: seq<Event>, page: seq<Event>, c: Cursor, next: Cursor)
    requires Within(es, out, c) && Sorted(page) && multiset(page) <= multiset(From(es, c))
    requires next.At? && (c.Start? || c.ts <= next.ts) && forall k | 0 <= k < |page| :: Passed(next, page[k])
    ensures Within(es, out + page, next)
  {
    hide From;
    NextCounts(es, out, page, c);
    PageReached(es, page, c);
    NextSorted(out, page, c, next);
  }

  lemma {:induction false} NextSorted(out: seq<Event>, page: seq<Event>, c: Cursor, next: Cursor)
    requires Sorted(out) && Sorted(page) && next.At? && (c.Start? || c.ts <= next.ts)
    requires forall k | 0 <= k < |out| :: Passed(c, out[k])
    requires forall k | 0 <= k < |page| :: Reached(c, page[k]) && Passed(next, page[k])
    ensures Sorted(out + page) && forall k | 0 <= k < |out + page| :: Passed(next, (out + page)[k])
  {
    var all := out + page;
    forall i, j | 0 <= i < j < |all| ensures all[i].ts <= all[j].ts {
      if i < |out| <= j { assert Passed(c, out[i]) && Reached(c, page[j - |out|]); }
    }
    forall k | 0 <= k < |all| ensures Passed(next, all[k]) {
      if k < |out| { assert Passed(c, out[k]); } else { assert Passed(next, page[k - |out|]); }
    }
  }

  lemma Times(k: nat, m: nat, size: nat)
    requires k <= m
    ensures k * size <= m * size && (k + 1) * size == k * size + size
  {
  }

  lemma NoStraddleAt(es: seq<Event>, size: nat, k: nat, t: int)
    requires CountBelow(es, t) == k * size
    ensures !Straddled(es, size, k)
  {
    forall u: int ensures !(CountBelow(es, u) < k * size < CountBelow(es, u + 1)) {
      if u < t { CountMonotone(es, u + 1, t); } else { CountMonotone(es, t, u); }
    }
  }

  /** A page that ends at the end of a run keeps exhaustion. */
  lemma NextExhaustive(es: seq<Event>, out: seq<Event>, page: seq<Event>, c: Cursor, size: nat, k: nat, t: int)
    requires Exhaustive(es, out, c, size, k) && |page| == size && (c.Start? || c.ts <= t)
    requires multiset(page) == multiset(Slice(es, c, t + 1)) && Passing(es, c) + size == CountBelow(es, t + 1)
    ensures Exhaustive(es, out + page, At(t + 1), size, k + 1)
  {
    hide From, Slice, CountBelow;
    Times(k, k + 1, size);
    NoStraddleAt(es, size, k + 1, t + 1);
    forall e ensures multiset(out + page)[e] == if Passed(At(t + 1), e) then multiset(es)[e] else 0 {
      SliceCount(es, c, t + 1, e);
    }
  }

  /** A page that ends inside a run loses one of its events. */
  lemma NextLoses(es: seq<Event>, out: seq<Event>, page: seq<Event>, c: Cursor, size: nat, k: nat, t: int)
    requires Exhaustive(es, out, c, size, k) && |page| == size
    requires multiset(page) <= multiset(Slice(es, c, t + 1)) && multiset(page) != multiset(Slice(es, c, t + 1))
    requires CountBelow(es, t) < Passing(es, c) + size < CountBelow(es, t + 1)
    ensures Lost(es, out + page, At(t + 1), size)
  {
    hide From, Slice, CountBelow;
    Times(k, k + 1, size);
    assert Straddled(es, size, k + 1);
    var e :| multiset(page)[e] != multiset(Slice(es, c, t + 1))[e];
    SliceCount(es, c, t + 1, e);
    assert Passed(At(t + 1), e) && multiset(out + page)[e] < multiset(es)[e];
  }

  lemma NextLost(es: seq<Event>, out: seq<Event>, page: seq<Event>, c: Cursor, next: Cursor, size: nat)
    requires Lost(es, out, c, size) && Within(es, out, c) && multiset(page) <= multiset(From(es, c))
    requires next.At? && (c.Start? || c.ts <= next.ts)
    ensures Lost(es, out + page, next, size)
  {
    NextCounts(es, out, page, c);
    var e :| Passed(c, e) && multiset(out)[e] < multiset(es)[e];
    assert Passed(next, e) && multiset(out + page)[e] < multiset(es)[e];
  }

  /** A step of the loop: either everything below the cursor has been yielded or an event is lost, after it too. */
  lemma {:induction false} NextState(es: seq<Event>, out: seq<Event>, page: seq<Event>, c: Cursor, size: nat, k: nat, t: int)
    requires Within(es, out, c) && (Exhaustive(es, out, c, size, k) || Lost(es, out, c, size))
    requires page != [] && |page| == size && t == Last(page) && (c.Start? || c.ts <= t)
    requires multiset(page) <= multiset(From(es, c))
    requires multiset(Slice(es, c, t)) <= multiset(page) <= multiset(Slice(es, c, t + 1))
    ensures Exhaustive(es, out + page, At(t + 1), size, k + 1) || Lost(es, out + page, At(t + 1), size)
  {
    if Lost(es, out, c, size) {
      NextLost(es, out, page, c, At(t + 1), size);
    } else {
      EndsWithin(es, page, c, t);
      if multiset(page) == multiset(Slice(es, c, t + 1)) {
        NextExhaustive(es, out, page, c, size, k, t);
      } else {
        NextLoses(es, out, page, c, size, k, t);
      }
    }
  }

  lemma FewerLeft(es: seq<Event>, page: seq<Event>, c: Cursor, t: int)
    requires page != [] && t == Last(page) && (c.Start? || c.ts <= t)
    requires multiset(Slice(es, c, t)) <= multiset(page) <= multiset(Slice(es, c, t + 1))
    ensures |From(es, At(t + 1))| < |From(es, c)|
  {
    EndsWithin(es, page, c, t);
    FromLength(es, c);
    FromLength(es, At(t + 1));
  }

  /** The page before `next`: sorted, within what is left, and ending one below it. */
  ghost predicate Turns(es: seq<Event>, page: seq<Event>, c: Cursor, next: Cursor) {
    && Sorted(page) && multiset(page) <= multiset(From(es, c)) && page != [] && next == At(Last(page) + 1)
    && (c.Start? || c.ts < next.ts) && (forall k | 0 <= k < |page| :: Passed(next, page[k]))
    && multiset(Slice(es, c, Last(page))) <= multiset(page) <= multiset(Slice(es, c, Last(page) + 1))
  }

  lemma PageTurns(es: seq<Event>, page: seq<Event>, c: Cursor, size: nat)
    requires FullPage(es, page, c, size)
    ensures Turns(es, page, c, At(Last(page) + 1))
  {
    hide From, Slice, Smallest;
    PageBetween(es, page, c, size);
  }

  lemma {:induction false} NextPage(es: seq<Event>, out: seq<Event>, page: seq<Event>, c: Cursor, next: Cursor, size: nat, k: nat)
    requires Within(es, out, c) && (Exhaustive(es, out, c, size, k) || Lost(es, out, c, size))
    requires Turns(es, page, c, next) && |page| == size
    ensures Within(es, out + page, next)
    ensures Exhaustive(es, out + page, next, size, k + 1) || Lost(es, out + page, next, size)
    ensures |From(es, next)| < |From(es, c)|
  {
    hide Exhaustive, Lost, Within, Sorted, From, Slice;
    NextWithin(es, out, page, c, next);
    NextState(es, out, page, c, size, k, Last(page));
    FewerLeft(es, page, c, Last(page));
  }

  /** A short page drains what is left, so nothing is straddled and nothing lost. */
  lemma LastExhaustive(es: seq<Event>, out: seq<Event>, page: seq<Event>, c: Cursor, size: nat, k: nat)
    requires Exhaustive(es, out, c, size, k) && size > 0
    requires multiset(page) == multiset(From(es, c)) && |page| < size
    ensures multiset(out + page) == multiset(es) && !Straddle(es, size)
  {
    forall e ensures multiset(out + page)[e] == multiset(es)[e] { FromCount(es, c, e); }
    FromLength(es, c);
    assert |page| == |multiset(page)| == |From(es, c)|;
    forall m: nat ensures !Straddled(es, size, m) {
      if m > k {
        Times(k + 1, m, size);
        Times(k, k, size);
        forall t: int ensures CountBelow(es, t) <= |es| { CountMonotone(es, t, t); }
      }
    }
  }

  /** A run that ends on this page: everything yielded is sorted and yielded once; all of it, or not. */
  lemma LastPage(es: seq<Event>, out: seq<Event>, page: seq<Event>, c: Cursor, size: nat, k: nat)
    requires Within(es, out, c) && size > 0 && Sorted(page) && multiset(page) == multiset(From(es, c)) && |page| < size
    requires Exhaustive(es, out, c, size, k) || Lost(es, out, c, size)
    ensures Sorted(out + page) && multiset(out + page) <= multiset(es)
    ensures multiset(out + page) == multiset(es) <==> !Straddle(es, size)
  {
    NextCounts(es, out, page, c);
    PageReached(es, page, c);
    if Lost(es, out, c, size) {
      var e :| Passed(c, e) && multiset(out)[e] < multiset(es)[e];
      assert multiset(out + page)[e] < multiset(es)[e];
    } else {
      LastExhaustive(es, out, page, c, size, k);
    }
  }

  lemma {:induction false} FlatSnoc(pages: seq<seq<Event>>, page: seq<Event>)
    ensures Flat(pages + [page]) == Flat(pages) + page
  {
    if pages == [] {
      assert Flat([page]) == page + Flat([]);
    } else {
      FlatSnoc(pages[1..], page);
      assert (pages + [page])[1..] == pages[1..] + [page];
    }
  }

  ghost predicate Ascending(pages: seq<seq<Event>>) {
    forall i, j, a, b | 0 <= i < j < |pages| && a in pages[i] && b in pages[j] :: a.ts < b.ts
  }

  ghost predicate Behind(pages: seq<seq<Event>>, c: Cursor) {
    forall i, a | 0 <= i < |pages| && a in pages[i] :: Passed(c, a)
  }

  lemma BehindSnoc(pages: seq<seq<Event>>, page: seq<Event>, c: Cursor, next: Cursor)
    requires Behind(pages, c) && (forall k | 0 <= k < |page| :: Passed(next, page[k]))
    requires next.At? && (c.Start? || c.ts <= next.ts)
    ensures Behind(pages + [page], next)
  {
    forall i, a | 0 <= i < |pages + [page]| && a in (pages + [page])[i] ensures Passed(next, a) {
      if i < |pages| {
        assert a in pages[i] && Passed(c, a);
      } else {
        var k :| 0 <= k < |page| && page[k] == a;
      }
    }
  }

  /** What the pages so far promise of the cursor. */
  ghost predicate Yielded(es: seq<Event>, pages: seq<seq<Event>>, c: Cursor, size: nat, k: nat) {
    && (forall i | 0 <= i < |pages| :: |pages[i]| == size > 0)
    && Ascending(pages) && Behind(pages, c)
    && Within(es, Flat(pages), c)
    && (Exhaustive(es, Flat(pages), c, size, k) || Lost(es, Flat(pages), c, size))
  }

  /** What all the pages promise. */
  ghost predicate Finished(es: seq<Event>, pages: seq<seq<Event>>, size: nat) {
    && (forall i | 0 <= i < |pages| :: 0 < |pages[i]| <= size && (i < |pages| - 1 ==> |pages[i]| == size))
    && Ascending(pages) && Sorted(Flat(pages)) && multiset(Flat(pages)) <= multiset(es)
    && (size > 0 ==> (multiset(Flat(pages)) == multiset(es) <==> !Straddle(es, size)))
  }

  lemma AscendingSnoc(es: seq<Event>, pages: seq<seq<Event>>, page: seq<Event>, c: Cursor)
    requires Ascending(pages) && Behind(pages, c) && multiset(page) <= multiset(From(es, c))
    ensures Ascending(pages + [page])
  {
    hide From;
    PageReached(es, page, c);
    forall i, j, a, b | 0 <= i < j < |pages + [page]| && a in (pages + [page])[i] && b in (pages + [page])[j]
      ensures a.ts < b.ts
    {
      BeforeSnoc(pages, page, c, i, j, a, b);
    }
  }

  lemma BeforeSnoc(pages: seq<seq<Event>>, page: seq<Event>, c: Cursor, i: nat, j: nat, a: Event, b: Event)
    requires Ascending(pages) && Behind(pages, c) && forall k | 0 <= k < |page| :: Reached(c, page[k])
    requires i < j <= |pages| && a in pages[i] && b in (pages + [page])[j]
    ensures a.ts < b.ts
  {
    assert Passed(c, a);
    if j < |pages| {
      assert b in pages[j];
    } else {
      assert (pages + [page])[j] == page;
      var k :| 0 <= k < |page| && page[k] == b;
      assert Reached(c, page[k]);
    }
  }

  lemma NothingYielded(es: seq<Event>, size: nat)
    ensures Exhaustive(es, [], Start, size, 0)
  {
    hide CountBelow, From, Slice, Straddle;
    assert 0 * size == 0;
    forall e: Event ensures multiset([])[e] == 0 {}
    forall m: nat | m <= 0 ensures !Straddled(es, size, m) { assert m * size == 0; }
  }

  lemma YieldNone(es: seq<Event>, size: nat)
    ensures if size > 0 then Yielded(es, [], Start, size, 0) else Finished(es, [], 0)
  {
    hide Exhaustive, Lost, Straddle, From;
    NothingYielded(es, size);
    assert Flat([]) == [];
  }

  /** One more full page. */
  lemma {:induction false} YieldNext(es: seq<Event>, pages: seq<seq<Event>>, page: seq<Event>, c: Cursor, next: Cursor, size: nat, k: nat)
    requires Yielded(es, pages, c, size, k) && Turns(es, page, c, next) && |page| == size
    ensures Yielded(es, pages + [page], next, size, k + 1) && |From(es, next)| < |From(es, c)|
  {
    hide Exhaustive, Lost, Within, Sorted, From, Slice, Flat, Ascending, Behind;
    FlatSnoc(pages, page);
    AscendingSnoc(es, pages, page, c);
    BehindSnoc(pages, page, c, next);
    NextPage(es, Flat(pages), page, c, next, size, k);
  }

  lemma {:induction false} YieldLast(es: seq<Event>, pages: seq<seq<Event>>, page: seq<Event>, c: Cursor, size: nat, k: nat)
    requires Yielded(es, pages, c, size, k) && size > 0
    requires Sorted(page) && multiset(page) == multiset(From(es, c)) && |page| < size
    ensures Finished(es, if page == [] then pages else pages + [page], size)
  {
    hide Exhaustive, Lost, Within, Straddle, From, Slice, Ascending, Behind;
    FlatSnoc(pages, page);
    AscendingSnoc(es, pages, page, c);
    LastPage(es, Flat(pages), page, c, size, k);
    assert Flat(pages) + [] == Flat(pages);
  }

  /** `pages`: page after page until one is short. The loop ends; pages ascend strictly, so no event and no
      timestamp is yielded on two of them; the events come in order, each at most once; and they are all of them if
      and only if no multiple of the page size falls inside a run of equal timestamps. */
  method PagesOf(native: seq<Event> -> seq<Event>, arrow: seq<Event> -> seq<Event>, shards: seq<seq<Event>>, size: nat)
    returns (pages: seq<seq<Event>>)
    requires Sorts(native) && Sorts(arrow)
    ensures forall i | 0 <= i < |pages| :: 0 < |pages[i]| <= size && (i < |pages| - 1 ==> |pages[i]| == size)
    ensures Ascending(pages)
    ensures Sorted(Flat(pages)) && multiset(Flat(pages)) <= multiset(Flat(shards))
    ensures size > 0 ==> (multiset(Flat(pages)) == multiset(Flat(shards)) <==> !Straddle(Flat(shards), size))
  {
    hide Exhaustive, Lost, Within, Sorted, From, Slice, Straddle, Turns;
    hide Ascending, Behind, Smallest, Page, Flat, Yielded, Sorts;
    pages := [];
    var cursor := Start;
    ghost var es, k := Flat(shards), 0;
    YieldNone(es, size);
    while true
      invariant if size > 0 then Yielded(es, pages, cursor, size, k) else pages == [] && cursor == Start
      decreases |From(es, cursor)|
    {
      var pg := Page(native, arrow, shards, cursor, size);
      PageSmallest(native, arrow, shards, cursor, size, pg);
      if !pg.more {
        if size > 0 { YieldLast(es, pages, pg.table, cursor, size, k); }
      } else {
        PageTurns(es, pg.table, cursor, size);
        YieldNext(es, pages, pg.table, cursor, pg.nextCursor, size, k);
      }
      if pg.table == [] { break; }
      pages := pages + [pg.table];
      if !pg.more { break; }
      cursor := pg.nextCursor;
      k := k + 1;
    }
  }

  // ---- the documented assumption --------------------------------------------------------------------------

  const TWO_PAIRS := [Event(1, 0), Event(1, 1), Event(2, 2), Event(2, 3)]

  lemma TwoPairsCount(t: int)
    ensures CountBelow(TWO_PAIRS, t) == (if 1 < t then 2 else 0) + (if 2 < t then 2 else 0)
  {
    var d := TWO_PAIRS;
    assert CountBelow(d[3..], t) == (if 2 < t then 1 else 0) by { assert d[3..][1..] == []; }
    assert CountBelow(d[2..], t) == (if 2 < t then 2 else 0) by { assert d[2..][1..] == d[3..]; }
    assert CountBelow(d[1..], t) == (if 1 < t then 1 else 0) + (if 2 < t then 2 else 0) by { assert d[1..][1..] == d[2..]; }
  }

  /** A page size above every run length is not enough: pages of 3 over the timestamps 1, 1, 2, 2 lose one event. */
  lemma DocumentedAssumptionFails()
    ensures forall t: int :: CountBelow(TWO_PAIRS, t + 1) - CountBelow(TWO_PAIRS, t) < 3
    ensures Straddle(TWO_PAIRS, 3)
  {
    forall t: int ensures CountBelow(TWO_PAIRS, t) == (if 1 < t then 2 else 0) + (if 2 < t then 2 else 0) {
      TwoPairsCount(t);
    }
    assert CountBelow(TWO_PAIRS, 2) < 1 * 3 < CountBelow(TWO_PAIRS, 2 + 1);
    assert Straddled(TWO_PAIRS, 3, 1);
  }
}
