/** The documentation's module discovery: API items grouped by namespace, and small namespaces merged into their
    parents, deepest first, over a snapshot of the namespace names. */
module Namespaces {
  /** A namespace below the root, part by part; the root is the empty path. */
  type Path = seq<string>

  /** A function carries its namespace; any other item is named by its qualified name below the root. */
  datatype Item = Item(id: nat, isFunction: bool, namespace: Path, parts: seq<string>)

  const MIN_MODULE_SIZE := 3

  // ---- the namespace of an item ---------------------------------------------------------------------

  predicate IsLower(c: char) { 'a' <= c <= 'z' }

  lemma LowerMeans(c: char)
    ensures IsLower(c) <==> c in "abcdefghijklmnopqrstuvwxyz"
  {
    var small := "abcdefghijklmnopqrstuvwxyz";
    assert forall k | 0 <= k < 26 :: small[k] as int == 97 + k;
    if IsLower(c) { assert c == small[c as int - 97]; }
  }

  function LeadingLower(parts: seq<string>): Path {
    if parts != [] && parts[0] != "" && IsLower(parts[0][0]) then [parts[0]] + LeadingLower(parts[1..]) else []
  }

  function NamespaceOf(item: Item): Path { if item.isFunction then item.namespace else LeadingLower(item.parts) }

  predicate StartsLower(part: string) { part != "" && IsLower(part[0]) }

  /** The namespace is the longest run of parts from the front that start with a lower-case letter. */
  lemma {:induction false} LongestLower(parts: seq<string>)
    ensures LeadingLower(parts) <= parts && forall i | 0 <= i < |LeadingLower(parts)| :: StartsLower(parts[i])
    ensures |LeadingLower(parts)| < |parts| ==> !StartsLower(parts[|LeadingLower(parts)|])
  {
    if parts != [] && StartsLower(parts[0]) {
      LongestLower(parts[1..]);
      assert parts == [parts[0]] + parts[1..];
    }
  }

  /** A function's namespace is its own; any other item's is the lower-case run its name starts with. */
  lemma NamespaceMeans(item: Item)
    ensures item.isFunction ==> NamespaceOf(item) == item.namespace
    ensures !item.isFunction ==>
              && NamespaceOf(item) <= item.parts && (forall i | 0 <= i < |NamespaceOf(item)| :: StartsLower(item.parts[i]))
              && (|NamespaceOf(item)| < |item.parts| ==> !StartsLower(item.parts[|NamespaceOf(item)|]))
  {
    LongestLower(item.parts);
  }

  method NamespaceParts(parts: seq<string>) returns (ns: Path)
    ensures ns == LeadingLower(parts)
    ensures ns <= parts && (forall i | 0 <= i < |ns| :: StartsLower(parts[i])) && (|ns| < |parts| ==> !StartsLower(parts[|ns|]))
  {
    LongestLower(parts);
    ns := [];
    for i := 0 to |parts|
      invariant ns + LeadingLower(parts[i..]) == LeadingLower(parts)
    {
      assert parts[i..][1..] == parts[i + 1..];
      if parts[i] != "" && IsLower(parts[i][0]) {
        ns := ns + [parts[i]];
      } else {
        break;
      }
    }
  }

  // ---- the snapshot order ---------------------------------------------------------------------------

  function Parent(k: Path): Path
    requires k != []
  { k[..|k| - 1] }

  /** How many separators the name has: the root and its children have none. */
  function Depth(k: Path): nat { if |k| == 0 then 0 else |k| - 1 }

  /** The snapshot keys by falling depth; keys of one depth in any order. */
  ghost predicate DeepestFirst(keys: set<Path>, order: seq<Path>) {
    && (forall i, j | 0 <= i < j < |order| :: order[i] != order[j] && Depth(order[i]) >= Depth(order[j]))
    && forall k :: k in keys <==> k in order
  }

  ghost predicate SortsKeys(sorted: set<Path> -> seq<Path>) { forall keys :: DeepestFirst(keys, sorted(keys)) }

  // ---- grouping ----------------------------------------------------------------------------------------

  function Get(ns: map<Path, seq<Item>>, k: Path): seq<Item> { if k in ns then ns[k] else [] }

  /** The items of one namespace, in order. */
  function Of(items: seq<Item>, k: Path): seq<Item> {
    if items == [] then []
    else Of(items[..|items| - 1], k) + if NamespaceOf(items[|items| - 1]) == k then [items[|items| - 1]] else []
  }

  ghost predicate Groups(ns: map<Path, seq<Item>>, items: seq<Item>) {
    && (forall k :: Get(ns, k) == Of(items, k)) && forall k | k in ns :: ns[k] != []
  }

  method Group(items: seq<Item>) returns (ns: map<Path, seq<Item>>)
    ensures Groups(ns, items)
  {
    ns := map[];
    for i := 0 to |items|
      invariant Groups(ns, items[..i])
    {
      assert items[..i + 1][..i] == items[..i];
      var k;
      if items[i].isFunction {
        k := items[i].namespace;
      } else {
        k := NamespaceParts(items[i].parts);
      }
      ns := ns[k := Get(ns, k) + [items[i]]];
    }
    assert items[..|items|] == items;
  }

  // ---- merging -------------------------------------------------------------------------------------------

  /** How many items a namespace has once the first `i` keys have been visited. */
  function Size(ns: map<Path, seq<Item>>, order: seq<Path>, i: nat, k: Path): nat
    requires i <= |order|
  {
    if i == 0 then |Get(ns, k)|
    else
      var c := order[i - 1];
      Size(ns, order, i - 1, k)
      + if c != [] && Parent(c) == k && Size(ns, order, i - 1, c) < MIN_MODULE_SIZE then Size(ns, order, i - 1, c) else 0
  }

  /** All items of the namespaces listed. */
  function Pool(ns: map<Path, seq<Item>>, ks: seq<Path>): multiset<Item> {
    if ks == [] then multiset{} else multiset(Get(ns, ks[0])) + Pool(ns, ks[1..])
  }

  lemma PoolFirst(ns: map<Path, seq<Item>>, k: Path, ks: seq<Path>)
    ensures Pool(ns, [k] + ks) == multiset(Get(ns, k)) + Pool(ns, ks)
  {
    assert ([k] + ks)[1..] == ks;
  }

  lemma {:induction false} PoolAppend(ns: map<Path, seq<Item>>, a: seq<Path>, b: seq<Path>)
    ensures Pool(ns, a + b) == Pool(ns, a) + Pool(ns, b)
    decreases |a|, 0
  {
    if a == [] {
      assert a + b == b;
    } else {
      PoolStep(ns, a[0], a[1..], b);
      assert a == [a[0]] + a[1..];
    }
  }

  lemma {:induction false} PoolStep(ns: map<Path, seq<Item>>, k: Path, ks: seq<Path>, b: seq<Path>)
    ensures Pool(ns, [k] + ks + b) == Pool(ns, [k] + ks) + Pool(ns, b)
    decreases |ks|, 1
  {
    hide Pool, Get;
    PoolFirst(ns, k, ks);
    PoolFirst(ns, k, ks + b);
    assert [k] + ks + b == [k] + (ks + b);
    PoolAppend(ns, ks, b);
  }

  ghost predicate NoRepeats(ks: seq<Path>) { forall i, j | 0 <= i < j < |ks| :: ks[i] != ks[j] }

  lemma {:induction false} PoolElsewhere(ns: map<Path, seq<Item>>, ks: seq<Path>, p: Path, xs: seq<Item>)
    requires p !in ks
    ensures Pool(ns[p := xs], ks) == Pool(ns, ks)
  {
    if ks != [] {
      assert ks == [ks[0]] + ks[1..];
      PoolElsewhere(ns, ks[1..], p, xs);
    }
  }

  lemma PoolAround(ns: map<Path, seq<Item>>, ks: seq<Path>, i: nat)
    requires i < |ks|
    ensures Pool(ns, ks) == Pool(ns, ks[..i]) + multiset(Get(ns, ks[i])) + Pool(ns, ks[i + 1..])
  {
    var tail := [ks[i]] + ks[i + 1..];
    assert ks == ks[..i] + tail;
    PoolAppend(ns, ks[..i], tail);
    assert tail[1..] == ks[i + 1..];
  }

  lemma {:induction false} PoolExtend(ns: map<Path, seq<Item>>, ks: seq<Path>, p: Path, xs: seq<Item>)
    requires NoRepeats(ks) && p in ks
    ensures Pool(ns[p := Get(ns, p) + xs], ks) == Pool(ns, ks) + multiset(xs)
  {
    hide Pool;
    var i :| 0 <= i < |ks| && ks[i] == p;
    var ns' := ns[p := Get(ns, p) + xs];
    PoolAround(ns, ks, i);
    PoolAround(ns', ks, i);
    PoolElsewhere(ns, ks[..i], p, ns'[p]);
    PoolElsewhere(ns, ks[i + 1..], p, ns'[p]);
  }

  /** The keys a small namespace can be merged into: still to be visited, or kept. */
  ghost predicate Visiting(order: seq<Path>, i: nat, kept: seq<Path>) {
    && i <= |order| && NoRepeats(order) && NoRepeats(kept + order[i..])
    && (forall k | k in kept :: k in order[..i]) && ([] in order[..i] ==> [] in kept)
  }

  lemma Kept(order: seq<Path>, i: nat, kept: seq<Path>)
    requires i < |order| && Visiting(order, i, kept)
    ensures Visiting(order, i + 1, kept + [order[i]])
    ensures order[i] != [] ==> Visiting(order, i + 1, kept)
    ensures order[i..] == [order[i]] + order[i + 1..]
  {
    assert order[..i + 1] == order[..i] + [order[i]];
    var all := kept + order[i..];
    assert kept + [order[i]] + order[i + 1..] == all;
    var less := kept + order[i + 1..];
    forall a, b | 0 <= a < b < |less| ensures less[a] != less[b] {
      var a', b' := if a < |kept| then a else a + 1, if b < |kept| then b else b + 1;
      assert less[a] == all[a'] && less[b] == all[b'];
    }
  }

  /** A parent in the snapshot is live when its child is visited: shallower keys come later, and the root stays. */
  lemma ParentLive(keys: set<Path>, order: seq<Path>, i: nat, kept: seq<Path>)
    requires DeepestFirst(keys, order) && i < |order| && Visiting(order, i, kept) && order[i] != []
    ensures Parent(order[i]) in kept + order[i + 1..] <==> Parent(order[i]) in keys
  {
    var p := Parent(order[i]);
    if p in keys {
      var j :| 0 <= j < |order| && order[j] == p;
      if p == [] && j < i { assert order[..i][j] == []; } else { assert order[i + 1..][j - i - 1] == p; }
    }
    if p in kept { assert p in order[..i]; }
  }

  /** A non-root key gets no more items once it has been visited. */
  lemma {:induction false} SizeSettles(keys: set<Path>, ns: map<Path, seq<Item>>, order: seq<Path>, at: nat, i: nat)
    requires DeepestFirst(keys, order) && at < |order| && order[at] != [] && at <= i <= |order|
    ensures Size(ns, order, i, order[at]) == Size(ns, order, at, order[at])
  {
    if at < i {
      SizeSettles(keys, ns, order, at, i - 1);
      assert at < i - 1 ==> Depth(order[at]) >= Depth(order[i - 1]);
    }
  }

  /** What the merge has done to the first `i` keys. */
  ghost predicate Merged(start: map<Path, seq<Item>>, keys: set<Path>, order: seq<Path>, i: nat,
                         ns: map<Path, seq<Item>>, kept: seq<Path>, lost: bool) {
    && Visiting(order, i, kept)
    && (forall k :: |Get(ns, k)| == Size(start, order, i, k))
    && Pool(ns, kept + order[i..]) <= Pool(start, order)
    && (Pool(ns, kept + order[i..]) == Pool(start, order) <==> !lost)
    && (lost <==> exists j :: 0 <= j < i && Orphaned(start, keys, order, j))
    && (forall k, x | x in Get(ns, k) :: k <= NamespaceOf(x))
    && (forall k | k in kept && k != [] :: |Get(ns, k)| >= MIN_MODULE_SIZE)
    && (forall k | k in order :: Get(ns, k) != [])
  }

  /** The j-th key is small at its turn and its parent is not a key. */
  ghost predicate Orphaned(start: map<Path, seq<Item>>, keys: set<Path>, order: seq<Path>, j: nat)
    requires j < |order|
  { order[j] != [] && Size(start, order, j, order[j]) < MIN_MODULE_SIZE && Parent(order[j]) !in keys }

  lemma KeepStep(start: map<Path, seq<Item>>, keys: set<Path>, order: seq<Path>, i: nat, ns: map<Path, seq<Item>>,
                 kept: seq<Path>, lost: bool)
    requires DeepestFirst(keys, order) && i < |order| && Merged(start, keys, order, i, ns, kept, lost)
    requires order[i] == [] || |Get(ns, order[i])| >= MIN_MODULE_SIZE
    ensures Merged(start, keys, order, i + 1, ns, kept + [order[i]], lost)
  {
    hide Pool, DeepestFirst;
    Kept(order, i, kept);
    assert kept + [order[i]] + order[i + 1..] == kept + order[i..];
    assert !Orphaned(start, keys, order, i);
  }

  lemma LivePool(ns: map<Path, seq<Item>>, order: seq<Path>, i: nat, kept: seq<Path>)
    requires i < |order|
    ensures Pool(ns, kept + order[i..]) == Pool(ns, kept + order[i + 1..]) + multiset(Get(ns, order[i]))
  {
    assert order[i..] == [order[i]] + order[i + 1..];
    PoolAppend(ns, kept, order[i..]);
    PoolAppend(ns, kept, order[i + 1..]);
  }

  /** Merging into a live parent moves the items; into a name outside the snapshot it drops them. */
  lemma MovePool(ns: map<Path, seq<Item>>, order: seq<Path>, i: nat, kept: seq<Path>)
    requires i < |order| && Visiting(order, i, kept) && order[i] != [] && Get(ns, order[i]) != []
    ensures var p := Parent(order[i]);
            var live := kept + order[i + 1..];
            var after := Pool(ns[p := Get(ns, p) + Get(ns, order[i])], live);
            if p in live then after == Pool(ns, kept + order[i..])
            else after + multiset(Get(ns, order[i])) == Pool(ns, kept + order[i..])
  {
    hide Pool;
    Kept(order, i, kept);
    LivePool(ns, order, i, kept);
    var p := Parent(order[i]);
    var live := kept + order[i + 1..];
    if p in live { PoolExtend(ns, live, p, Get(ns, order[i])); }
    else { PoolElsewhere(ns, live, p, Get(ns, p) + Get(ns, order[i])); }
  }

  lemma MergeSizes(start: map<Path, seq<Item>>, order: seq<Path>, i: nat, ns: map<Path, seq<Item>>, ns': map<Path, seq<Item>>)
    requires i < |order| && order[i] != [] && |Get(ns, order[i])| < MIN_MODULE_SIZE
    requires forall k :: |Get(ns, k)| == Size(start, order, i, k)
    requires forall q :: |Get(ns', q)| == |Get(ns, q)| + if q == Parent(order[i]) then |Get(ns, order[i])| else 0
    ensures forall k :: |Get(ns', k)| == Size(start, order, i + 1, k)
  {
    hide Get;
  }

  lemma MergeStep(start: map<Path, seq<Item>>, keys: set<Path>, order: seq<Path>, i: nat, ns: map<Path, seq<Item>>,
                  kept: seq<Path>, lost: bool, ns': map<Path, seq<Item>>)
    requires DeepestFirst(keys, order) && i < |order| && Merged(start, keys, order, i, ns, kept, lost)
    requires order[i] != [] && |Get(ns, order[i])| < MIN_MODULE_SIZE
    requires ns' == ns[Parent(order[i]) := Get(ns, Parent(order[i])) + Get(ns, order[i])]
    ensures Merged(start, keys, order, i + 1, ns', kept, lost || Parent(order[i]) !in keys)
  {
    hide Pool, DeepestFirst, Visiting, NoRepeats, NamespaceOf, Size;
    var k := order[i];
    var p := Parent(k);
    Kept(order, i, kept);
    ParentLive(keys, order, i, kept);
    MovePool(ns, order, i, kept);
    assert Orphaned(start, keys, order, i) <==> p !in keys;
    MergedItems(ns, k, ns');
    MergeSizes(start, order, i, ns, ns');
    if p !in keys {
      assert |multiset(Get(ns, k))| > 0;
      assert Get(ns, k)[0] in multiset(Get(ns, k));
      Dropped(Pool(ns', kept + order[i + 1..]), multiset(Get(ns, k)), Pool(ns, kept + order[i..]), Pool(start, order));
    }
  }

  lemma Dropped(after: multiset<Item>, dropped: multiset<Item>, before: multiset<Item>, all: multiset<Item>)
    requires after + dropped == before && before <= all && exists x :: x in dropped
    ensures after <= all && after != all
  {
    var x :| x in dropped;
    assert after[x] < before[x] <= all[x];
  }

  lemma MergedItems(ns: map<Path, seq<Item>>, k: Path, ns': map<Path, seq<Item>>)
    requires k != [] && ns' == ns[Parent(k) := Get(ns, Parent(k)) + Get(ns, k)]
    requires forall q, x | x in Get(ns, q) :: q <= NamespaceOf(x)
    ensures forall q, x | x in Get(ns', q) :: q <= NamespaceOf(x)
    ensures forall q | Get(ns, q) != [] :: Get(ns', q) != []
    ensures forall q :: |Get(ns', q)| == |Get(ns, q)| + if q == Parent(k) then |Get(ns, k)| else 0
  {
    hide NamespaceOf;
    var p := Parent(k);
    forall q, x | x in Get(ns', q) ensures q <= NamespaceOf(x) {
      if x in Get(ns, q) {
        assert q <= NamespaceOf(x);
      } else {
        assert q == p && x in Get(ns, k);
        ParentIsPrefix(k, NamespaceOf(x));
      }
    }
  }

  lemma ParentIsPrefix(k: Path, n: Path)
    requires k != [] && k <= n
    ensures Parent(k) <= n
  {
    assert k == n[..|k|];
    assert Parent(k) == n[..|k| - 1];
  }

  // ---- how big a namespace grows ------------------------------------------------------------------------

  /** The namespaces strictly below one. */
  function Below(ns: map<Path, seq<Item>>, k: Path): set<Path> { set c | c in ns.Keys && k < c }

  function Children(ns: map<Path, seq<Item>>, k: Path): set<Path> { set c | c in ns.Keys && c != [] && Parent(c) == k }

  lemma ChildBelow(ns: map<Path, seq<Item>>, k: Path, c: Path)
    requires c in Children(ns, k)
    ensures Below(ns, c) < Below(ns, k)
  {
    assert k < c && c in Below(ns, k) && c !in Below(ns, c);
    forall d | d in Below(ns, c) ensures d in Below(ns, k) {
      assert c == d[..|c|];
      assert k == d[..|k|];
    }
  }

  /** A namespace's own items and those of its children that stay small. */
  ghost function Grown(ns: map<Path, seq<Item>>, k: Path): nat
    decreases Below(ns, k), 1
  { |Get(ns, k)| + Absorbed(ns, k, Children(ns, k)) }

  ghost function Absorbed(ns: map<Path, seq<Item>>, k: Path, cs: set<Path>): nat
    requires cs <= Children(ns, k)
    decreases Below(ns, k), 0, cs
  {
    if cs == {} then 0
    else
      var c :| c in cs;
      ChildBelow(ns, k, c);
      Given(ns, c) + Absorbed(ns, k, cs - {c})
  }

  /** What a namespace gives its parent. */
  ghost function Given(ns: map<Path, seq<Item>>, c: Path): nat
    decreases Below(ns, c), 2
  { if Grown(ns, c) < MIN_MODULE_SIZE then Grown(ns, c) else 0 }

  lemma {:induction false} AbsorbedTakes(ns: map<Path, seq<Item>>, k: Path, cs: set<Path>, c: Path)
    requires cs <= Children(ns, k) && c in cs
    ensures Absorbed(ns, k, cs) == Given(ns, c) + Absorbed(ns, k, cs - {c})
    decreases cs
  {
    hide Given;
    var d :| d in cs && Absorbed(ns, k, cs) == Given(ns, d) + Absorbed(ns, k, cs - {d});
    if d != c {
      AbsorbedTakes(ns, k, cs - {d}, c);
      AbsorbedTakes(ns, k, cs - {c}, d);
      assert cs - {d} - {c} == cs - {c} - {d};
    }
  }

  function Visited(ns: map<Path, seq<Item>>, order: seq<Path>, i: nat, k: Path): set<Path>
    requires i <= |order|
  { set c | c in Children(ns, k) && c in order[..i] }

  /** Children are visited before their parent, which then has all it will be given. */
  lemma ChildrenFirst(ns: map<Path, seq<Item>>, order: seq<Path>, i: nat)
    requires DeepestFirst(ns.Keys, order) && i < |order| && order[i] != []
    ensures Visited(ns, order, i, order[i]) == Children(ns, order[i])
  {
    forall c | c in Children(ns, order[i]) ensures c in order[..i] {
      var j :| 0 <= j < |order| && order[j] == c;
      assert Depth(c) > Depth(order[i]);
      assert order[..i][j] == c;
    }
  }

  /** At every point of the visit a namespace holds its own items and what the children visited have given. */
  lemma {:induction false} SizeIs(ns: map<Path, seq<Item>>, order: seq<Path>, i: nat, k: Path)
    requires DeepestFirst(ns.Keys, order) && i <= |order|
    ensures Size(ns, order, i, k) == |Get(ns, k)| + Absorbed(ns, k, Visited(ns, order, i, k))
    decreases i
  {
    hide DeepestFirst, Given, Absorbed;
    if i == 0 {
      assert Visited(ns, order, 0, k) == {};
      NoneAbsorbed(ns, k);
    } else {
      var c := order[i - 1];
      SizeIs(ns, order, i - 1, k);
      VisitedNext(ns, order, i - 1, k);
      if c != [] && Parent(c) == k {
        SizeIs(ns, order, i - 1, c);
        ChildrenFirst(ns, order, i - 1);
        AbsorbedTakes(ns, k, Visited(ns, order, i, k), c);
        GivenIs(ns, c);
        assert Visited(ns, order, i, k) - {c} == Visited(ns, order, i - 1, k);
      }
    }
  }

  lemma NoneAbsorbed(ns: map<Path, seq<Item>>, k: Path)
    ensures Absorbed(ns, k, {}) == 0
  {
  }

  lemma GivenIs(ns: map<Path, seq<Item>>, c: Path)
    ensures var n := |Get(ns, c)| + Absorbed(ns, c, Children(ns, c)); Given(ns, c) == if n < MIN_MODULE_SIZE then n else 0
  {
  }

  lemma VisitedNext(ns: map<Path, seq<Item>>, order: seq<Path>, i: nat, k: Path)
    requires DeepestFirst(ns.Keys, order) && i < |order|
    ensures order[i] != [] && Parent(order[i]) == k ==>
              Visited(ns, order, i + 1, k) == Visited(ns, order, i, k) + {order[i]} && order[i] !in Visited(ns, order, i, k)
    ensures !(order[i] != [] && Parent(order[i]) == k) ==> Visited(ns, order, i + 1, k) == Visited(ns, order, i, k)
  {
    assert order[..i + 1] == order[..i] + [order[i]];
    assert order[i] in ns.Keys;
    assert order[i] !in order[..i];
  }

  /** The order of the visit does not matter: a namespace ends with what it grows to. */
  lemma SizeGrown(ns: map<Path, seq<Item>>, order: seq<Path>, k: Path)
    requires DeepestFirst(ns.Keys, order)
    ensures Size(ns, order, |order|, k) == Grown(ns, k)
  {
    SizeIs(ns, order, |order|, k);
    assert order[..|order|] == order;
    assert Visited(ns, order, |order|, k) == Children(ns, k);
  }

  /** Every non-root namespace that stays small has its parent among the names. */
  ghost predicate ParentsPresent(start: map<Path, seq<Item>>) {
    forall k | k in start.Keys && k != [] && Grown(start, k) < MIN_MODULE_SIZE :: Parent(k) in start.Keys
  }

  ghost predicate ParentClosed(keys: set<Path>) { forall k | k in keys && k != [] :: Parent(k) in keys }

  lemma OrphansAreParentless(start: map<Path, seq<Item>>, order: seq<Path>)
    requires DeepestFirst(start.Keys, order)
    ensures ParentsPresent(start) <==> forall j | 0 <= j < |order| :: !Orphaned(start, start.Keys, order, j)
  {
    hide Size, Grown;
    forall j | 0 <= j < |order|
      ensures Orphaned(start, start.Keys, order, j) <==>
                order[j] != [] && Grown(start, order[j]) < MIN_MODULE_SIZE && Parent(order[j]) !in start.Keys
    {
      SizeGrown(start, order, order[j]);
      if order[j] != [] { SizeSettles(start.Keys, start, order, j, |order|); }
    }
    if ParentsPresent(start) {
      forall j | 0 <= j < |order| ensures !Orphaned(start, start.Keys, order, j) { assert order[j] in order; }
    }
  }

  // ---- the whole of `discover_modules` ------------------------------------------------------------------

  lemma {:induction false} PoolOf(ns: map<Path, seq<Item>>, ks: seq<Path>, items: seq<Item>, x: Item)
    requires Groups(ns, items) && NoRepeats(ks)
    ensures Pool(ns, ks)[x] == if NamespaceOf(x) in ks then multiset(items)[x] else 0
  {
    if ks != [] {
      PoolOf(ns, ks[1..], items, x);
      OfCount(items, ks[0], x);
      assert NamespaceOf(x) in ks <==> NamespaceOf(x) == ks[0] || NamespaceOf(x) in ks[1..];
      assert ks[0] !in ks[1..];
    }
  }

  lemma {:induction false} OfCount(items: seq<Item>, k: Path, x: Item)
    ensures multiset(Of(items, k))[x] == if NamespaceOf(x) == k then multiset(items)[x] else 0
  {
    if items != [] {
      OfCount(items[..|items| - 1], k, x);
      assert items == items[..|items| - 1] + [items[|items| - 1]];
    }
  }

  /** At the start every item is in the pool. */
  lemma StartPool(ns: map<Path, seq<Item>>, keys: set<Path>, order: seq<Path>, items: seq<Item>)
    requires Groups(ns, items) && keys == ns.Keys && DeepestFirst(keys, order)
    ensures Pool(ns, order) == multiset(items)
  {
    hide Pool, Of, NamespaceOf;
    assert NoRepeats(order);
    forall x ensures Pool(ns, order)[x] == multiset(items)[x] {
      PoolOf(ns, order, items, x);
      OfCount(items, NamespaceOf(x), x);
      if x in multiset(items) { assert x in multiset(Of(items, NamespaceOf(x))); }
    }
  }

  lemma DistinctOrder(keys: set<Path>, order: seq<Path>)
    requires DeepestFirst(keys, order)
    ensures NoRepeats(order) && forall k :: k in keys <==> k in order
  {
  }

  lemma {:induction false} StartMerged(ns: map<Path, seq<Item>>, keys: set<Path>, order: seq<Path>, items: seq<Item>)
    requires Groups(ns, items) && keys == ns.Keys && DeepestFirst(keys, order)
    ensures Merged(ns, keys, order, 0, ns, [], false)
  {
    hide Pool, Of, NamespaceOf, DeepestFirst, Orphaned;
    DistinctOrder(keys, order);
    assert [] + order[0..] == order;
    forall k, x | x in Get(ns, k) ensures k <= NamespaceOf(x) {
      OfCount(items, k, x);
      assert x in multiset(Of(items, k));
    }
  }

  /** Every item of the modules, module after module. */
  function AllItems(final: map<Path, seq<Item>>, modules: seq<Path>): multiset<Item> { Pool(final, modules) }

  lemma {:induction false} SamePool(a: map<Path, seq<Item>>, b: map<Path, seq<Item>>, ks: seq<Path>)
    requires forall k | k in ks :: Get(a, k) == Get(b, k)
    ensures Pool(a, ks) == Pool(b, ks)
  {
    if ks != [] { SamePool(a, b, ks[1..]); }
  }

  /** The keys kept so far are the root and those that were big enough at their turn. */
  ghost predicate KeptBig(start: map<Path, seq<Item>>, order: seq<Path>, i: nat, kept: seq<Path>) {
    i <= |order| && forall j | 0 <= j < i ::
      order[j] in kept <==> order[j] == [] || Size(start, order, j, order[j]) >= MIN_MODULE_SIZE
  }

  lemma KeptBigNext(start: map<Path, seq<Item>>, order: seq<Path>, i: nat, kept: seq<Path>, keep: bool)
    requires KeptBig(start, order, i, kept) && i < |order| && Visiting(order, i, kept)
    requires keep <==> order[i] == [] || Size(start, order, i, order[i]) >= MIN_MODULE_SIZE
    ensures KeptBig(start, order, i + 1, if keep then kept + [order[i]] else kept)
  {
    hide Size;
    assert (kept + order[i..])[|kept|] == order[i];
  }

  /** Every namespace still begins with its own items, in their order. */
  ghost predicate OwnFirst(start: map<Path, seq<Item>>, ns: map<Path, seq<Item>>) { forall k :: Get(start, k) <= Get(ns, k) }

  lemma SizeNow(start: map<Path, seq<Item>>, keys: set<Path>, order: seq<Path>, i: nat, ns: map<Path, seq<Item>>, kept: seq<Path>,
                lost: bool)
    requires i < |order| && Merged(start, keys, order, i, ns, kept, lost)
    ensures Visiting(order, i, kept) && |Get(ns, order[i])| == Size(start, order, i, order[i])
  {
    hide Pool, Size, Visiting;
  }

  /** At the end they are the root and the names that have grown big enough, and hold what they have grown to. */
  lemma KeptGrown(start: map<Path, seq<Item>>, order: seq<Path>, ns: map<Path, seq<Item>>, kept: seq<Path>, lost: bool)
    requires DeepestFirst(start.Keys, order) && KeptBig(start, order, |order|, kept)
    requires Merged(start, start.Keys, order, |order|, ns, kept, lost)
    ensures forall k :: k in kept <==> k in start && (k == [] || Grown(start, k) >= MIN_MODULE_SIZE)
    ensures forall k | k in kept :: |Get(ns, k)| == Grown(start, k)
  {
    hide Pool, Size, Grown;
    forall k ensures k in kept <==> k in start && (k == [] || Grown(start, k) >= MIN_MODULE_SIZE) {
      assert order[..|order|] == order;
      if k in order {
        var j :| 0 <= j < |order| && order[j] == k;
        SizeGrown(start, order, k);
        if k != [] { SizeSettles(start.Keys, start, order, j, |order|); }
      }
    }
    forall k | k in kept ensures |Get(ns, k)| == Grown(start, k) { SizeGrown(start, order, k); }
  }

  /** Modules from items. Each module holds items of its own namespace or ones below it, as many as the namespace grows
      to, its own first and in order; the modules are the root and the namespaces that grow to three items or more; no item is listed twice; and every
      item is listed if and only if every namespace that stays small has its parent among the names, as it has when the
      names are closed under parents. */
  method DiscoverModules(items: seq<Item>, sorted: set<Path> -> seq<Path>)
    returns (final: map<Path, seq<Item>>, modules: seq<Path>, ghost start: map<Path, seq<Item>>)
    requires SortsKeys(sorted)
    ensures Groups(start, items)
    ensures NoRepeats(modules) && forall k :: k in final <==> k in modules
    ensures forall k, x | k in final && x in final[k] :: k <= NamespaceOf(x)
    ensures forall k :: k in final <==> k in start && (k == [] || Grown(start, k) >= 3)
    ensures forall k | k in final :: |final[k]| == Grown(start, k) > 0 && Of(items, k) <= final[k]
    ensures AllItems(final, modules) <= multiset(items)
    ensures AllItems(final, modules) == multiset(items) <==> ParentsPresent(start)
    ensures ParentClosed(start.Keys) ==> AllItems(final, modules) == multiset(items)
  {
    hide Merged, Groups, DeepestFirst, NoRepeats, Pool, Grown, Size;
    var ns := Group(items);
    var visits := sorted(ns.Keys);
    start := ns;
    ghost var order := visits;
    ghost var keys := ns.Keys;
    assert DeepestFirst(keys, order);
    StartPool(start, keys, order, items);
    StartMerged(start, keys, order, items);
    modules := [];
    ghost var lost := false;
    for i := 0 to |visits|
      invariant Merged(start, keys, order, i, ns, modules, lost) && KeptBig(start, order, i, modules) && OwnFirst(start, ns)
    {
      var k := visits[i];
      SizeNow(start, keys, order, i, ns, modules, lost);
      KeptBigNext(start, order, i, modules, k == [] || |Get(ns, k)| >= MIN_MODULE_SIZE);
      if |Get(ns, k)| < MIN_MODULE_SIZE && k != [] {
        var p := Parent(k);
        ghost var before := ns;
        ns := ns[p := Get(ns, p) + Get(ns, k)];
        MergeStep(start, keys, order, i, before, modules, lost, ns);
        lost := lost || p !in keys;
      } else {
        KeepStep(start, keys, order, i, ns, modules, lost);
        modules := modules + [k];
      }
    }
    FinishedMerge(start, keys, order, ns, modules, lost, items);
    KeptGrown(start, order, ns, modules, lost);
    GroupsAre(start, items);
    final := Rebuilt(ns, modules);
    SamePool(final, ns, modules);
  }

  lemma GroupsAre(ns: map<Path, seq<Item>>, items: seq<Item>)
    requires Groups(ns, items)
    ensures forall k :: Get(ns, k) == Of(items, k)
  {
  }

  /** The kept namespaces with what they hold now, empty ones left out. */
  method Rebuilt(ns: map<Path, seq<Item>>, kept: seq<Path>) returns (final: map<Path, seq<Item>>)
    ensures forall k :: k in final <==> k in kept && Get(ns, k) != []
    ensures forall k | k in final :: final[k] == Get(ns, k)
  {
    final := map[];
    for i := 0 to |kept|
      invariant forall k :: k in final <==> k in kept[..i] && Get(ns, k) != []
      invariant forall k | k in final :: final[k] == Get(ns, k)
    {
      assert kept[..i + 1] == kept[..i] + [kept[i]];
      if Get(ns, kept[i]) != [] {
        final := final[kept[i] := Get(ns, kept[i])];
      }
    }
    assert kept[..|kept|] == kept;
  }

  lemma {:induction false} FinishedMerge(start: map<Path, seq<Item>>, keys: set<Path>, order: seq<Path>, ns: map<Path, seq<Item>>,
                      kept: seq<Path>, lost: bool, items: seq<Item>)
    requires keys == start.Keys && DeepestFirst(keys, order) && Merged(start, keys, order, |order|, ns, kept, lost)
    requires Pool(start, order) == multiset(items)
    ensures NoRepeats(kept) && (forall k | k in kept :: Get(ns, k) != []) && Pool(ns, kept) <= multiset(items)
    ensures forall k, x | x in Get(ns, k) :: k <= NamespaceOf(x)
    ensures forall k | k in kept && k != [] :: |Get(ns, k)| >= MIN_MODULE_SIZE
    ensures Pool(ns, kept) == multiset(items) <==> ParentsPresent(start)
  {
    hide Pool, Size, ParentsPresent;
    assert kept + order[|order|..] == kept;
    OrphansAreParentless(start, order);
    forall k | k in kept ensures Get(ns, k) != [] { assert k in order[..|order|]; }
  }
}
