/** How the distributed reader and indexer hand out work: shard ranges per worker, the round-robin member scan and
    its stitching, and the round-robin build units clamped to each file's members. */
module Distribution {
  // ---- shard ranges ---------------------------------------------------------------------------------

  datatype Range = Range(begin: nat, end: nat)

  /** Nonempty ranges end to end from `a` to `b`. */
  predicate Tiles(rs: seq<Range>, a: nat, b: nat) {
    if rs == [] then a == b
    else rs[0].begin == a < rs[0].end && Tiles(rs[1..], rs[0].end, b)
  }

  lemma {:induction false} TilesSnoc(rs: seq<Range>, a: nat, b: nat, c: nat)
    requires Tiles(rs, a, b) && b < c
    ensures Tiles(rs + [Range(b, c)], a, c)
  {
    if rs == [] {
      assert [Range(b, c)][1..] == [];
    } else {
      TilesSnoc(rs[1..], rs[0].end, b, c);
      assert (rs + [Range(b, c)])[1..] == rs[1..] + [Range(b, c)];
    }
  }

  function Holding(rs: seq<Range>, x: nat): nat {
    if rs == [] then 0 else (if rs[0].begin <= x < rs[0].end then 1 else 0) + Holding(rs[1..], x)
  }

  /** Tiling ranges hold every shard between their ends exactly once, and no other. */
  lemma {:induction false} TilesOnce(rs: seq<Range>, a: nat, b: nat, x: nat)
    requires Tiles(rs, a, b)
    ensures a <= b && Holding(rs, x) == if a <= x < b then 1 else 0
  {
    if rs != [] { TilesOnce(rs[1..], rs[0].end, b, x); }
  }

  function Min(a: int, b: int): int { if a < b then a else b }

  lemma SpanReaches(shards: nat, n: nat, span: nat)
    requires n > 0 && span == (shards + n - 1) / n
    ensures shards <= n * span
  {
    assert (shards + n - 1) == n * span + (shards + n - 1) % n;
  }

  lemma Succ(i: nat, span: nat)
    ensures (i + 1) * span == i * span + span
  {
  }

  /** No range is longer than the shards over the workers rounded up, and only the last may be shorter than the first. */
  predicate Even(ranges: seq<Range>, shards: nat, workers: nat) {
    && (forall k | 0 <= k < |ranges| :: ranges[k].begin < ranges[k].end && (ranges[k].end - ranges[k].begin - 1) * workers < shards)
    && (forall k | 0 <= k < |ranges| - 1 :: ranges[k].end - ranges[k].begin == ranges[0].end - ranges[0].begin)
  }

  lemma SpanLeast(shards: nat, n: nat, span: nat, len: nat)
    requires n > 0 && span == (shards + n - 1) / n && 0 < len <= span
    ensures (len - 1) * n < shards
  {
    assert (len - 1) * n <= (span - 1) * n;
    assert span * n <= shards + n - 1 by { assert (shards + n - 1) == n * span + (shards + n - 1) % n; }
    assert (span - 1) * n == span * n - n;
  }

  /** Worker `k`'s range. */
  function Piece(shards: nat, span: nat, k: nat): Range { Range(Min(shards, k * span), Min(shards, (k + 1) * span)) }

  lemma PiecesEven(ranges: seq<Range>, shards: nat, n: nat, span: nat)
    requires n > 0 && span == (shards + n - 1) / n
    requires forall k | 0 <= k < |ranges| :: ranges[k] == Piece(shards, span, k) && ranges[k].begin < ranges[k].end
    ensures Even(ranges, shards, n)
  {
    forall k | 0 <= k < |ranges|
      ensures (ranges[k].end - ranges[k].begin - 1) * n < shards
      ensures k < |ranges| - 1 ==> ranges[k].end - ranges[k].begin == span
    {
      Succ(k, span);
      SpanLeast(shards, n, span, ranges[k].end - ranges[k].begin);
      if k < |ranges| - 1 { assert ranges[k + 1] == Piece(shards, span, k + 1); }
    }
  }

  /** The shard ranges submitted for `workers` workers: each clipped to the shards there are, empty ones skipped. */
  method ShardRanges(shards: nat, workers: nat) returns (ranges: seq<Range>)
    ensures Tiles(ranges, 0, shards) && |ranges| <= (if workers > 0 then workers else 1)
    ensures forall x: nat :: Holding(ranges, x) == if x < shards then 1 else 0
    ensures Even(ranges, shards, if workers > 0 then workers else 1)
  {
    hide Tiles, Even, Holding;
    var n := if workers > 1 then workers else 1;
    var span := (shards + n - 1) / n;
    ranges := [];
    assert Min(shards, 0 * span) == 0;
    NoTiles();
    for i := 0 to n
      invariant Tiles(ranges, 0, Min(shards, i * span)) && |ranges| <= i && (|ranges| == i || shards <= i * span)
      invariant forall k | 0 <= k < |ranges| :: ranges[k] == Piece(shards, span, k) && ranges[k].begin < ranges[k].end
    {
      Succ(i, span);
      var begin, end := Min(shards, i * span), Min(shards, (i + 1) * span);
      if begin < end {
        TilesSnoc(ranges, 0, begin, end);
        ranges := ranges + [Range(begin, end)];
      }
    }
    SpanReaches(shards, n, span);
    PiecesEven(ranges, shards, n, span);
    forall x: nat ensures Holding(ranges, x) == if x < shards then 1 else 0 { TilesOnce(ranges, 0, shards, x); }
  }

  lemma NoTiles()
    ensures Tiles([], 0, 0)
  {
  }

  // ---- scanning members ------------------------------------------------------------------------------

  datatype Member = Member(offset: nat, size: nat)

  /** One worker's scan of its files, in their order. */
  function ScanTask(scan: string -> seq<Member>, paths: seq<string>): (r: seq<seq<Member>>)
    ensures |r| == |paths|
  { seq(|paths|, i requires 0 <= i < |paths| => scan(paths[i])) }

  /** The indices dealt to each worker: ascending, each index in the bucket of its remainder. */
  ghost predicate Dealt(buckets: seq<seq<nat>>, count: nat, n: nat) {
    && n > 0 && |buckets| == n
    && (forall w, k | 0 <= w < n && 0 <= k < |buckets[w]| :: buckets[w][k] < count && buckets[w][k] % n == w)
    && (forall i | 0 <= i < count :: i in buckets[i % n])
  }

  method Deal(count: nat, n: nat) returns (buckets: seq<seq<nat>>)
    requires n > 0
    ensures Dealt(buckets, count, n)
  {
    buckets := seq(n, _ => []);
    for i := 0 to count
      invariant Dealt(buckets, i, n)
    {
      var w := i % n;
      buckets := buckets[w := buckets[w] + [i]];
    }
  }

  /** The member map of every file, scanned by `n` workers and stitched back by file index: what one scan of all
      files in order gives. */
  method ScanMembers(scan: string -> seq<Member>, paths: seq<string>, n: nat) returns (memberMap: seq<seq<Member>>)
    requires n > 0
    ensures memberMap == ScanTask(scan, paths)
  {
    memberMap := seq(|paths|, _ => []);
    var buckets := Deal(|paths|, n);
    var idxLists: seq<seq<nat>> := [];
    var results: seq<seq<seq<Member>>> := [];
    for w := 0 to n
      invariant |idxLists| == |results|
      invariant forall f | 0 <= f < |idxLists| :: Scanned(scan, paths, idxLists[f], results[f])
      invariant forall v | 0 <= v < w && buckets[v] != [] :: buckets[v] in idxLists
    {
      if buckets[w] != [] {
        var idxs := buckets[w];
        var subPaths := seq(|idxs|, k requires 0 <= k < |idxs| => paths[idxs[k]]);
        idxLists := idxLists + [idxs];
        results := results + [ScanTask(scan, subPaths)];
      }
    }
    for f := 0 to |idxLists|
      invariant |memberMap| == |paths|
      invariant forall g, k | 0 <= g < f && 0 <= k < |idxLists[g]| :: Stitched(scan, paths, memberMap, idxLists[g][k])
    {
      var idxs, res := idxLists[f], results[f];
      assert Scanned(scan, paths, idxs, res);
      for k := 0 to |idxs|
        invariant |memberMap| == |paths|
        invariant forall g, j | 0 <= g < f && 0 <= j < |idxLists[g]| :: Stitched(scan, paths, memberMap, idxLists[g][j])
        invariant forall j | 0 <= j < k :: Stitched(scan, paths, memberMap, idxs[j])
      {
        memberMap := memberMap[idxs[k] := res[k]];
      }
    }
    forall i | 0 <= i < |paths| ensures memberMap[i] == scan(paths[i]) {
      var bucket := buckets[i % n];
      assert i in bucket && bucket in idxLists;
      var g :| 0 <= g < |idxLists| && idxLists[g] == bucket;
      var k :| 0 <= k < |bucket| && bucket[k] == i;
      assert Stitched(scan, paths, memberMap, idxLists[g][k]);
    }
  }

  ghost predicate Scanned(scan: string -> seq<Member>, paths: seq<string>, idxs: seq<nat>, res: seq<seq<Member>>) {
    |res| == |idxs| && forall k | 0 <= k < |idxs| :: idxs[k] < |paths| && res[k] == scan(paths[idxs[k]])
  }

  ghost predicate Stitched(scan: string -> seq<Member>, paths: seq<string>, memberMap: seq<seq<Member>>, i: nat) {
    i < |paths| == |memberMap| && memberMap[i] == scan(paths[i])
  }

  // ---- build units --------------------------------------------------------------------------------------

  datatype Unit = Unit(file: nat, begin: nat, end: nat)
  datatype Slice = Slice(file: nat, begin: nat, end: nat, continued: bool, members: seq<Member>)

  function MaxOne(n: nat): nat { if n > 1 then n else 1 }

  /** Every file is one unit, its whole member range, with the worker of its remainder. */
  ghost predicate WholeFiles(units: seq<seq<Unit>>, memberMap: seq<seq<Member>>, count: nat, n: nat) {
    && n > 0 && |units| == n && count <= |memberMap|
    && (forall w, k | 0 <= w < n && 0 <= k < |units[w]| ::
          units[w][k].file < count && units[w][k].file % n == w && units[w][k] == WholeUnit(memberMap, units[w][k].file))
    && (forall w, j, k | 0 <= w < n && 0 <= j < k < |units[w]| :: units[w][j].file < units[w][k].file)
    && (forall i | 0 <= i < count :: WholeUnit(memberMap, i) in units[i % n])
  }

  function WholeUnit(memberMap: seq<seq<Member>>, i: nat): Unit
    requires i < |memberMap|
  { Unit(i, 0, MaxOne(|memberMap[i]|)) }

  method RoundRobin(memberMap: seq<seq<Member>>, n: nat) returns (units: seq<seq<Unit>>)
    requires n > 0
    ensures WholeFiles(units, memberMap, |memberMap|, n)
  {
    units := seq(n, _ => []);
    for i := 0 to |memberMap|
      invariant WholeFiles(units, memberMap, i, n)
    {
      var w := i % n;
      units := units[w := units[w] + [Unit(i, 0, MaxOne(|memberMap[i]|))]];
    }
  }

  /** A file's members as the build sees them: a file without any counts as one whole member. */
  function Members(memberMap: seq<seq<Member>>, i: nat): (r: seq<Member>)
    requires i < |memberMap|
    ensures |r| == MaxOne(|memberMap[i]|)
  { if memberMap[i] == [] then [Member(0, 0)] else memberMap[i] }

  /** A unit clamped into its file's members. */
  function Clamped(u: Unit, memberMap: seq<seq<Member>>): Slice
    requires u.file < |memberMap|
  {
    var members := Members(memberMap, u.file);
    var end := if u.end > |members| then |members| else u.end;
    var begin := if u.begin > end then end else u.begin;
    Slice(u.file, begin, end, begin != 0, members)
  }

  /** A clamped slice holds exactly those of the file's members that the unit names, and says whether it starts late. */
  lemma ClampMeans(u: Unit, memberMap: seq<seq<Member>>, m: nat)
    requires u.file < |memberMap|
    ensures var s := Clamped(u, memberMap);
            && s.file == u.file && s.begin <= s.end <= |s.members| && (s.continued <==> s.begin > 0)
            && s.members == (if memberMap[u.file] == [] then [Member(0, 0)] else memberMap[u.file])
            && (s.begin <= m < s.end <==> u.begin <= m < u.end && m < |s.members|)
  {
  }

  method BuildSlices(units: seq<seq<Unit>>, memberMap: seq<seq<Member>>) returns (slices: seq<seq<Slice>>)
    requires forall w, k | 0 <= w < |units| && 0 <= k < |units[w]| :: units[w][k].file < |memberMap|
    ensures |slices| == |units|
    ensures forall w | 0 <= w < |units| ::
              |slices[w]| == |units[w]| && forall k | 0 <= k < |units[w]| :: slices[w][k] == Clamped(units[w][k], memberMap)
  {
    slices := [];
    for w := 0 to |units|
      invariant |slices| == w
      invariant forall v | 0 <= v < w ::
                  |slices[v]| == |units[v]| && forall k | 0 <= k < |units[v]| :: slices[v][k] == Clamped(units[v][k], memberMap)
    {
      var out: seq<Slice> := [];
      for k := 0 to |units[w]|
        invariant |out| == k && forall j | 0 <= j < k :: out[j] == Clamped(units[w][j], memberMap)
      {
        var u := units[w][k];
        var members := Members(memberMap, u.file);
        var end := u.end;
        if end > |members| { end := |members|; }
        var begin := u.begin;
        if begin > end { begin := end; }
        out := out + [Slice(u.file, begin, end, begin != 0, members)];
      }
      slices := slices + [out];
    }
  }

  /** How often a member of a file is built. */
  function Builds(list: seq<Slice>, file: nat, m: nat): nat {
    if list == [] then 0
    else (if list[0].file == file && list[0].begin <= m < list[0].end then 1 else 0) + Builds(list[1..], file, m)
  }

  function AllBuilds(lists: seq<seq<Slice>>, file: nat, m: nat): nat {
    if lists == [] then 0 else Builds(lists[0], file, m) + AllBuilds(lists[1..], file, m)
  }

  lemma {:induction false} NoBuilds(list: seq<Slice>, file: nat, m: nat)
    requires forall k | 0 <= k < |list| :: list[k].file != file
    ensures Builds(list, file, m) == 0
  {
    if list != [] { NoBuilds(list[1..], file, m); }
  }

  lemma {:induction false} OneBuild(list: seq<Slice>, file: nat, m: nat, k: nat)
    requires k < |list| && list[k].file == file && list[k].begin <= m < list[k].end
    requires forall i, j | 0 <= i < j < |list| :: list[i].file != list[j].file
    ensures Builds(list, file, m) == 1
  {
    if k == 0 {
      forall j | 0 <= j < |list| - 1 ensures list[1..][j].file != file { assert list[0].file != list[j + 1].file; }
      NoBuilds(list[1..], file, m);
    } else {
      assert list[0].file != list[k].file;
      OneBuild(list[1..], file, m, k - 1);
    }
  }

  lemma {:induction false} OneWorker(lists: seq<seq<Slice>>, file: nat, m: nat, w: nat)
    requires w < |lists| && Builds(lists[w], file, m) == 1
    requires forall v | 0 <= v < |lists| && v != w :: Builds(lists[v], file, m) == 0
    ensures AllBuilds(lists, file, m) == 1
  {
    if w == 0 {
      ZeroWorkers(lists[1..], file, m);
    } else {
      OneWorker(lists[1..], file, m, w - 1);
    }
  }

  lemma {:induction false} ZeroWorkers(lists: seq<seq<Slice>>, file: nat, m: nat)
    requires forall v | 0 <= v < |lists| :: Builds(lists[v], file, m) == 0
    ensures AllBuilds(lists, file, m) == 0
  {
    if lists != [] { ZeroWorkers(lists[1..], file, m); }
  }

  /** Scan, deal and clamp together: for any number of workers, every member of every file is built exactly once, and
      every slice is its file's whole member range from the start. */
  method RoundRobinBuild(scan: string -> seq<Member>, paths: seq<string>, n: nat) returns (slices: seq<seq<Slice>>)
    requires n > 0
    ensures |slices| == n
    ensures forall i, m | 0 <= i < |paths| && 0 <= m < MaxOne(|scan(paths[i])|) :: AllBuilds(slices, i, m) == 1
    ensures forall w, k | 0 <= w < n && 0 <= k < |slices[w]| ::
              var s := slices[w][k];
              && s.file < |paths| && s.file % n == w && s.begin == 0 && s.end == |s.members| && !s.continued
              && s.members == if scan(paths[s.file]) == [] then [Member(0, 0)] else scan(paths[s.file])
  {
    var memberMap := ScanMembers(scan, paths, n);
    var units := RoundRobin(memberMap, n);
    slices := BuildSlices(units, memberMap);
    forall w, k | 0 <= w < n && 0 <= k < |slices[w]|
      ensures slices[w][k] == Slice(units[w][k].file, 0, MaxOne(|scan(paths[units[w][k].file])|), false, Members(memberMap, units[w][k].file))
      ensures units[w][k].file < |paths| && units[w][k].file % n == w
    {
    }
    forall i, m | 0 <= i < |paths| && 0 <= m < MaxOne(|scan(paths[i])|) ensures AllBuilds(slices, i, m) == 1 {
      var w := i % n;
      assert WholeUnit(memberMap, i) in units[w];
      var k :| 0 <= k < |units[w]| && units[w][k] == WholeUnit(memberMap, i);
      forall a, b | 0 <= a < b < |slices[w]| ensures slices[w][a].file != slices[w][b].file {
        assert units[w][a].file < units[w][b].file;
      }
      OneBuild(slices[w], i, m, k);
      forall v | 0 <= v < n && v != w ensures Builds(slices[v], i, m) == 0 {
        forall j | 0 <= j < |slices[v]| ensures slices[v][j].file != i {}
        NoBuilds(slices[v], i, m);
      }
      OneWorker(slices, i, m, w);
    }
  }
}
