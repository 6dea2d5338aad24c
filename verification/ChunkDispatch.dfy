/** The thread backend of `parallel_for`: workers take chunk numbers from one shared atomic counter. Every list of
    steps is an interleaving of the workers. */
module ChunkDispatch {
  import opened Options

  /** A worker between two chunks, inside `body`, or out of its loop. */
  datatype Worker = Fetching | Running(k: nat) | Exited

  /** `ran` lists the chunks whose `body` call has returned. */
  datatype State = State(next: nat, workers: seq<Worker>, ran: seq<nat>)

  datatype Step = Fetch(w: nat) | Body(w: nat)

  function Chunks(n: nat, grain: nat): nat
    requires grain > 0
  { (n + grain - 1) / grain }

  function Begin(k: nat, grain: nat): nat { k * grain }
  function End(k: nat, n: nat, grain: nat): nat { if n < k * grain + grain then n else k * grain + grain }

  /** One worker per thread, the calling one included. */
  function Workers(threads: int): nat { if threads > 1 then threads else 1 }

  function Init(threads: int): State { State(0, seq(Workers(threads), _ => Fetching), []) }

  function Next(chunks: nat, s: State, step: Step): (r: Option<State>)
    ensures r.Some? ==> |r.value.workers| == |s.workers|
  {
    var w := step.w;
    if w >= |s.workers| then None
    else match step
      case Fetch(_) =>
        if !s.workers[w].Fetching? then None
        else Some(State(s.next + 1, s.workers[w := if s.next >= chunks then Exited else Running(s.next)], s.ran))
      case Body(_) =>
        if !s.workers[w].Running? then None
        else Some(State(s.next, s.workers[w := Fetching], s.ran + [s.workers[w].k]))
  }

  function Run(chunks: nat, threads: int, steps: seq<Step>): (r: Option<State>)
    ensures r.Some? ==> |r.value.workers| == Workers(threads)
  {
    if steps == [] then Some(Init(threads))
    else
      match Run(chunks, threads, steps[..|steps| - 1])
      case None => None
      case Some(s) => Next(chunks, s, steps[|steps| - 1])
  }

  function RunningOn(ws: seq<Worker>, k: nat): nat {
    if ws == [] then 0 else (if ws[0] == Running(k) then 1 else 0) + RunningOn(ws[1..], k)
  }

  function ExitedOf(ws: seq<Worker>): nat { if ws == [] then 0 else (if ws[0].Exited? then 1 else 0) + ExitedOf(ws[1..]) }

  function Busy(ws: seq<Worker>): nat { if ws == [] then 0 else (if ws[0].Running? then 1 else 0) + Busy(ws[1..]) }

  lemma {:induction false} Update(ws: seq<Worker>, w: nat, x: Worker, k: nat)
    requires w < |ws|
    ensures RunningOn(ws[w := x], k) ==
              RunningOn(ws, k) - (if ws[w] == Running(k) then 1 else 0) + (if x == Running(k) then 1 else 0)
    ensures ExitedOf(ws[w := x]) == ExitedOf(ws) - (if ws[w].Exited? then 1 else 0) + (if x.Exited? then 1 else 0)
    ensures Busy(ws[w := x]) == Busy(ws) - (if ws[w].Running? then 1 else 0) + (if x.Running? then 1 else 0)
  {
    if w == 0 {
      assert ws[0 := x][1..] == ws[1..];
    } else {
      Update(ws[1..], w - 1, x, k);
      assert ws[w := x][1..] == ws[1..][w - 1 := x];
    }
  }

  /** Chunk numbers handed out so far. */
  function Handed(chunks: nat, next: nat): nat { if next < chunks then next else chunks }

  /** Each handed-out chunk is with one worker or has run, once; each number past the last let one worker go. */
  ghost predicate Inv(chunks: nat, s: State) {
    && (forall k: nat :: multiset(s.ran)[k] + RunningOn(s.workers, k) == if k < Handed(chunks, s.next) then 1 else 0)
    && s.next == Handed(chunks, s.next) + ExitedOf(s.workers)
    && |s.ran| + Busy(s.workers) == Handed(chunks, s.next)
  }

  lemma NextInv(chunks: nat, s: State, step: Step)
    requires Inv(chunks, s) && Next(chunks, s, step).Some?
    ensures Inv(chunks, Next(chunks, s, step).value)
  {
    var s' := Next(chunks, s, step).value;
    forall k: nat
      ensures multiset(s'.ran)[k] + RunningOn(s'.workers, k) == if k < Handed(chunks, s'.next) then 1 else 0
    {
      Update(s.workers, step.w, s'.workers[step.w], k);
    }
    Update(s.workers, step.w, s'.workers[step.w], 0);
  }

  lemma {:induction false} InitCounts(ws: seq<Worker>, k: nat)
    requires forall w | 0 <= w < |ws| :: ws[w].Fetching?
    ensures RunningOn(ws, k) == ExitedOf(ws) == Busy(ws) == 0
  {
    if ws != [] { InitCounts(ws[1..], k); }
  }

  lemma {:induction false} RunInv(chunks: nat, threads: int, steps: seq<Step>)
    requires Run(chunks, threads, steps).Some?
    ensures Inv(chunks, Run(chunks, threads, steps).value)
  {
    if steps == [] {
      forall k: nat ensures RunningOn(Init(threads).workers, k) == ExitedOf(Init(threads).workers) == Busy(Init(threads).workers) == 0 {
        InitCounts(Init(threads).workers, k);
      }
      InitCounts(Init(threads).workers, 0);
    } else {
      RunInv(chunks, threads, steps[..|steps| - 1]);
      NextInv(chunks, Run(chunks, threads, steps[..|steps| - 1]).value, steps[|steps| - 1]);
    }
  }

  lemma {:induction false} AllExited(ws: seq<Worker>, k: nat)
    requires forall w | 0 <= w < |ws| :: ws[w].Exited?
    ensures RunningOn(ws, k) == Busy(ws) == 0 && ExitedOf(ws) == |ws|
  {
    if ws != [] { AllExited(ws[1..], k); }
  }

  /** After the join, in every interleaving of any number of workers: `body` has run exactly once for each chunk,
      and the counter has gone one past the chunks for each of the threads, or for the one there always is. */
  lemma JoinedRan(chunks: nat, threads: int, steps: seq<Step>)
    requires Run(chunks, threads, steps).Some?
    requires forall w | 0 <= w < Workers(threads) :: Run(chunks, threads, steps).value.workers[w].Exited?
    ensures var s := Run(chunks, threads, steps).value;
            && (forall k: nat :: multiset(s.ran)[k] == if k < chunks then 1 else 0)
            && |s.ran| == chunks && s.next == chunks + |s.workers|
            && |s.workers| == if threads >= 1 then threads else 1
  {
    var s := Run(chunks, threads, steps).value;
    RunInv(chunks, threads, steps);
    forall k: nat ensures RunningOn(s.workers, k) == 0 { AllExited(s.workers, k); }
    AllExited(s.workers, 0);
  }

  /** Steps left at most: each remaining counter value and each body call in progress. */
  function Measure(chunks: nat, s: State): int { 2 * (chunks + |s.workers| - s.next) + Busy(s.workers) }

  lemma {:induction false} ExitedAtMost(ws: seq<Worker>)
    ensures ExitedOf(ws) <= |ws|
    ensures (exists w :: 0 <= w < |ws| && !ws[w].Exited?) ==> ExitedOf(ws) < |ws|
  {
    if ws != [] {
      ExitedAtMost(ws[1..]);
      if w :| 0 <= w < |ws| && !ws[w].Exited? {
        if w > 0 { assert ws[w] == ws[1..][w - 1]; }
      }
    }
  }

  /** No interleaving runs for ever or gets stuck: every step shrinks the measure, and a worker still in its loop
      can always step. */
  lemma Progress(chunks: nat, s: State, w: nat)
    requires Inv(chunks, s) && w < |s.workers|
    ensures forall step | Next(chunks, s, step).Some? ::
              0 <= Measure(chunks, Next(chunks, s, step).value) < Measure(chunks, s)
    ensures !s.workers[w].Exited? ==> exists step :: Next(chunks, s, step).Some?
  {
    forall step | Next(chunks, s, step).Some?
      ensures 0 <= Measure(chunks, Next(chunks, s, step).value) < Measure(chunks, s)
    {
      var s' := Next(chunks, s, step).value;
      Update(s.workers, step.w, s'.workers[step.w], 0);
      NextInv(chunks, s, step);
      ExitedAtMost(s'.workers);
    }
    if s.workers[w].Fetching? { assert Next(chunks, s, Fetch(w)).Some?; }
    if s.workers[w].Running? { assert Next(chunks, s, Body(w)).Some?; }
  }

  // ---- the ranges -----------------------------------------------------------------------------------

  lemma {:induction false} Steps(a: nat, b: nat, grain: nat)
    requires a < b
    ensures a * grain + grain <= b * grain
  {
    assert (a + 1) * grain <= b * grain;
    assert (a + 1) * grain == a * grain + grain;
  }

  lemma {:induction false} ChunkOf(x: nat, k: nat, grain: nat)
    requires grain > 0
    ensures k * grain <= x < k * grain + grain <==> k == x / grain
  {
    var q := x / grain;
    assert q * grain <= x < q * grain + grain;
    if k < q { Steps(k, q, grain); }
    if q < k { Steps(q, k, grain); }
  }

  /** `chunks` is the least number of grains that reach `n`. */
  lemma ChunksReach(n: nat, grain: nat)
    requires grain > 0
    ensures n <= Chunks(n, grain) * grain < n + grain
  {
    ChunkOf(n + grain - 1, Chunks(n, grain), grain);
  }

  /** The chunks are the nonempty pieces of [0, n): each position is in exactly one, and a chunk's number is its
      begin over the grain, as the grouped partials index it. */
  lemma {:induction false} ChunksTile(n: nat, grain: nat, k: nat, x: nat)
    requires grain > 0
    ensures k < Chunks(n, grain) ==> Begin(k, grain) < End(k, n, grain) <= n && Begin(k, grain) / grain == k
    ensures x < n ==> x / grain < Chunks(n, grain)
    ensures x < n && k < Chunks(n, grain) ==> (Begin(k, grain) <= x < End(k, n, grain) <==> k == x / grain)
  {
    hide Chunks;
    var c := Chunks(n, grain);
    ChunksReach(n, grain);
    ChunkOf(x, k, grain);
    ChunkOf(k * grain, k, grain);
    ChunkOf(x, x / grain, grain);
    if k < c { Steps(k, c, grain); }
    if c < x / grain { Steps(c, x / grain, grain); }
  }

  function Visits(ran: seq<nat>, n: nat, grain: nat, x: nat): nat {
    if ran == [] then 0
    else (if Begin(ran[0], grain) <= x < End(ran[0], n, grain) then 1 else 0) + Visits(ran[1..], n, grain, x)
  }

  lemma {:induction false} VisitsCount(ran: seq<nat>, n: nat, grain: nat, x: nat)
    requires grain > 0 && x < n && forall i | 0 <= i < |ran| :: ran[i] < Chunks(n, grain)
    ensures Visits(ran, n, grain, x) == multiset(ran)[x / grain]
  {
    if ran != [] {
      ChunksTile(n, grain, ran[0], x);
      VisitsCount(ran[1..], n, grain, x);
      assert ran == [ran[0]] + ran[1..];
    }
  }

  /** Altogether: in every interleaving, once all workers are joined, every row of [0, n) has been given to `body`
      exactly once. */
  lemma EveryRowOnce(n: nat, grain: nat, threads: int, steps: seq<Step>, x: nat)
    requires grain > 0 && x < n && Run(Chunks(n, grain), threads, steps).Some?
    requires forall w | 0 <= w < Workers(threads) :: Run(Chunks(n, grain), threads, steps).value.workers[w].Exited?
    ensures Visits(Run(Chunks(n, grain), threads, steps).value.ran, n, grain, x) == 1
  {
    hide Chunks, Begin, End, Visits, Run;
    var chunks := Chunks(n, grain);
    var ran := Run(chunks, threads, steps).value.ran;
    JoinedRan(chunks, threads, steps);
    forall i | 0 <= i < |ran| ensures ran[i] < chunks { assert ran[i] in multiset(ran); }
    VisitsCount(ran, n, grain, x);
    ChunksTile(n, grain, 0, x);
  }
}
