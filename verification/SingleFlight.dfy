/** The single-flight decode cache: concurrent `get` calls as a step system over the lock-free coroutine mutex
    they share, one mutex and one decoded value per key.

    A step is one atomic action of one call, so every list of steps is an interleaving. The intrusive waiter stack
    is the sequence its `next` pointers spell; a compare-exchange sees only the word: free, no waiters, or the head. */
module SingleFlight {
  import opened Options

  datatype Word = NotLocked | NoWaiters | Head(t: nat)

  /** `stack` is the arrival stack, newest first; `waiters` the list being served, oldest first. */
  datatype Entry = Entry(locked: bool, stack: seq<nat>, waiters: seq<nat>, ready: bool, bytes: nat, decodes: nat)

  datatype Pc =
    | Start                 // before the map lookup
    | Loading               // about to load the word
    | Trying(seen: Word)    // about to compare-exchange against the word it saw
    | Waiting               // suspended on the mutex
    | Holding               // owns the mutex, `ready` not yet tested
    | Decoding
    | Releasing(v: nat)     // has its result, about to unlock
    | Detaching(v: nat)     // found new arrivals, about to take the stack
    | Done(v: nat)

  datatype State = State(pcs: seq<Pc>, entries: map<nat, Entry>)

  datatype Step =
    | Lookup(t: nat) | Load(t: nat) | Cas(t: nat) | Check(t: nat) | Decoded(t: nat, v: nat) | Unlock(t: nat) | Detach(t: nat)

  function WordOf(e: Entry): Word {
    if !e.locked then NotLocked else if e.stack == [] then NoWaiters else Head(e.stack[0])
  }

  /** The word tells whether the mutex is held, and the newest arrival; no more than that. */
  lemma WordTells(e: Entry, t: nat)
    ensures WordOf(e) == NotLocked <==> !e.locked
    ensures WordOf(e) == NoWaiters <==> e.locked && e.stack == []
    ensures WordOf(e) == Head(t) <==> e.locked && e.stack != [] && e.stack[0] == t
  {
  }

  function Reversed(s: seq<nat>): (r: seq<nat>)
    ensures |r| == |s|
  { if s == [] then [] else Reversed(s[1..]) + [s[0]] }

  function Init(keys: seq<nat>): State { State(seq(|keys|, _ => Start), map[]) }

  const FRESH := Entry(false, [], [], false, 0, 0)

  /** The call's entry, when it has looked it up. */
  predicate Has(keys: seq<nat>, s: State, t: nat) { t < |keys| == |s.pcs| && keys[t] in s.entries }

  function At(keys: seq<nat>, s: State, t: nat): Entry
    requires Has(keys, s, t)
  { s.entries[keys[t]] }

  function Put(keys: seq<nat>, s: State, t: nat, pc: Pc, e: Entry): State
    requires t < |keys| == |s.pcs|
  { State(s.pcs[t := pc], s.entries[keys[t] := e]) }

  /** The unlocking call is done and the next waiter owns the mutex. */
  function HandOff(keys: seq<nat>, s: State, t: nat, v: nat, queue: seq<nat>, e: Entry): Option<State>
    requires t < |keys| == |s.pcs|
  {
    if queue == [] || queue[0] >= |s.pcs| then None
    else Some(State(s.pcs[t := Done(v)][queue[0] := Holding], s.entries[keys[t] := e.(waiters := queue[1..])]))
  }

  /** One step of one call; nothing where the call is not at that point. */
  function Next(keys: seq<nat>, s: State, step: Step): Option<State>
    requires |keys| == |s.pcs|
  {
    var t := step.t;
    if t >= |keys| then None
    else if step.Lookup? then
      if s.pcs[t].Start? then
        Some(Put(keys, s, t, Loading, if keys[t] in s.entries then s.entries[keys[t]] else FRESH))
      else None
    else if keys[t] !in s.entries then None
    else
      var e := s.entries[keys[t]];
      match step
      case Load(_) => if s.pcs[t].Loading? then Some(Put(keys, s, t, Trying(WordOf(e)), e)) else None
      case Cas(_) =>
        if !s.pcs[t].Trying? then None
        else if WordOf(e) != s.pcs[t].seen then Some(Put(keys, s, t, Trying(WordOf(e)), e))
        else if !e.locked then Some(Put(keys, s, t, Holding, e.(locked := true)))
        else Some(Put(keys, s, t, Waiting, e.(stack := [t] + e.stack)))
      case Check(_) =>
        if !s.pcs[t].Holding? then None
        else if e.ready then Some(Put(keys, s, t, Releasing(e.bytes), e))
        else Some(Put(keys, s, t, Decoding, e.(decodes := e.decodes + 1)))
      case Decoded(_, v) =>
        if s.pcs[t].Decoding? then Some(Put(keys, s, t, Releasing(v), e.(ready := true, bytes := v))) else None
      case Unlock(_) =>
        if !s.pcs[t].Releasing? then None
        else if e.waiters != [] then HandOff(keys, s, t, s.pcs[t].v, e.waiters, e)
        else if e.stack == [] then Some(Put(keys, s, t, Done(s.pcs[t].v), e.(locked := false)))
        else Some(Put(keys, s, t, Detaching(s.pcs[t].v), e))
      case Detach(_) =>
        if s.pcs[t].Detaching? then HandOff(keys, s, t, s.pcs[t].v, Reversed(e.stack), e.(stack := [])) else None
  }

  function Run(keys: seq<nat>, steps: seq<Step>): (r: Option<State>)
    ensures r.Some? ==> |r.value.pcs| == |keys|
  {
    if steps == [] then Some(Init(keys))
    else
      match Run(keys, steps[..|steps| - 1])
      case None => None
      case Some(s) => Next(keys, s, steps[|steps| - 1])
  }

  // ---- the mutex as a queue ---------------------------------------------------------------------

  /** Who waits, first come first. */
  function Queue(e: Entry): seq<nat> { e.waiters + Reversed(e.stack) }

  predicate Owns(pc: Pc) { pc.Holding? || pc.Decoding? || pc.Releasing? || pc.Detaching? }

  ghost predicate Distinct(q: seq<nat>) { forall i, j | 0 <= i < j < |q| :: q[i] != q[j] }

  ghost predicate EntryInv(keys: seq<nat>, pcs: seq<Pc>, k: nat, e: Entry)
    requires |keys| == |pcs|
  {
    && Mutex(keys, pcs, k, e) && Flight(keys, pcs, k, e)
  }

  /** One owner exactly when locked; the queue holds the suspended calls, each once. */
  ghost predicate Mutex(keys: seq<nat>, pcs: seq<Pc>, k: nat, e: Entry)
    requires |keys| == |pcs|
  {
    && (forall t | 0 <= t < |pcs| && keys[t] == k && Owns(pcs[t]) :: e.locked)
    && (e.locked ==> exists t :: 0 <= t < |pcs| && keys[t] == k && Owns(pcs[t]))
    && (forall t, u | 0 <= t < |pcs| && 0 <= u < |pcs| && keys[t] == k == keys[u] && Owns(pcs[t]) && Owns(pcs[u]) :: t == u)
    && (forall t :: t in Queue(e) ==> t < |pcs| && keys[t] == k && pcs[t].Waiting?)
    && (forall t | 0 <= t < |pcs| && keys[t] == k && pcs[t].Waiting? :: t in Queue(e))
    && Distinct(Queue(e)) && (!e.locked ==> Queue(e) == [])
    && (forall t | 0 <= t < |pcs| && keys[t] == k && pcs[t].Detaching? :: e.waiters == [] && e.stack != [])
  }

  /** At most one decode; whoever has a result has the one decoded. */
  ghost predicate Flight(keys: seq<nat>, pcs: seq<Pc>, k: nat, e: Entry)
    requires |keys| == |pcs|
  {
    && (e.ready ==> e.decodes == 1) && e.decodes <= 1
    && (forall t | 0 <= t < |pcs| && keys[t] == k && pcs[t].Decoding? :: !e.ready && e.decodes == 1)
    && (!e.ready && e.decodes == 1 ==> exists t :: 0 <= t < |pcs| && keys[t] == k && pcs[t].Decoding?)
    && (forall t | 0 <= t < |pcs| && keys[t] == k && (pcs[t].Releasing? || pcs[t].Detaching? || pcs[t].Done?) ::
          e.ready && pcs[t].v == e.bytes)
  }

  ghost predicate Inv(keys: seq<nat>, s: State) {
    && |s.pcs| == |keys|
    && (forall t | 0 <= t < |keys| && !s.pcs[t].Start? :: keys[t] in s.entries)
    && (forall k | k in s.entries :: EntryInv(keys, s.pcs, k, s.entries[k]))
  }

  /** A step of a call of another key leaves an entry's invariant alone. */
  lemma OtherKey(keys: seq<nat>, pcs: seq<Pc>, pcs': seq<Pc>, k: nat, e: Entry)
    requires |keys| == |pcs| == |pcs'| && EntryInv(keys, pcs, k, e)
    requires forall t | 0 <= t < |keys| && keys[t] == k :: pcs'[t] == pcs[t]
    ensures EntryInv(keys, pcs', k, e)
  {
    if e.locked { var t :| 0 <= t < |pcs| && keys[t] == k && Owns(pcs[t]); assert Owns(pcs'[t]); }
    if !e.ready && e.decodes == 1 { var t :| 0 <= t < |pcs| && keys[t] == k && pcs[t].Decoding?; assert pcs'[t].Decoding?; }
  }

  /** A step that keeps who owns, who waits and who has a result. */
  lemma SameRole(keys: seq<nat>, pcs: seq<Pc>, t: nat, pc: Pc, e: Entry)
    requires t < |keys| == |pcs| && EntryInv(keys, pcs, keys[t], e)
    requires !Owns(pcs[t]) && !pcs[t].Waiting? && (pc.Loading? || pc.Trying?)
    ensures EntryInv(keys, pcs[t := pc], keys[t], e)
  {
    var pcs' := pcs[t := pc];
    if e.locked { var u :| 0 <= u < |pcs| && keys[u] == keys[t] && Owns(pcs[u]); assert Owns(pcs'[u]); }
    if !e.ready && e.decodes == 1 { var u :| 0 <= u < |pcs| && keys[u] == keys[t] && pcs[u].Decoding?; assert pcs'[u].Decoding?; }
  }

  lemma Acquires(keys: seq<nat>, pcs: seq<Pc>, t: nat, e: Entry)
    requires t < |keys| == |pcs| && EntryInv(keys, pcs, keys[t], e) && pcs[t].Trying? && !e.locked
    ensures EntryInv(keys, pcs[t := Holding], keys[t], e.(locked := true))
  {
    var pcs' := pcs[t := Holding];
    assert Owns(pcs'[t]);
    assert Queue(e.(locked := true)) == [];
  }

  lemma Enqueues(keys: seq<nat>, pcs: seq<Pc>, t: nat, e: Entry)
    requires t < |keys| == |pcs| && EntryInv(keys, pcs, keys[t], e) && pcs[t].Trying? && e.locked
    ensures EntryInv(keys, pcs[t := Waiting], keys[t], e.(stack := [t] + e.stack))
    ensures Queue(e.(stack := [t] + e.stack)) == Queue(e) + [t]
  {
    var pcs' := pcs[t := Waiting];
    assert ([t] + e.stack)[1..] == e.stack;
    assert Queue(e.(stack := [t] + e.stack)) == Queue(e) + [t];
    assert t !in Queue(e);
    var u :| 0 <= u < |pcs| && keys[u] == keys[t] && Owns(pcs[u]);
    assert Owns(pcs'[u]);
    if !e.ready && e.decodes == 1 { var w :| 0 <= w < |pcs| && keys[w] == keys[t] && pcs[w].Decoding?; assert pcs'[w].Decoding?; }
  }

  /** The owner moves on, still the owner. */
  lemma OwnerMoves(keys: seq<nat>, pcs: seq<Pc>, t: nat, pc: Pc, e: Entry, e': Entry)
    requires t < |keys| == |pcs| && EntryInv(keys, pcs, keys[t], e) && Owns(pcs[t]) && Owns(pc) && !pcs[t].Detaching?
    requires e'.locked && e'.stack == e.stack && e'.waiters == e.waiters
    requires pc.Detaching? ==> e.waiters == [] && e.stack != []
    requires Flight(keys, pcs[t := pc], keys[t], e')
    ensures EntryInv(keys, pcs[t := pc], keys[t], e')
  {
    assert Owns(pcs[t := pc][t]);
    assert Queue(e') == Queue(e);
  }

  lemma Checks(keys: seq<nat>, pcs: seq<Pc>, t: nat, e: Entry)
    requires t < |keys| == |pcs| && EntryInv(keys, pcs, keys[t], e) && pcs[t].Holding?
    ensures if e.ready then EntryInv(keys, pcs[t := Releasing(e.bytes)], keys[t], e)
            else EntryInv(keys, pcs[t := Decoding], keys[t], e.(decodes := e.decodes + 1))
  {
    if e.ready {
      OwnerMoves(keys, pcs, t, Releasing(e.bytes), e, e);
    } else {
      if e.decodes == 1 { var u :| 0 <= u < |pcs| && keys[u] == keys[t] && pcs[u].Decoding?; assert Owns(pcs[u]); }
      assert pcs[t := Decoding][t].Decoding?;
      OwnerMoves(keys, pcs, t, Decoding, e, e.(decodes := 1));
    }
  }

  lemma Decodes(keys: seq<nat>, pcs: seq<Pc>, t: nat, v: nat, e: Entry)
    requires t < |keys| == |pcs| && EntryInv(keys, pcs, keys[t], e) && pcs[t].Decoding?
    ensures EntryInv(keys, pcs[t := Releasing(v)], keys[t], e.(ready := true, bytes := v))
  {
    forall u | 0 <= u < |pcs| && keys[u] == keys[t] && pcs[u].Decoding? ensures u == t { assert Owns(pcs[u]); }
    OwnerMoves(keys, pcs, t, Releasing(v), e, e.(ready := true, bytes := v));
  }

  lemma FindsArrivals(keys: seq<nat>, pcs: seq<Pc>, t: nat, e: Entry)
    requires t < |keys| == |pcs| && EntryInv(keys, pcs, keys[t], e) && pcs[t].Releasing? && e.waiters == [] && e.stack != []
    ensures EntryInv(keys, pcs[t := Detaching(pcs[t].v)], keys[t], e)
  {
    OwnerMoves(keys, pcs, t, Detaching(pcs[t].v), e, e);
  }

  lemma Frees(keys: seq<nat>, pcs: seq<Pc>, t: nat, e: Entry)
    requires t < |keys| == |pcs| && EntryInv(keys, pcs, keys[t], e) && pcs[t].Releasing? && Queue(e) == []
    ensures EntryInv(keys, pcs[t := Done(pcs[t].v)], keys[t], e.(locked := false))
  {
    assert Queue(e.(locked := false)) == [];
  }

  /** The handed-off mutex has the first waiter as its owner, and the rest in the same order. */
  lemma HandsOff(keys: seq<nat>, pcs: seq<Pc>, t: nat, e: Entry, e': Entry)
    requires t < |keys| == |pcs| && EntryInv(keys, pcs, keys[t], e) && (pcs[t].Releasing? || pcs[t].Detaching?)
    requires Queue(e) != [] && Queue(e') == Queue(e)[1..] && e' == e.(stack := e'.stack, waiters := e'.waiters)
    ensures Queue(e)[0] < |pcs| && keys[Queue(e)[0]] == keys[t] && pcs[Queue(e)[0]].Waiting?
    ensures EntryInv(keys, pcs[t := Done(pcs[t].v)][Queue(e)[0] := Holding], keys[t], e')
  {
    hide Reversed;
    var q := Queue(e);
    var u := q[0];
    assert u in q;
    var pcs' := pcs[t := Done(pcs[t].v)][u := Holding];
    assert Owns(pcs'[u]);
    assert forall x :: x in q[1..] ==> x in q;
    assert forall x | x in q[1..] :: x != u;
    forall x | x in q && x != u ensures x in q[1..] { var i :| 0 <= i < |q| && q[i] == x; assert q[1..][i - 1] == x; }
  }

  /** The mutex's first waiter, as the step that hands it over finds it. */
  lemma {:induction false} NextWaiter(keys: seq<nat>, s: State, step: Step)
    requires Inv(keys, s) && Next(keys, s, step).Some?
    requires step.Detach? || (step.Unlock? && At(keys, s, step.t).waiters != [])
    ensures var e, s' := At(keys, s, step.t), Next(keys, s, step).value;
            && Queue(e) != [] && s'.pcs == s.pcs[step.t := Done(s.pcs[step.t].v)][Queue(e)[0] := Holding]
            && s'.entries.Keys == s.entries.Keys && Queue(s'.entries[keys[step.t]]) == Queue(e)[1..]
            && s'.entries[keys[step.t]] == e.(stack := s'.entries[keys[step.t]].stack, waiters := s'.entries[keys[step.t]].waiters)
  {
    hide Flight, Reversed;
    var e := At(keys, s, step.t);
    assert EntryInv(keys, s.pcs, keys[step.t], e);
    if step.Detach? {
      assert e.waiters == [];
      assert Queue(e) == Reversed(e.stack);
    } else {
      assert Queue(e)[0] == e.waiters[0];
      assert Queue(e)[1..] == e.waiters[1..] + Reversed(e.stack);
    }
  }

  predicate HandsOver(keys: seq<nat>, s: State, step: Step) {
    step.Detach? || (step.Unlock? && Has(keys, s, step.t) && At(keys, s, step.t).waiters != [])
  }

  lemma FreshEntry(keys: seq<nat>, pcs: seq<Pc>, t: nat)
    requires t < |keys| == |pcs| && forall u | 0 <= u < |keys| && keys[u] == keys[t] :: pcs[u].Start?
    ensures EntryInv(keys, pcs[t := Loading], keys[t], FRESH)
  {
    assert Queue(FRESH) == [];
  }

  lemma {:induction false} StepsEntry(keys: seq<nat>, s: State, step: Step)
    requires Inv(keys, s) && Next(keys, s, step).Some?
    ensures var s' := Next(keys, s, step).value;
            step.t < |keys| == |s'.pcs| && keys[step.t] in s'.entries && EntryInv(keys, s'.pcs, keys[step.t], s'.entries[keys[step.t]])
  {
    hide Mutex, Flight, EntryInv, Reversed;
    var t := step.t;
    if keys[t] in s.entries {
      var e := s.entries[keys[t]];
      assert EntryInv(keys, s.pcs, keys[t], e);
      if HandsOver(keys, s, step) {
        NextWaiter(keys, s, step);
        HandsOff(keys, s.pcs, t, e, Next(keys, s, step).value.entries[keys[t]]);
      } else {
        match step
        case Lookup(_) => SameRole(keys, s.pcs, t, Loading, e);
        case Load(_) => SameRole(keys, s.pcs, t, Trying(WordOf(e)), e);
        case Cas(_) =>
          if WordOf(e) != s.pcs[t].seen { SameRole(keys, s.pcs, t, Trying(WordOf(e)), e); }
          else if !e.locked { Acquires(keys, s.pcs, t, e); } else { Enqueues(keys, s.pcs, t, e); }
        case Check(_) => Checks(keys, s.pcs, t, e);
        case Decoded(_, v) => Decodes(keys, s.pcs, t, v, e);
        case Unlock(_) =>
          if e.stack == [] { Frees(keys, s.pcs, t, e); }
          else { FindsArrivals(keys, s.pcs, t, e); }
        case Detach(_) =>
      }
    } else {
      FreshEntry(keys, s.pcs, t);
    }
  }

  lemma {:induction false} StepsElsewhere(keys: seq<nat>, s: State, step: Step, k: nat)
    requires Inv(keys, s) && Next(keys, s, step).Some? && k != keys[step.t]
    ensures var s' := Next(keys, s, step).value;
            |s'.pcs| == |keys| && (k in s'.entries <==> k in s.entries) &&
            (forall u | 0 <= u < |keys| && keys[u] == k :: s'.pcs[u] == s.pcs[u]) &&
            (k in s.entries ==> s'.entries[k] == s.entries[k] && EntryInv(keys, s'.pcs, k, s'.entries[k]))
  {
    hide Mutex, Flight, EntryInv, Reversed, Queue;
    var s' := Next(keys, s, step).value;
    if HandsOver(keys, s, step) {
      var e := At(keys, s, step.t);
      assert EntryInv(keys, s.pcs, keys[step.t], e);
      NextWaiter(keys, s, step);
      HandsOff(keys, s.pcs, step.t, e, s'.entries[keys[step.t]]);
    }
    if k in s.entries { OtherKey(keys, s.pcs, s'.pcs, k, s.entries[k]); }
  }

  /** Every step keeps the invariant. */
  lemma {:induction false} NextInv(keys: seq<nat>, s: State, step: Step)
    requires Inv(keys, s) && Next(keys, s, step).Some?
    ensures Inv(keys, Next(keys, s, step).value)
  {
    hide Mutex, Flight, EntryInv, Reversed, Next;
    var t := step.t;
    var s' := Next(keys, s, step).value;
    StepsEntry(keys, s, step);
    forall k | k in s'.entries ensures EntryInv(keys, s'.pcs, k, s'.entries[k]) {
      if k != keys[t] { StepsElsewhere(keys, s, step, k); }
    }
    forall u | 0 <= u < |keys| && !s'.pcs[u].Start? ensures keys[u] in s'.entries {
      if keys[u] != keys[t] { StepsElsewhere(keys, s, step, keys[u]); }
    }
  }

  lemma {:induction false} RunInv(keys: seq<nat>, steps: seq<Step>)
    requires Run(keys, steps).Some?
    ensures Inv(keys, Run(keys, steps).value)
  {
    if steps != [] {
      RunInv(keys, steps[..|steps| - 1]);
      NextInv(keys, Run(keys, steps[..|steps| - 1]).value, steps[|steps| - 1]);
    }
  }

  // ---- safety --------------------------------------------------------------------------------------

  /** In every interleaving of any calls over any keys: each key is decoded at most once, and every completed call
      has the value that decode produced. */
  lemma DecodedOnce(keys: seq<nat>, steps: seq<Step>, k: nat)
    requires Run(keys, steps).Some? && k in Run(keys, steps).value.entries
    ensures var s := Run(keys, steps).value;
            && s.entries[k].decodes <= 1
            && (forall t | 0 <= t < |keys| && keys[t] == k && s.pcs[t].Done? ::
                  s.entries[k].decodes == 1 && s.pcs[t].v == s.entries[k].bytes)
            && (forall t, u | 0 <= t < |keys| && 0 <= u < |keys| && keys[t] == k == keys[u] && Owns(s.pcs[t]) && Owns(s.pcs[u]) ::
                  t == u)
  {
    RunInv(keys, steps);
    assert EntryInv(keys, Run(keys, steps).value.pcs, k, Run(keys, steps).value.entries[k]);
  }

  /** Step `i` of a run decodes for key `k`. */
  predicate DecodesAt(keys: seq<nat>, steps: seq<Step>, k: nat, i: int) {
    0 <= i < |steps| && steps[i].Decoded? && steps[i].t < |keys| && keys[steps[i].t] == k
  }

  /** Told by the steps alone: exactly one of them decodes for key `k`, and it yields `v`. */
  ghost predicate DecodedTo(keys: seq<nat>, steps: seq<Step>, k: nat, v: nat) {
    exists i | DecodesAt(keys, steps, k, i) :: steps[i].v == v && forall j | DecodesAt(keys, steps, k, j) :: j == i
  }

  /** What an entry holds is what the run has decoded for its key. */
  ghost predicate Recorded(keys: seq<nat>, steps: seq<Step>, k: nat, e: Entry) {
    if e.ready then DecodedTo(keys, steps, k, e.bytes) else forall i :: !DecodesAt(keys, steps, k, i)
  }

  predicate DecodesFor(keys: seq<nat>, step: Step, k: nat) { step.Decoded? && step.t < |keys| && keys[step.t] == k }

  lemma {:induction false} RecordsStep(keys: seq<nat>, steps: seq<Step>, step: Step, k: nat, e: Entry, e': Entry)
    requires Recorded(keys, steps, k, e)
    requires if DecodesFor(keys, step, k) then !e.ready && e'.ready && e'.bytes == step.v
             else e'.ready == e.ready && e'.bytes == e.bytes
    ensures Recorded(keys, steps + [step], k, e')
  {
    var more := steps + [step];
    forall i
      ensures DecodesAt(keys, more, k, i) <==> DecodesAt(keys, steps, k, i) || (i == |steps| && DecodesFor(keys, step, k))
    {
      if 0 <= i < |steps| { assert more[i] == steps[i]; }
    }
    if e.ready {
      var i :| DecodesAt(keys, steps, k, i) && steps[i].v == e.bytes && forall j | DecodesAt(keys, steps, k, j) :: j == i;
      assert DecodesAt(keys, more, k, i) && more[i].v == e.bytes;
    } else if e'.ready {
      assert DecodesAt(keys, more, k, |steps|) && more[|steps|].v == step.v;
    }
  }

  /** The entry of a key; before its first call, the one that call would make. */
  function EntryOf(s: State, k: nat): Entry { if k in s.entries then s.entries[k] else FRESH }

  /** A step changes what a key's entry holds only by decoding for the key, which finds it empty. */
  lemma {:induction false} StepStores(keys: seq<nat>, s: State, step: Step, k: nat)
    requires Inv(keys, s) && Next(keys, s, step).Some?
    ensures var e, e' := EntryOf(s, k), EntryOf(Next(keys, s, step).value, k);
            if DecodesFor(keys, step, k) then !e.ready && e'.ready && e'.bytes == step.v
            else e'.ready == e.ready && e'.bytes == e.bytes
  {
    hide Mutex, Reversed;
    if k in s.entries { assert EntryInv(keys, s.pcs, k, s.entries[k]); }
  }

  lemma {:induction false} RunRecords(keys: seq<nat>, steps: seq<Step>, k: nat)
    requires Run(keys, steps).Some?
    ensures Recorded(keys, steps, k, EntryOf(Run(keys, steps).value, k))
  {
    hide EntryInv, Next, DecodedTo;
    if steps != [] {
      var before, step := steps[..|steps| - 1], steps[|steps| - 1];
      var s, s' := Run(keys, before).value, Run(keys, steps).value;
      RunInv(keys, before);
      RunRecords(keys, before, k);
      StepStores(keys, s, step, k);
      assert before + [step] == steps;
      RecordsStep(keys, before, step, k, EntryOf(s, k), EntryOf(s', k));
    }
  }

  /** A key with a completed call was decoded by exactly one step of the run, and every completed call of the key has the
      value that step decoded; no key is decoded by two steps. */
  lemma {:induction false} ServedDecoded(keys: seq<nat>, steps: seq<Step>, k: nat)
    requires Run(keys, steps).Some?
    ensures forall t | 0 <= t < |keys| && keys[t] == k && Run(keys, steps).value.pcs[t].Done? ::
              DecodedTo(keys, steps, k, Run(keys, steps).value.pcs[t].v)
    ensures forall i, j | DecodesAt(keys, steps, k, i) && DecodesAt(keys, steps, k, j) :: i == j
  {
    hide Mutex;
    RunInv(keys, steps);
    RunRecords(keys, steps, k);
    var s := Run(keys, steps).value;
    forall t | 0 <= t < |keys| && keys[t] == k && s.pcs[t].Done? ensures DecodedTo(keys, steps, k, s.pcs[t].v) {
      assert EntryInv(keys, s.pcs, k, s.entries[k]);
    }
  }

  /** Waiters are served in the order they arrived: a call that suspends joins the end of the queue, a handed-over
      mutex goes to its front, and no other step touches the queue. */
  lemma {:induction false} FirstComeFirstServed(keys: seq<nat>, s: State, step: Step)
    requires Inv(keys, s) && Next(keys, s, step).Some? && Has(keys, s, step.t)
    ensures var s' := Next(keys, s, step).value;
            && Has(keys, s', step.t)
            && (if s'.pcs[step.t].Waiting? then Queue(At(keys, s', step.t)) == Queue(At(keys, s, step.t)) + [step.t]
                else if HandsOver(keys, s, step) then
                  && [Queue(At(keys, s, step.t))[0]] + Queue(At(keys, s', step.t)) == Queue(At(keys, s, step.t))
                  && s'.pcs[Queue(At(keys, s, step.t))[0]].Holding?
                else Queue(At(keys, s', step.t)) == Queue(At(keys, s, step.t)))
  {
    hide Mutex, Flight, EntryInv, Reversed;
    var e := At(keys, s, step.t);
    assert EntryInv(keys, s.pcs, keys[step.t], e);
    if HandsOver(keys, s, step) {
      NextWaiter(keys, s, step);
      HandsOff(keys, s.pcs, step.t, e, Next(keys, s, step).value.entries[keys[step.t]]);
    } else if step.Cas? && e.locked && WordOf(e) == s.pcs[step.t].seen {
      Enqueues(keys, s.pcs, step.t, e);
    }
  }

  // ---- progress ------------------------------------------------------------------------------------

  function Weight(pc: Pc): nat {
    match pc
    case Start => 8
    case Loading => 7
    case Trying(_) => 6
    case Waiting => 5
    case Holding => 4
    case Decoding => 3
    case Releasing(_) => 2
    case Detaching(_) => 1
    case Done(_) => 0
  }

  function Work(pcs: seq<Pc>): nat { if pcs == [] then 0 else Weight(pcs[0]) + Work(pcs[1..]) }

  lemma {:induction false} WorkUpdate(pcs: seq<Pc>, t: nat, pc: Pc)
    requires t < |pcs|
    ensures Work(pcs[t := pc]) == Work(pcs) - Weight(pcs[t]) + Weight(pc)
  {
    if t == 0 {
      assert pcs[0 := pc][1..] == pcs[1..];
    } else {
      WorkUpdate(pcs[1..], t - 1, pc);
      assert pcs[t := pc][1..] == pcs[1..][t - 1 := pc];
    }
  }

  lemma {:induction false} WorkBound(pcs: seq<Pc>)
    ensures Work(pcs) <= 8 * |pcs|
  {
    if pcs != [] { WorkBound(pcs[1..]); }
  }

  /** A call whose compare-exchange would fail now. */
  predicate Outdated(entries: map<nat, Entry>, k: nat, pc: Pc) {
    pc.Trying? && k in entries && WordOf(entries[k]) != pc.seen
  }

  function Stale(keys: seq<nat>, entries: map<nat, Entry>, pcs: seq<Pc>): (n: nat)
    requires |keys| == |pcs|
    ensures n <= |keys|
  {
    if keys == [] then 0
    else (if Outdated(entries, keys[0], pcs[0]) then 1 else 0) + Stale(keys[1..], entries, pcs[1..])
  }

  lemma {:induction false} StaleUpdate(keys: seq<nat>, entries: map<nat, Entry>, pcs: seq<Pc>, t: nat, pc: Pc)
    requires t < |keys| == |pcs| && Outdated(entries, keys[t], pcs[t]) && !Outdated(entries, keys[t], pc)
    ensures Stale(keys, entries, pcs[t := pc]) == Stale(keys, entries, pcs) - 1
  {
    if t == 0 {
      assert pcs[0 := pc][1..] == pcs[1..];
    } else {
      StaleUpdate(keys[1..], entries, pcs[1..], t - 1, pc);
      assert pcs[t := pc][1..] == pcs[1..][t - 1 := pc];
    }
  }

  /** Work left: the steps of every call, and within them the compare-exchanges bound to be repeated. */
  function Measure(keys: seq<nat>, s: State): nat
    requires |keys| == |s.pcs|
  { Work(s.pcs) * (|keys| + 1) + Stale(keys, s.entries, s.pcs) }

  lemma {:induction false} Outweighs(a: nat, b: nat, n: nat)
    requires a < b
    ensures a * (n + 1) + n < b * (n + 1)
  {
    assert (a + 1) * (n + 1) <= b * (n + 1);
    assert (a + 1) * (n + 1) == a * (n + 1) + n + 1;
  }

  predicate Retries(keys: seq<nat>, s: State, step: Step) {
    step.Cas? && Has(keys, s, step.t) && s.pcs[step.t].Trying? && WordOf(At(keys, s, step.t)) != s.pcs[step.t].seen
  }

  lemma {:induction false} WorkShrinks(keys: seq<nat>, s: State, step: Step)
    requires Inv(keys, s) && Next(keys, s, step).Some? && !Retries(keys, s, step)
    ensures |Next(keys, s, step).value.pcs| == |keys| && Work(Next(keys, s, step).value.pcs) < Work(s.pcs)
  {
    hide Mutex, Flight, EntryInv, Reversed, Queue, Work;
    var t := step.t;
    var s' := Next(keys, s, step).value;
    if HandsOver(keys, s, step) {
      NextWaiter(keys, s, step);
      assert EntryInv(keys, s.pcs, keys[t], At(keys, s, t));
      HandsOff(keys, s.pcs, t, At(keys, s, t), s'.entries[keys[t]]);
      WorkUpdate(s.pcs, t, Done(s.pcs[t].v));
      WorkUpdate(s.pcs[t := Done(s.pcs[t].v)], Queue(At(keys, s, t))[0], Holding);
    } else {
      WorkUpdate(s.pcs, t, s'.pcs[t]);
    }
  }

  /** Every step, of any call, shrinks the measure: no interleaving runs for ever. */
  lemma {:induction false} MeasureShrinks(keys: seq<nat>, s: State, step: Step)
    requires Inv(keys, s) && Next(keys, s, step).Some?
    ensures |Next(keys, s, step).value.pcs| == |keys|
    ensures Measure(keys, Next(keys, s, step).value) < Measure(keys, s)
  {
    hide Mutex, Flight, EntryInv, Work, Stale;
    var s' := Next(keys, s, step).value;
    if Retries(keys, s, step) {
      WorkUpdate(s.pcs, step.t, s'.pcs[step.t]);
      assert s'.entries == s.entries;
      StaleUpdate(keys, s.entries, s.pcs, step.t, s'.pcs[step.t]);
    } else {
      WorkShrinks(keys, s, step);
      Outweighs(Work(s'.pcs), Work(s.pcs), |keys|);
    }
  }

  lemma {:induction false} RunShrinks(keys: seq<nat>, steps: seq<Step>)
    requires Run(keys, steps).Some?
    ensures |steps| + Measure(keys, Run(keys, steps).value) <= Measure(keys, Init(keys))
  {
    if steps != [] {
      RunShrinks(keys, steps[..|steps| - 1]);
      RunInv(keys, steps[..|steps| - 1]);
      MeasureShrinks(keys, Run(keys, steps[..|steps| - 1]).value, steps[|steps| - 1]);
    }
  }

  lemma {:induction false} NoneStale(keys: seq<nat>, entries: map<nat, Entry>, pcs: seq<Pc>)
    requires |keys| == |pcs| && forall t | 0 <= t < |pcs| :: pcs[t].Start?
    ensures Stale(keys, entries, pcs) == 0
  {
    if keys != [] { NoneStale(keys[1..], entries, pcs[1..]); }
  }

  lemma Scales(a: nat, b: nat, m: nat)
    requires a <= b
    ensures a * m <= b * m
  {
  }

  /** The longest any interleaving of `n` calls can be. */
  lemma {:induction false} RunsAreBounded(keys: seq<nat>, steps: seq<Step>)
    requires Run(keys, steps).Some?
    ensures |steps| <= 8 * |keys| * (|keys| + 1)
  {
    RunShrinks(keys, steps);
    WorkBound(Init(keys).pcs);
    NoneStale(keys, map[], Init(keys).pcs);
    Scales(Work(Init(keys).pcs), 8 * |keys|, |keys| + 1);
  }

  /** The step a call that is neither done nor suspended can take. */
  function StepOf(t: nat, pc: Pc): Step {
    match pc
    case Start => Lookup(t)
    case Loading => Load(t)
    case Trying(_) => Cas(t)
    case Holding => Check(t)
    case Decoding => Decoded(t, 0)
    case Releasing(_) => Unlock(t)
    case _ => Detach(t)
  }

  lemma ServedNext(keys: seq<nat>, pcs: seq<Pc>, t: nat, e: Entry)
    requires t < |keys| == |pcs| && EntryInv(keys, pcs, keys[t], e)
    ensures e.waiters != [] ==> e.waiters[0] < |pcs|
    ensures pcs[t].Detaching? ==> Reversed(e.stack) != [] && Reversed(e.stack)[0] < |pcs|
  {
    hide Flight, Reversed;
    if e.waiters != [] { assert e.waiters[0] in Queue(e); }
    if pcs[t].Detaching? { assert Reversed(e.stack)[0] in Queue(e); }
  }

  lemma Enabled(keys: seq<nat>, s: State, t: nat)
    requires Inv(keys, s) && t < |keys| && !s.pcs[t].Done? && !s.pcs[t].Waiting?
    ensures Next(keys, s, StepOf(t, s.pcs[t])).Some?
  {
    hide Flight, Mutex, EntryInv, Queue, Reversed;
    if !s.pcs[t].Start? {
      assert EntryInv(keys, s.pcs, keys[t], s.entries[keys[t]]);
      ServedNext(keys, s.pcs, t, s.entries[keys[t]]);
    }
  }

  /** No deadlock: while a call is not done some call can step, for a suspended call waits on an owner. */
  lemma NoDeadlock(keys: seq<nat>, s: State)
    requires Inv(keys, s) && exists t :: 0 <= t < |keys| && !s.pcs[t].Done?
    ensures exists step :: Next(keys, s, step).Some?
  {
    var t :| 0 <= t < |keys| && !s.pcs[t].Done?;
    if s.pcs[t].Waiting? {
      var e := s.entries[keys[t]];
      assert EntryInv(keys, s.pcs, keys[t], e);
      assert t in Queue(e);
      var u :| 0 <= u < |s.pcs| && keys[u] == keys[t] && Owns(s.pcs[u]);
      Enabled(keys, s, u);
    } else {
      Enabled(keys, s, t);
    }
  }

  /** A run that cannot go on has answered every call, each requested key decoded by exactly one step and every call of
      the key given the value that step decoded; and every run gets there. */
  lemma AllAnswered(keys: seq<nat>, steps: seq<Step>)
    requires Run(keys, steps).Some? && forall step :: Next(keys, Run(keys, steps).value, step).None?
    ensures var s := Run(keys, steps).value;
            forall t | 0 <= t < |keys| ::
              && s.pcs[t].Done? && keys[t] in s.entries && s.entries[keys[t]].decodes == 1
              && DecodedTo(keys, steps, keys[t], s.pcs[t].v) && !s.entries[keys[t]].locked
  {
    hide Run, DecodedTo;
    var s := Run(keys, steps).value;
    RunInv(keys, steps);
    if exists t :: 0 <= t < |keys| && !s.pcs[t].Done? { NoDeadlock(keys, s); }
    forall t | 0 <= t < |keys|
      ensures s.pcs[t].Done? && keys[t] in s.entries && s.entries[keys[t]].decodes == 1
      ensures DecodedTo(keys, steps, keys[t], s.pcs[t].v) && !s.entries[keys[t]].locked
    {
      ServedDecoded(keys, steps, keys[t]);
      assert EntryInv(keys, s.pcs, keys[t], s.entries[keys[t]]);
    }
  }
}
