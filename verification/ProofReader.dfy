/**
 * The single-slot proof reader (cmd/aeon-agentd/attach_proof.go) as the steps
 * its callers and workers take, in every interleaving. A call may be cancelled
 * at any time; a load may take for ever.
 */
module ProofReader {
  import opened Wrappers

  /** Where a caller stands in `read`. */
  datatype Phase<V> =
    | Waiting              // before the slot
    | Acquired             // holds the slot, its context not checked yet
    | Checked              // about to start its worker
    | Receiving            // waiting for its worker
    | Got(value: V)        // received, its context not checked again yet
    | Cancelled            // returned the context's error
    | Returned(value: V)

  datatype Worker<V> = NotStarted | Loading | Offering(value: V) | Releasing | Ended

  datatype Call<V> = Call(phase: Phase<V>, worker: Worker<V>)

  /** `full` is the one-slot channel; `acquires` and `releases` count its sends and receives. */
  datatype Reader<V> = Reader(full: bool, calls: map<nat, Call<V>>, done: set<nat>, acquires: map<nat, nat>, releases: map<nat, nat>)

  datatype Step<V> =
    | Arrive(c: nat) | Cancel(c: nat)
    | Acquire(c: nat) | GiveUpWaiting(c: nat)
    | CheckCancelled(c: nat) | CheckAlive(c: nat) | Start(c: nat)
    | LoadReturns(c: nat, value: V)
    | Deliver(c: nat) | Abandon(c: nat) | Release(c: nat)
    | GiveUpReceiving(c: nat) | FinalCancelled(c: nat) | FinalAlive(c: nat)

  predicate Enabled<V>(r: Reader<V>, s: Step<V>) {
    if s.Arrive? then s.c !in r.calls
    else if s.Cancel? then true
    else
      s.c in r.calls &&
      var call := r.calls[s.c];
      match s
      case Acquire(c) => call.phase.Waiting? && !r.full
      case GiveUpWaiting(c) => call.phase.Waiting? && c in r.done
      case CheckCancelled(c) => call.phase.Acquired? && c in r.done && r.full
      case CheckAlive(c) => call.phase.Acquired? && c !in r.done
      case Start(c) => call.phase.Checked?
      case LoadReturns(c, _) => call.worker.Loading?
      case Deliver(c) => call.worker.Offering? && call.phase.Receiving?
      case Abandon(c) => call.worker.Offering? && c in r.done
      case Release(c) => call.worker.Releasing? && r.full
      case GiveUpReceiving(c) => call.phase.Receiving? && c in r.done
      case FinalCancelled(c) => call.phase.Got? && c in r.done
      case FinalAlive(c) => call.phase.Got? && c !in r.done
  }

  function Count(m: map<nat, nat>, c: nat): nat { if c in m then m[c] else 0 }

  function Next<V>(r: Reader<V>, s: Step<V>): Reader<V>
    requires Enabled(r, s)
  {
    if s.Arrive? then r.(calls := r.calls[s.c := Call(Waiting, NotStarted)])
    else if s.Cancel? then r.(done := r.done + {s.c})
    else
      var call := r.calls[s.c];
      match s
      case Acquire(c) =>
        r.(full := true, calls := r.calls[c := call.(phase := Acquired)], acquires := r.acquires[c := Count(r.acquires, c) + 1])
      case GiveUpWaiting(c) => r.(calls := r.calls[c := call.(phase := Cancelled)])
      case CheckCancelled(c) =>
        r.(full := false, calls := r.calls[c := call.(phase := Cancelled)], releases := r.releases[c := Count(r.releases, c) + 1])
      case CheckAlive(c) => r.(calls := r.calls[c := call.(phase := Checked)])
      case Start(c) => r.(calls := r.calls[c := Call(Receiving, Loading)])
      case LoadReturns(c, value) => r.(calls := r.calls[c := call.(worker := Offering(value))])
      case Deliver(c) => r.(calls := r.calls[c := Call(Got(call.worker.value), Releasing)])
      case Abandon(c) => r.(calls := r.calls[c := call.(worker := Releasing)])
      case Release(c) =>
        r.(full := false, calls := r.calls[c := call.(worker := Ended)], releases := r.releases[c := Count(r.releases, c) + 1])
      case GiveUpReceiving(c) => r.(calls := r.calls[c := call.(phase := Cancelled)])
      case FinalCancelled(c) => r.(calls := r.calls[c := call.(phase := Cancelled)])
      case FinalAlive(c) => r.(calls := r.calls[c := call.(phase := Returned(call.phase.value))])
  }

  ghost predicate Run<V(!new)>(r: Reader<V>, steps: seq<Step<V>>, t: Reader<V>)
    decreases |steps|
  {
    if steps == [] then r == t else Enabled(r, steps[0]) && Run(Next(r, steps[0]), steps[1..], t)
  }

  function Fresh<V>(): Reader<V> { Reader(false, map[], {}, map[], map[]) }

  // -------------------------------------------------------------- invariants

  /** The call holds the slot: as its caller, or as its worker. */
  predicate Holds<V>(r: Reader<V>, c: nat) {
    c in r.calls &&
    var call := r.calls[c];
    call.phase.Acquired? || call.phase.Checked? || call.worker.Loading? || call.worker.Offering? || call.worker.Releasing?
  }

  /** How a caller and its worker can stand to each other. */
  predicate Fits<V>(r: Reader<V>, c: nat)
    requires c in r.calls
  {
    var call := r.calls[c];
    && (call.phase.Waiting? || call.phase.Acquired? || call.phase.Checked? ==> call.worker.NotStarted?)
    && (call.phase.Receiving? ==>
          call.worker.Loading? || call.worker.Offering? || ((call.worker.Releasing? || call.worker.Ended?) && c in r.done))
    && (call.phase.Got? || call.phase.Returned? ==> call.worker.Releasing? || call.worker.Ended?)
    && (call.phase.Cancelled? ==> c in r.done)
    && Count(r.acquires, c) == (if call.phase.Waiting? || (call.phase.Cancelled? && Count(r.acquires, c) == 0) then 0 else 1)
    && (call.phase.Cancelled? && Count(r.acquires, c) == 0 ==> call.worker.NotStarted?)
    && Count(r.acquires, c) == Count(r.releases, c) + (if Holds(r, c) then 1 else 0)
  }

  /** The slot is full exactly when some call holds it, and never two do. */
  ghost predicate Sound<V>(r: Reader<V>) {
    && (forall c :: c in r.calls ==> Fits(r, c))
    && (forall c :: c !in r.calls ==> Count(r.acquires, c) == 0 && Count(r.releases, c) == 0)
    && (forall c, d :: Holds(r, c) && Holds(r, d) ==> c == d)
    && (r.full <==> exists c :: Holds(r, c))
  }

  lemma {:induction false} FreshIsSound<V>()
    ensures Sound(Fresh<V>())
  {}

  /** A step concerns its own call only. */
  lemma {:induction false} OthersStay<V>(r: Reader<V>, s: Step<V>, d: nat)
    requires Enabled(r, s) && d != s.c
    ensures var t := Next(r, s);
            && (d in t.calls <==> d in r.calls) && (d in r.calls ==> t.calls[d] == r.calls[d]) && (d in t.done <==> d in r.done)
            && Count(t.acquires, d) == Count(r.acquires, d) && Count(t.releases, d) == Count(r.releases, d)
            && (Holds(t, d) <==> Holds(r, d))
            && (d in r.calls && Fits(r, d) ==> Fits(t, d))
  {}

  lemma {:induction false} OwnCallFits<V>(r: Reader<V>, s: Step<V>)
    requires Enabled(r, s)
    requires if s.c in r.calls then Fits(r, s.c) else Count(r.acquires, s.c) == 0 && Count(r.releases, s.c) == 0
    ensures s.c in Next(r, s).calls ==> Fits(Next(r, s), s.c)
    ensures s.c !in Next(r, s).calls ==> Count(Next(r, s).acquires, s.c) == 0 && Count(Next(r, s).releases, s.c) == 0
    ensures Holds(Next(r, s), s.c) <==>
            if s.Acquire? then true else if s.CheckCancelled? || s.Release? then false else Holds(r, s.c)
  {}

  lemma {:induction false} StepKeepsSound<V>(r: Reader<V>, s: Step<V>)
    requires Sound(r) && Enabled(r, s)
    ensures Sound(Next(r, s))
  {
    var t := Next(r, s);
    OwnCallFits(r, s);
    forall d | d != s.c
      ensures d in t.calls ==> Fits(t, d)
      ensures d !in t.calls ==> Count(t.acquires, d) == 0 && Count(t.releases, d) == 0
      ensures Holds(t, d) <==> Holds(r, d)
    {
      OthersStay(r, s, d);
      hide Fits, Holds, Count, Next;
    }
    SlotFollows(r, s);
    hide Fits, Count, Next, Holds;
    if s.Acquire? {
      assert forall d :: !Holds(r, d);
      assert Holds(t, s.c);
    } else if s.CheckCancelled? || s.Release? {
      assert Holds(r, s.c);
    } else {
      assert forall d :: Holds(t, d) <==> Holds(r, d);
    }
  }

  lemma {:induction false} SlotFollows<V>(r: Reader<V>, s: Step<V>)
    requires Enabled(r, s)
    ensures Next(r, s).full == if s.Acquire? then true else if s.CheckCancelled? || s.Release? then false else r.full
    ensures s.Acquire? ==> !r.full
    ensures s.CheckCancelled? || s.Release? ==> Holds(r, s.c)
  {}

  lemma {:induction false} RunsStaySound<V(!new)>(r: Reader<V>, steps: seq<Step<V>>, t: Reader<V>)
    requires Sound(r) && Run(r, steps, t)
    ensures Sound(t)
    decreases |steps|
  {
    hide Sound, Next, Enabled;
    if steps != [] {
      StepKeepsSound(r, steps[0]);
      RunsStaySound(Next(r, steps[0]), steps[1..], t);
    }
  }

  /** In every reachable state at most one load runs, and never while another call holds the slot. */
  lemma {:induction false} OneLoadAtATime<V(!new)>(steps: seq<Step<V>>, r: Reader<V>, c: nat, d: nat)
    requires Run(Fresh(), steps, r) && c in r.calls && d in r.calls
    requires r.calls[c].worker.Loading? && Holds(r, d)
    ensures c == d
  {
    FreshIsSound<V>();
    RunsStaySound(Fresh(), steps, r);
    hide Run;
  }

  /** A call sends to the slot at most once, and once it is over it has received exactly as often. */
  lemma {:induction false} SlotReleasedOncePerAcquire<V(!new)>(steps: seq<Step<V>>, r: Reader<V>, c: nat)
    requires Run(Fresh(), steps, r)
    ensures Count(r.releases, c) <= Count(r.acquires, c) <= 1
    ensures !Holds(r, c) ==> Count(r.releases, c) == Count(r.acquires, c)
  {
    FreshIsSound<V>();
    RunsStaySound(Fresh(), steps, r);
    assert c in r.calls ==> Fits(r, c);
    hide Run;
  }

  // ------------------------------------------------------ whose result it is

  /** What the call's own load returned, if it has. */
  function Loaded<V>(steps: seq<Step<V>>, c: nat): Option<V> {
    if steps == [] then None
    else
      var s := steps[|steps| - 1];
      if s.LoadReturns? && s.c == c then Some(s.value) else Loaded(steps[..|steps| - 1], c)
  }

  predicate Carries<V(==)>(call: Call<V>, v: V) {
    || (call.worker.Offering? && call.worker.value == v)
    || (call.phase.Got? && call.phase.value == v) || (call.phase.Returned? && call.phase.value == v)
  }

  lemma {:induction false} RunSnoc<V(!new)>(r: Reader<V>, steps: seq<Step<V>>, t: Reader<V>) returns (m: Reader<V>)
    requires steps != [] && Run(r, steps, t)
    ensures Run(r, steps[..|steps| - 1], m) && Enabled(m, steps[|steps| - 1]) && t == Next(m, steps[|steps| - 1])
    decreases |steps|
  {
    hide Next, Enabled;
    if |steps| == 1 {
      m := r;
      assert steps[..0] == [] && Run(Next(r, steps[0]), steps[1..], t);
    } else {
      m := RunSnoc(Next(r, steps[0]), steps[1..], t);
      assert steps[..|steps| - 1][1..] == steps[1..][..|steps[1..]| - 1];
    }
  }

  /** A result a call holds or returned came from the load that call started. */
  lemma {:induction false} ResultsAreOwn<V(!new)>(steps: seq<Step<V>>, r: Reader<V>, c: nat, v: V)
    requires Run(Fresh(), steps, r) && c in r.calls && Carries(r.calls[c], v)
    ensures Loaded(steps, c) == Some(v)
    decreases |steps|
  {
    if steps != [] {
      var front, s := steps[..|steps| - 1], steps[|steps| - 1];
      var m := RunSnoc(Fresh(), steps, r);
      if s.c == c {
        FreshIsSound<V>();
        RunsStaySound(Fresh(), front, m);
        OwnResult(m, s, v);
        if !(s.LoadReturns? && s.value == v) { ResultsAreOwn(front, m, c, v); }
      } else {
        OthersStay(m, s, c);
        ResultsAreOwn(front, m, c, v);
      }
      hide Run, Next, Enabled, Holds, Fits;
    }
  }

  lemma {:induction false} OwnResult<V(!new)>(m: Reader<V>, s: Step<V>, v: V)
    requires Sound(m) && Enabled(m, s) && s.c in Next(m, s).calls && Carries(Next(m, s).calls[s.c], v)
    ensures if s.LoadReturns? then s.value == v else s.c in m.calls && Carries(m.calls[s.c], v)
  {
    assert s.c in m.calls ==> Fits(m, s.c);
  }

  predicate IsReturned<V>(r: Reader<V>, c: nat) { c in r.calls && r.calls[c].phase.Returned? }

  /** A call that is over never changes again. */
  lemma {:induction false} ReturnedIsFinal<V>(r: Reader<V>, s: Step<V>, c: nat)
    requires Sound(r) && Enabled(r, s) && c in r.calls && (r.calls[c].phase.Returned? || r.calls[c].phase.Cancelled?)
    ensures c in Next(r, s).calls && Next(r, s).calls[c].phase == r.calls[c].phase
  {
    assert Fits(r, c);
  }

  lemma {:induction false} FinalCheckReturns<V>(r: Reader<V>, s: Step<V>, c: nat)
    requires Enabled(r, s)
    ensures s == FinalAlive(c) ==> c !in r.done && IsReturned(Next(r, s), c)
    ensures s != FinalAlive(c) && IsReturned(Next(r, s), c) ==> IsReturned(r, c)
    ensures c in Next(r, s).done <==> c in r.done || s == Cancel(c)
  {}

  /**
   * Over every run: a call has a result exactly when its final check found it
   * alive, and nobody had cancelled it at any time before that check.
   */
  lemma {:induction false} CancelledGetNothing<V(!new)>(steps: seq<Step<V>>, r: Reader<V>, c: nat)
    requires Run(Fresh(), steps, r)
    ensures IsReturned(r, c) <==> FinalAlive(c) in steps
    ensures forall k :: 0 <= k < |steps| && steps[k] == FinalAlive(c) ==> Cancel(c) !in steps[..k]
    ensures c in r.done <==> Cancel(c) in steps
    decreases |steps|
  {
    if steps != [] {
      var front, s := steps[..|steps| - 1], steps[|steps| - 1];
      var m := RunSnoc(Fresh(), steps, r);
      CancelledGetNothing(front, m, c);
      FreshIsSound<V>();
      RunsStaySound(Fresh(), front, m);
      FinalCheckReturns(m, s, c);
      if IsReturned(m, c) { ReturnedIsFinal(m, s, c); }
      hide Run, Next, Enabled, Sound;
      assert steps == front + [s];
      forall k | 0 <= k < |steps| && steps[k] == FinalAlive(c)
        ensures Cancel(c) !in steps[..k]
      {
        assert steps[..k] == front[..k];
        if k < |front| { assert front[k] == FinalAlive(c); } else { assert front[..k] == front; }
      }
    }
  }

  // ------------------------------------------------------------- no deadlock

  /**
   * A worker whose load returned can always release the slot, whatever every
   * other call does: it delivers or abandons its result, and then receives
   * from the slot.
   */
  lemma {:induction false} WorkerCanRelease<V(!new)>(r: Reader<V>, c: nat) returns (steps: seq<Step<V>>)
    requires Sound(r) && c in r.calls && (r.calls[c].worker.Offering? || r.calls[c].worker.Releasing?)
    ensures |steps| <= 2 && (forall s <- steps :: s.Deliver? || s.Abandon? || s.Release?) && (forall s <- steps :: s.c == c)
    ensures exists t :: Run(r, steps, t) && !t.full
  {
    assert Fits(r, c) && Holds(r, c) && r.full;
    if r.calls[c].worker.Releasing? {
      steps := [Release(c)];
      var t := Next(r, Release(c));
      assert Run(t, [], t) && steps[1..] == [];
      assert Run(r, steps, t);
    } else {
      var first: Step<V> := if r.calls[c].phase.Receiving? then Deliver(c) else Abandon(c);
      assert Enabled(r, first);
      var m := Next(r, first);
      assert Enabled(m, Release(c));
      var t := Next(m, Release(c));
      steps := [first, Release(c)];
      assert steps[1..] == [Release(c)] && steps[1..][1..] == [];
      assert Run(t, steps[1..][1..], t);
      assert Run(m, steps[1..], t);
      assert Run(r, steps, t);
    }
  }

  /** So a waiting caller is kept from the slot only by a load that has not returned, or by a caller about to start one. */
  lemma {:induction false} WaitersAreBlockedByOneLoad<V(!new)>(r: Reader<V>, c: nat)
    requires Sound(r) && c in r.calls && r.calls[c].phase.Waiting? && !Enabled(r, Acquire(c))
    ensures exists d :: Holds(r, d) && d != c && forall e :: Holds(r, e) ==> e == d
  {
    var d :| Holds(r, d);
    assert Fits(r, c);
    assert !Holds(r, c);
  }
}
