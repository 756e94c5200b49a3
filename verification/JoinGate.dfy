/** The first-join gate: watcher threads queue changes until the gossip topic has a
    neighbour; the first NeighborUp callback drains the queue. Interleaved at the
    grain of lock, flag read and compare-and-swap. */
module JoinGate {
  import opened Prelude

  type Tid = nat

  /** A watcher thread in `enqueue_initial_broadcast(rel)`. */
  datatype Enqueuer =
    | Wants(rel: string)
    | HasLock(rel: string)
    | ReadFlag(rel: string, joined: bool)
    | Inserted(rel: string)
    | Answered(rel: string, queued: bool)

  /** A NeighborUp callback: `mark_first_join`, then `drain_pending_initial`. */
  datatype Callback =
    | Entered
    | Lost
    | Won
    | Draining
    | Drained(paths: set<string>)
    | Finished(paths: set<string>)

  datatype Gate = Gate(
    joined: bool,
    queue: set<string>,
    lock: Option<Tid>,
    enqueuers: map<Tid, Enqueuer>,
    callbacks: map<Tid, Callback>)

  const CLOSED: Gate := Gate(false, {}, None, map[], map[])

  datatype Step =
    | Enqueue(t: Tid, rel: string)      // a call of enqueue_initial_broadcast
    | Lock(t: Tid)
    | Read(t: Tid)                      // the flag, again, under the lock
    | Insert(t: Tid)
    | Unlock(t: Tid)                    // and return
    | NeighborUp(t: Tid)                // a callback starts
    | CompareAndSwap(t: Tid)
    | LockForDrain(t: Tid)
    | Drain(t: Tid)
    | UnlockDrained(t: Tid)

  predicate Fresh(g: Gate, t: Tid) { t !in g.enqueuers && t !in g.callbacks }

  predicate Enabled(g: Gate, step: Step) {
    match step
    case Enqueue(t, _) => Fresh(g, t)
    case Lock(t) => t in g.enqueuers && g.enqueuers[t].Wants? && g.lock == None
    case Read(t) => t in g.enqueuers && g.enqueuers[t].HasLock?
    case Insert(t) => t in g.enqueuers && g.enqueuers[t].ReadFlag? && !g.enqueuers[t].joined
    case Unlock(t) =>
      && t in g.enqueuers
      && (g.enqueuers[t].Inserted? || (g.enqueuers[t].ReadFlag? && g.enqueuers[t].joined))
    case NeighborUp(t) => Fresh(g, t)
    case CompareAndSwap(t) => t in g.callbacks && g.callbacks[t].Entered?
    case LockForDrain(t) => t in g.callbacks && g.callbacks[t].Won? && g.lock == None
    case Drain(t) => t in g.callbacks && g.callbacks[t].Draining?
    case UnlockDrained(t) => t in g.callbacks && g.callbacks[t].Drained?
  }

  function Next(g: Gate, step: Step): Gate
    requires Enabled(g, step)
  {
    match step
    case Enqueue(t, rel) => g.(enqueuers := g.enqueuers[t := Wants(rel)])
    case Lock(t) => g.(lock := Some(t), enqueuers := g.enqueuers[t := HasLock(g.enqueuers[t].rel)])
    case Read(t) => g.(enqueuers := g.enqueuers[t := ReadFlag(g.enqueuers[t].rel, g.joined)])
    case Insert(t) =>
      var rel := g.enqueuers[t].rel;
      g.(queue := g.queue + {rel}, enqueuers := g.enqueuers[t := Inserted(rel)])
    case Unlock(t) =>
      g.(lock := None,
         enqueuers := g.enqueuers[t := Answered(g.enqueuers[t].rel, g.enqueuers[t].Inserted?)])
    case NeighborUp(t) => g.(callbacks := g.callbacks[t := Entered])
    case CompareAndSwap(t) =>
      if g.joined then g.(callbacks := g.callbacks[t := Lost])
      else g.(joined := true, callbacks := g.callbacks[t := Won])
    case LockForDrain(t) => g.(lock := Some(t), callbacks := g.callbacks[t := Draining])
    case Drain(t) => g.(queue := {}, callbacks := g.callbacks[t := Callback.Drained(g.queue)])
    case UnlockDrained(t) => g.(lock := None, callbacks := g.callbacks[t := Finished(g.callbacks[t].paths)])
  }

  predicate Runs(g: Gate, steps: seq<Step>)
    decreases |steps|
  {
    steps == [] || (Enabled(g, steps[0]) && Runs(Next(g, steps[0]), steps[1..]))
  }

  function After(g: Gate, steps: seq<Step>): Gate
    requires Runs(g, steps)
    decreases |steps|
  {
    if steps == [] then g else After(Next(g, steps[0]), steps[1..])
  }

  predicate PastSwap(c: Callback) { !c.Entered? && !c.Lost? }

  predicate HasDrained(c: Callback) { c.Drained? || c.Finished? }

  /** The callback that won has emptied the queue. */
  ghost predicate DrainDone(g: Gate) {
    exists t :: t in g.callbacks && HasDrained(g.callbacks[t])
  }

  ghost predicate Inv(g: Gate) {
    // the lock
    && (forall t :: t in g.enqueuers && (g.enqueuers[t].HasLock? || g.enqueuers[t].ReadFlag? || g.enqueuers[t].Inserted?)
          ==> g.lock == Some(t))
    && (forall t :: t in g.callbacks && (g.callbacks[t].Draining? || g.callbacks[t].Drained?) ==> g.lock == Some(t))
    && g.enqueuers.Keys !! g.callbacks.Keys
    // one winner
    && (forall t, u :: t in g.callbacks && u in g.callbacks && PastSwap(g.callbacks[t]) && PastSwap(g.callbacks[u]) ==> t == u)
    && (g.joined <==> exists t :: t in g.callbacks && PastSwap(g.callbacks[t]))
    // what was read, queued and answered
    && (forall t :: t in g.enqueuers && g.enqueuers[t].ReadFlag? ==>
          if g.enqueuers[t].joined then g.joined else !DrainDone(g))
    && (forall t :: t in g.enqueuers && (g.enqueuers[t].Inserted? || (g.enqueuers[t].Answered? && g.enqueuers[t].queued))
          ==> Held(g, g.enqueuers[t].rel))
    && (forall t :: t in g.enqueuers && g.enqueuers[t].Answered? && !g.enqueuers[t].queued ==> g.joined)
    && (forall t :: t in g.callbacks && g.callbacks[t].Lost? ==> g.joined)
    && (DrainDone(g) ==> g.queue == {})
  }

  /** `rel` is in the queue, or was in the one drain. */
  ghost predicate Held(g: Gate, rel: string) {
    if DrainDone(g) then exists t :: t in g.callbacks && HasDrained(g.callbacks[t]) && rel in g.callbacks[t].paths
    else rel in g.queue
  }

  /** A step of a watcher thread does nothing to the callbacks. */
  lemma EnqueuerArrives(g: Gate, step: Step)
    requires Inv(g) && Enabled(g, step) && (step.Enqueue? || step.Lock?)
    ensures Inv(Next(g, step))
  {
    SameCallbacks(g, Next(g, step));
  }

  lemma EnqueuerReads(g: Gate, step: Step)
    requires Inv(g) && Enabled(g, step) && step.Read?
    ensures Inv(Next(g, step))
  {
    SameCallbacks(g, Next(g, step));
    if !g.joined { NotDrainedYet(g); }
  }

  lemma NotDrainedYet(g: Gate)
    requires Inv(g) && !g.joined
    ensures !DrainDone(g)
  {
  }

  lemma EnqueuerInserts(g: Gate, step: Step)
    requires Inv(g) && Enabled(g, step) && step.Insert?
    ensures Inv(Next(g, step))
  {
    SameCallbacks(g, Next(g, step));
  }

  lemma EnqueuerLeaves(g: Gate, step: Step)
    requires Inv(g) && Enabled(g, step) && step.Unlock?
    ensures Inv(Next(g, step))
  {
    SameCallbacks(g, Next(g, step));
  }

  lemma SameCallbacks(g: Gate, h: Gate)
    requires h.callbacks == g.callbacks && g.queue <= h.queue
    ensures DrainDone(h) <==> DrainDone(g)
    ensures forall rel :: Held(g, rel) ==> Held(h, rel)
  {
  }

  lemma CallbackStarts(g: Gate, t: Tid)
    requires Inv(g) && Enabled(g, NeighborUp(t))
    ensures Inv(Next(g, NeighborUp(t)))
  {
    SameDrains(g, Next(g, NeighborUp(t)));
    PastSwapKept(g, Next(g, NeighborUp(t)), t);
  }

  lemma CallbackSwaps(g: Gate, t: Tid)
    requires Inv(g) && Enabled(g, CompareAndSwap(t))
    ensures Inv(Next(g, CompareAndSwap(t)))
  {
    var h := Next(g, CompareAndSwap(t));
    SameDrains(g, h);
    PastSwapKept(g, h, t);
    if !g.joined { assert PastSwap(h.callbacks[t]); }
  }

  lemma CallbackLocks(g: Gate, t: Tid)
    requires Inv(g) && Enabled(g, LockForDrain(t))
    ensures Inv(Next(g, LockForDrain(t)))
  {
    var h := Next(g, LockForDrain(t));
    SameDrains(g, h);
    PastSwapKept(g, h, t);
    assert PastSwap(h.callbacks[t]) && PastSwap(g.callbacks[t]);
  }

  lemma PastSwapKept(g: Gate, h: Gate, t: Tid)
    requires forall u :: u in g.callbacks && u != t ==> u in h.callbacks && h.callbacks[u] == g.callbacks[u]
    ensures forall u :: u in g.callbacks && u != t && PastSwap(g.callbacks[u]) ==> u in h.callbacks && PastSwap(h.callbacks[u])
  {
  }

  /** A step that drains nothing and leaves the queue. */
  lemma SameDrains(g: Gate, h: Gate)
    requires h.queue == g.queue
    requires forall t :: t in g.callbacks && HasDrained(g.callbacks[t]) ==> t in h.callbacks && h.callbacks[t] == g.callbacks[t]
    requires forall t :: t in h.callbacks && HasDrained(h.callbacks[t]) ==> t in g.callbacks && h.callbacks[t] == g.callbacks[t]
    ensures DrainDone(h) <==> DrainDone(g)
    ensures forall rel :: Held(g, rel) ==> Held(h, rel)
  {
    if DrainDone(g) {
      var t :| t in g.callbacks && HasDrained(g.callbacks[t]);
      assert t in h.callbacks && HasDrained(h.callbacks[t]);
    }
    forall rel | Held(g, rel) ensures Held(h, rel) {
      if DrainDone(g) {
        var t :| t in g.callbacks && HasDrained(g.callbacks[t]) && rel in g.callbacks[t].paths;
        assert t in h.callbacks && HasDrained(h.callbacks[t]);
      }
    }
  }

  lemma DrainSteps(g: Gate, step: Step)
    requires Inv(g) && Enabled(g, step)
    requires step.Drain? || step.UnlockDrained?
    ensures Inv(Next(g, step))
  {
    var h := Next(g, step);
    assert PastSwap(g.callbacks[step.t]) && HasDrained(h.callbacks[step.t]) && PastSwap(h.callbacks[step.t]);
    assert DrainDone(h);
    if step.Drain? {
      assert !DrainDone(g);
    }
    forall rel | Held(g, rel) ensures Held(h, rel) {
      assert rel in h.callbacks[step.t].paths;
    }
  }

  lemma InvKept(g: Gate, step: Step)
    requires Inv(g) && Enabled(g, step)
    ensures Inv(Next(g, step))
  {
    match step
    case NeighborUp(t) => CallbackStarts(g, t);
    case CompareAndSwap(t) => CallbackSwaps(g, t);
    case LockForDrain(t) => CallbackLocks(g, t);
    case Drain(_) => DrainSteps(g, step);
    case UnlockDrained(_) => DrainSteps(g, step);
    case Read(_) => EnqueuerReads(g, step);
    case Insert(_) => EnqueuerInserts(g, step);
    case Unlock(_) => EnqueuerLeaves(g, step);
    case _ => EnqueuerArrives(g, step);
  }

  lemma {:induction false} InvAlong(g: Gate, steps: seq<Step>)
    requires Inv(g) && Runs(g, steps)
    ensures Inv(After(g, steps))
    decreases |steps|
  {
    if steps != [] {
      InvKept(g, steps[0]);
      InvAlong(Next(g, steps[0]), steps[1..]);
    }
  }

  /** Main result: nothing is lost in the gate. For any number of watcher threads and
      callbacks, in every run: at most one callback drains; a change whose caller was
      told it is queued is in the queue or in that drain; a caller is told otherwise
      only after the join; and after the drain the queue stays empty. */
  lemma GateLosesNothing(steps: seq<Step>)
    requires Runs(CLOSED, steps)
    ensures var g := After(CLOSED, steps);
            && (forall t, u :: t in g.callbacks && u in g.callbacks && PastSwap(g.callbacks[t]) && PastSwap(g.callbacks[u])
                  ==> t == u)
            && (forall t :: t in g.enqueuers && g.enqueuers[t].Answered? ==>
                  if g.enqueuers[t].queued then Held(g, g.enqueuers[t].rel) else g.joined)
            && (DrainDone(g) ==> g.queue == {})
  {
    InvAlong(CLOSED, steps);
  }

  /** When all threads have come to an end, every queued change is in the drain of the
      callback that won, if there was a callback at all. */
  lemma AllDrainedAtTheEnd(steps: seq<Step>, t: Tid)
    requires Runs(CLOSED, steps)
    requires var g := After(CLOSED, steps);
             && (forall u :: u in g.callbacks ==> g.callbacks[u].Lost? || g.callbacks[u].Finished?)
             && g.callbacks != map[]
             && t in g.enqueuers && g.enqueuers[t].Answered? && g.enqueuers[t].queued
    ensures var g := After(CLOSED, steps);
            exists u :: u in g.callbacks && g.callbacks[u].Finished? && g.enqueuers[t].rel in g.callbacks[u].paths
                        && forall v :: v in g.callbacks && v != u ==> g.callbacks[v].Lost?
  {
    var g := After(CLOSED, steps);
    InvAlong(CLOSED, steps);
    var c :| c in g.callbacks;
    if g.callbacks[c].Finished? { assert PastSwap(g.callbacks[c]); }
    var w :| w in g.callbacks && PastSwap(g.callbacks[w]);
    assert HasDrained(g.callbacks[w]);
    var u :| u in g.callbacks && HasDrained(g.callbacks[u]) && g.enqueuers[t].rel in g.callbacks[u].paths;
    assert PastSwap(g.callbacks[u]);
  }
}
