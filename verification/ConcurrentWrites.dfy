/** Two users write one path at two nodes, neither having seen the other's update. Whether
    the nodes agree in the end is decided by what comes first at each of them after its
    write: the event of that write or the other's update. */
module ConcurrentWrites {
  import opened Prelude
  import opened Nodes
  import opened Mesh
  import opened LoneWriter
  import Quiescence

  /** How far things are at a node that wrote. */
  datatype Stage =
    | Idle               // it has yet to write
    | Unsent             // the event of its write is still to come
    | SentOut            // its update is out
    | Overtaken          // the other's update came before the event of its own write
    | OvertakenSeen      // and its event has been absorbed
    | Swapped            // its update is out, and the other's has come in
    | SwappedSeen        // and its event has been absorbed

  predicate HasSent(stage: Stage) { stage.SentOut? || stage.Swapped? || stage.SwappedSeen? }

  predicate HasTakenIn(stage: Stage) { !stage.Idle? && !stage.Unsent? && !stage.SentOut? }

  predicate AwaitsEvent(stage: Stage) { stage.Unsent? || stage.Overtaken? || stage.Swapped? }

  /** What is done with the path at a node: its user writes, its closure handles an
      event, or it takes in an update. */
  datatype Deed = Wrote | Saw | Took

  function Moved(stage: Stage, deed: Deed): Stage {
    match stage
    case Idle => if deed.Wrote? then Unsent else Idle
    case Unsent => if deed.Took? then Overtaken else SentOut
    case SentOut => if deed.Took? then Swapped else SentOut
    case Overtaken => OvertakenSeen
    case Swapped => SwappedSeen
    case _ => stage
  }

  type Two = i: nat | i < 2

  function Other(i: Two): Two { if i == 0 then 1 else 0 }

  /** One of something for each of the two nodes. */
  datatype Pair<T> = Pair(first: T, second: T) {
    function At(i: Two): T { if i == 0 then first else second }

    function With(i: Two, x: T): (r: Pair<T>)
      ensures r.At(i) == x && r.At(Other(i)) == At(Other(i))
    {
      if i == 0 then Pair(x, second) else Pair(first, x)
    }
  }

  /** What a node knows about the path, by what it knew before and by its stage. */
  function SlotAt(before: Slot, own: Bytes, other: Bytes, stage: Stage): Slot {
    var written := before.(file := Some(own), dirty := true);
    match stage
    case Idle => before
    case Unsent => written
    case SentOut => Sent(written, own)
    case Overtaken => Received(written, other)
    case OvertakenSeen => Settled(written, other)
    case Swapped => Received(Sent(written, own), other)
    case SwappedSeen => Settled(Sent(written, own), other)
  }

  function Letter(i: Two, p: Rel, v: Pair<Bytes>): UpsertMsg { UpsertMsg(Other(i), i, p, v.At(i)) }

  /** The short id under which node `i` keeps backups for updates of the other. */
  function TagFor(b: State, i: Two): string
    requires |b.nodes| == 2
  {
    ShortId(b.nodes[Other(i)].id)
  }

  predicate AtStage(b: State, s: State, p: Rel, v: Pair<Bytes>, i: Two, stage: Stage)
    requires |b.nodes| == |s.nodes| == 2
  {
    SlotOf(s.nodes[i], p, TagFor(b, i)) == SlotAt(SlotOf(b.nodes[i], p, TagFor(b, i)), v.At(i), v.At(Other(i)), stage)
  }

  /** `s` is reached from `b`, quiet at `p`, by the writes made so far; each update is in flight
      from its sending to its reception. */
  ghost predicate Crossing(b: State, s: State, p: Rel, v: Pair<Bytes>, st: Pair<Stage>)
    requires |b.nodes| == 2
  {
    && SameShape(b, s)
    && AtStage(b, s, p, v, 0, st.first) && AtStage(b, s, p, v, 1, st.second)
    && TakenFromSent(st)
    && LettersRight(s, p, v, st)
  }

  predicate TakenFromSent(st: Pair<Stage>) {
    && (HasTakenIn(st.first) ==> HasSent(st.second))
    && (HasTakenIn(st.second) ==> HasSent(st.first))
  }

  ghost predicate LettersRight(s: State, p: Rel, v: Pair<Bytes>, st: Pair<Stage>) {
    && (forall t :: t in s.tombstones ==> t.path != p)
    && (forall u :: u in s.upserts && u.path == p ==> s.upserts[u] == 1 && u in {Letter(0, p, v), Letter(1, p, v)})
    && (forall i: Two :: Letter(i, p, v) in s.upserts <==> HasSent(st.At(i)) && !HasTakenIn(st.At(Other(i))))
  }

  predicate Suitable(b: State, p: Rel, v: Pair<Bytes>)
    requires |b.nodes| == 2
  {
    && |v.first| <= MAX_FILE_SIZE && |v.second| <= MAX_FILE_SIZE
    && Noticed(b, 0, p, v.first) && Noticed(b, 1, p, v.second)
  }

  const BOTH_IDLE: Pair<Stage> := Pair(Idle, Idle)

  lemma CrossingStarts(b: State, p: Rel, v: Pair<Bytes>)
    requires |b.nodes| == 2 && QuietAt(b, p)
    ensures Crossing(b, b, p, v, BOTH_IDLE)
  {
  }

  // ---------------------------------------------------------------- one step

  lemma CrossingElsewhere(b: State, s: State, t: State, p: Rel, v: Pair<Bytes>, st: Pair<Stage>)
    requires |b.nodes| == 2 && Crossing(b, s, p, v, st)
    requires SameAt(s, t, p, TagFor(b, 0)) && SameAt(s, t, p, TagFor(b, 1))
    ensures Crossing(b, t, p, v, st)
  {
    forall u: UpsertMsg | u.path == p ensures u in t.upserts <==> u in s.upserts {
      assert t.upserts[u] == s.upserts[u];
    }
    forall d: TombstoneMsg | d.path == p ensures d in t.tombstones <==> d in s.tombstones {
      assert t.tombstones[d] == s.tombstones[d];
    }
    forall i: Two ensures AtStage(b, t, p, v, i, st.At(i)) {
      assert AtStage(b, s, p, v, i, st.At(i));
      assert SlotOf(t.nodes[i], p, TagFor(b, i)) == SlotOf(s.nodes[i], p, TagFor(b, i));
    }
  }

  /** A stage awaits an event exactly when the path is dirty; the marker is the hash of
      the file unless the node's own write is unsent. */
  lemma SlotTells(before: Slot, own: Bytes, other: Bytes, stage: Stage)
    requires !before.dirty && before.marker != Some(Hash(own))
    ensures var x := SlotAt(before, own, other, stage);
            && (x.dirty <==> AwaitsEvent(stage))
            && (!stage.Idle? ==> x.file == Some(if HasTakenIn(stage) then other else own))
            && (HasTakenIn(stage) && own != other ==> x.backup == Some(own))
            && (AwaitsEvent(stage) ==>
                  && (x.marker == Some(Hash(x.file.value)) <==> !stage.Unsent?)
                  && SlotAt(before, own, other, Moved(stage, Saw))
                     == if stage.Unsent? then Sent(x, own) else x.(marker := None, dirty := false))
  {
  }

  lemma NodeTells(b: State, s: State, p: Rel, v: Pair<Bytes>, i: Two, stage: Stage)
    requires |b.nodes| == |s.nodes| == 2 && QuietAt(b, p) && Suitable(b, p, v) && AtStage(b, s, p, v, i, stage)
    ensures p in s.nodes[i].dirty <==> AwaitsEvent(stage)
    ensures !stage.Idle? ==> Lookup(s.nodes[i].files, p) == Some(v.At(if HasTakenIn(stage) then Other(i) else i))
    ensures HasTakenIn(stage) && v.first != v.second ==>
              Lookup(s.nodes[i].backups, (p, TagFor(b, i))) == Some(v.At(i))
  {
    SlotTells(SlotOf(b.nodes[i], p, TagFor(b, i)), v.At(i), v.At(Other(i)), stage);
  }

  /** What the closure makes of an event at a stage that awaits one. */
  lemma EventAtStage(b: State, s: State, p: Rel, v: Pair<Bytes>, i: Two, stage: Stage)
    requires |b.nodes| == |s.nodes| == 2 && QuietAt(b, p) && Suitable(b, p, v) && AtStage(b, s, p, v, i, stage)
    requires p in s.nodes[i].dirty
    ensures AwaitsEvent(stage) && p in s.nodes[i].files
    ensures var (m, out) := OnEvent(s.nodes[i], p, false, true);
            && out == (if stage.Unsent? then SendUpsert(v.At(i)) else Nothing)
            && SlotOf(m, p, TagFor(b, i))
               == SlotAt(SlotOf(b.nodes[i], p, TagFor(b, i)), v.At(i), v.At(Other(i)), Moved(stage, Saw))
  {
    SlotTells(SlotOf(b.nodes[i], p, TagFor(b, i)), v.At(i), v.At(Other(i)), stage);
    NodeTells(b, s, p, v, i, stage);
    SlotEvent(s.nodes[i], p, TagFor(b, i));
  }

  lemma LettersAfterSending(s: State, t: State, p: Rel, v: Pair<Bytes>, st: Pair<Stage>, i: Two)
    requires LettersRight(s, p, v, st) && st.At(i).Unsent? && !HasTakenIn(st.At(Other(i)))
    requires t.tombstones == s.tombstones && t.upserts == s.upserts + UpsertCopies(2, i, p, v.At(i))
    ensures LettersRight(t, p, v, st.With(i, SentOut))
  {
    var mine := Letter(i, p, v);
    UpsertCopiesAre(2, i, p, v.At(i));
    assert UpsertCopies(2, i, p, v.At(i))[mine] == 1;
    assert mine !in s.upserts && t.upserts[mine] == 1;
    forall u: UpsertMsg | u != mine ensures t.upserts[u] == s.upserts[u] {
      assert UpsertCopies(2, i, p, v.At(i))[u] == 0;
    }
    OneMoreLetter(s, t, p, v, st, i);
  }

  lemma OneMoreLetter(s: State, t: State, p: Rel, v: Pair<Bytes>, st: Pair<Stage>, i: Two)
    requires LettersRight(s, p, v, st) && st.At(i).Unsent? && !HasTakenIn(st.At(Other(i)))
    requires t.tombstones == s.tombstones && t.upserts[Letter(i, p, v)] == 1
    requires forall u: UpsertMsg :: u != Letter(i, p, v) ==> t.upserts[u] == s.upserts[u]
    ensures LettersRight(t, p, v, st.With(i, SentOut))
  {
    var next := st.With(i, SentOut);
    forall u | u in t.upserts && u.path == p ensures t.upserts[u] == 1 && u in {Letter(0, p, v), Letter(1, p, v)} {
      assert u != Letter(i, p, v) ==> u in s.upserts;
    }
    forall j: Two ensures Letter(j, p, v) in t.upserts <==> HasSent(next.At(j)) && !HasTakenIn(next.At(Other(j))) {
      assert Letter(j, p, v) in s.upserts <==> HasSent(st.At(j)) && !HasTakenIn(st.At(Other(j)));
    }
  }

  lemma LettersAfterAbsorbing(s: State, t: State, p: Rel, v: Pair<Bytes>, st: Pair<Stage>, i: Two)
    requires LettersRight(s, p, v, st) && (st.At(i).Overtaken? || st.At(i).Swapped?)
    requires t.tombstones == s.tombstones && t.upserts == s.upserts
    ensures LettersRight(t, p, v, st.With(i, Moved(st.At(i), Saw)))
  {
    var next := st.With(i, Moved(st.At(i), Saw));
    forall j: Two ensures Letter(j, p, v) in t.upserts <==> HasSent(next.At(j)) && !HasTakenIn(next.At(Other(j))) {
      assert Letter(j, p, v) in s.upserts <==> HasSent(st.At(j)) && !HasTakenIn(st.At(Other(j)));
    }
  }

  lemma LettersAfterEvent(s: State, t: State, p: Rel, v: Pair<Bytes>, st: Pair<Stage>, i: Two)
    requires LettersRight(s, p, v, st) && AwaitsEvent(st.At(i)) && TakenFromSent(st)
    requires t.tombstones == s.tombstones
    requires t.upserts == if st.At(i).Unsent? then s.upserts + UpsertCopies(2, i, p, v.At(i)) else s.upserts
    ensures LettersRight(t, p, v, st.With(i, Moved(st.At(i), Saw)))
    ensures TakenFromSent(st.With(i, Moved(st.At(i), Saw)))
  {
    if st.At(i).Unsent? {
      LettersAfterSending(s, t, p, v, st, i);
    } else {
      LettersAfterAbsorbing(s, t, p, v, st, i);
    }
  }

  /** `t` has the nodes of `s` but for node `i`, which is at `stage`. */
  predicate OnlyMoves(b: State, s: State, t: State, p: Rel, v: Pair<Bytes>, i: Two, stage: Stage)
    requires |b.nodes| == |s.nodes| == 2
  {
    && |t.nodes| == 2 && t.nodes[Other(i)] == s.nodes[Other(i)] && t.nodes[i].id == s.nodes[i].id
    && AtStage(b, t, p, v, i, stage)
  }

  lemma OneMoved(b: State, s: State, t: State, p: Rel, v: Pair<Bytes>, st: Pair<Stage>, i: Two, stage: Stage)
    requires |b.nodes| == 2 && Crossing(b, s, p, v, st) && OnlyMoves(b, s, t, p, v, i, stage)
    requires LettersRight(t, p, v, st.With(i, stage)) && TakenFromSent(st.With(i, stage))
    ensures Crossing(b, t, p, v, st.With(i, stage))
  {
    ShapeStays(b, s, t, i);
    if i == 0 {
      OtherStays(b, s, t, p, v, 1, st.second);
    } else {
      OtherStays(b, s, t, p, v, 0, st.first);
    }
  }

  lemma ShapeStays(b: State, s: State, t: State, i: Two)
    requires |b.nodes| == 2 && SameShape(b, s)
    requires |t.nodes| == 2 && t.nodes[Other(i)].id == s.nodes[Other(i)].id && t.nodes[i].id == s.nodes[i].id
    ensures SameShape(b, t)
  {
    forall k | 0 <= k < 2 ensures t.nodes[k].id == b.nodes[k].id {
      assert k == i || k == Other(i);
    }
  }

  lemma OtherStays(b: State, s: State, t: State, p: Rel, v: Pair<Bytes>, i: Two, stage: Stage)
    requires |b.nodes| == |s.nodes| == |t.nodes| == 2 && t.nodes[i] == s.nodes[i]
    requires AtStage(b, s, p, v, i, stage)
    ensures AtStage(b, t, p, v, i, stage)
  {
  }

  lemma EventMoves(b: State, s: State, p: Rel, v: Pair<Bytes>, i: Two, stage: Stage)
    requires |b.nodes| == |s.nodes| == 2 && QuietAt(b, p) && Suitable(b, p, v) && AtStage(b, s, p, v, i, stage)
    requires Enabled(s, Event(i, p, false, true))
    ensures var t := Next(s, Event(i, p, false, true));
            && AwaitsEvent(stage)
            && OnlyMoves(b, s, t, p, v, i, Moved(stage, Saw))
            && t.tombstones == s.tombstones
            && t.upserts == if stage.Unsent? then s.upserts + UpsertCopies(2, i, p, v.At(i)) else s.upserts
  {
    EventAtStage(b, s, p, v, i, stage);
  }

  lemma CrossingEvent(b: State, s: State, p: Rel, v: Pair<Bytes>, st: Pair<Stage>, i: Two)
    requires |b.nodes| == 2 && QuietAt(b, p) && Suitable(b, p, v) && Crossing(b, s, p, v, st)
    requires Enabled(s, Event(i, p, false, true))
    ensures Crossing(b, Next(s, Event(i, p, false, true)), p, v, st.With(i, Moved(st.At(i), Saw)))
  {
    var t := Next(s, Event(i, p, false, true));
    assert AtStage(b, s, p, v, i, st.At(i));
    EventMoves(b, s, p, v, i, st.At(i));
    LettersAfterEvent(s, t, p, v, st, i);
    OneMoved(b, s, t, p, v, st, i, Moved(st.At(i), Saw));
  }

  lemma LettersAfterDelivery(s: State, t: State, p: Rel, v: Pair<Bytes>, st: Pair<Stage>, i: Two)
    requires !st.At(i).Idle?
    requires LettersRight(s, p, v, st) && Letter(Other(i), p, v) in s.upserts
    requires t.tombstones == s.tombstones && t.upserts == s.upserts - multiset{Letter(Other(i), p, v)}
    ensures !HasTakenIn(st.At(i)) && HasSent(st.At(Other(i)))
    ensures LettersRight(t, p, v, st.With(i, Moved(st.At(i), Took)))
  {
    var taken, next := Letter(Other(i), p, v), st.With(i, Moved(st.At(i), Took));
    assert taken !in t.upserts;
    forall u | u in t.upserts && u.path == p ensures t.upserts[u] == 1 && u in {Letter(0, p, v), Letter(1, p, v)} {
      assert u in s.upserts;
    }
    forall j: Two ensures Letter(j, p, v) in t.upserts <==> HasSent(next.At(j)) && !HasTakenIn(next.At(Other(j))) {
      assert Letter(j, p, v) in s.upserts <==> HasSent(st.At(j)) && !HasTakenIn(st.At(Other(j)));
      assert Letter(j, p, v) != taken ==> t.upserts[Letter(j, p, v)] == s.upserts[Letter(j, p, v)];
    }
  }

  lemma DeliveryAtStage(b: State, s: State, p: Rel, v: Pair<Bytes>, i: Two, stage: Stage)
    requires |b.nodes| == |s.nodes| == 2 && AtStage(b, s, p, v, i, stage) && !HasTakenIn(stage) && !stage.Idle?
    requires |v.At(Other(i))| <= MAX_FILE_SIZE
    ensures SlotOf(ReceiveUpsert(s.nodes[i], p, v.At(Other(i)), b.nodes[Other(i)].id, Applied(true)), p, TagFor(b, i))
            == SlotAt(SlotOf(b.nodes[i], p, TagFor(b, i)), v.At(i), v.At(Other(i)), Moved(stage, Took))
  {
    SlotReceived(s.nodes[i], p, v.At(Other(i)), b.nodes[Other(i)].id);
  }

  lemma DeliveryMoves(b: State, s: State, p: Rel, v: Pair<Bytes>, i: Two, stage: Stage)
    requires |b.nodes| == 2 && SameShape(b, s) && AtStage(b, s, p, v, i, stage)
    requires !HasTakenIn(stage) && !stage.Idle? && |v.At(Other(i))| <= MAX_FILE_SIZE
    requires Enabled(s, DeliverUpsert(Letter(Other(i), p, v), Applied(true)))
    ensures var t := Next(s, DeliverUpsert(Letter(Other(i), p, v), Applied(true)));
            && OnlyMoves(b, s, t, p, v, i, Moved(stage, Took))
            && t.tombstones == s.tombstones && t.upserts == s.upserts - multiset{Letter(Other(i), p, v)}
  {
    DeliveryAtStage(b, s, p, v, i, stage);
  }

  lemma CrossingDelivery(b: State, s: State, p: Rel, v: Pair<Bytes>, st: Pair<Stage>, i: Two)
    requires |b.nodes| == 2 && QuietAt(b, p) && Suitable(b, p, v) && Crossing(b, s, p, v, st)
    requires Enabled(s, DeliverUpsert(Letter(Other(i), p, v), Applied(true))) && !st.At(i).Idle?
    ensures Crossing(b, Next(s, DeliverUpsert(Letter(Other(i), p, v), Applied(true))), p, v,
                     st.With(i, Moved(st.At(i), Took)))
  {
    var t := Next(s, DeliverUpsert(Letter(Other(i), p, v), Applied(true)));
    assert AtStage(b, s, p, v, i, st.At(i));
    assert Letter(Other(i), p, v) in s.upserts <==> HasSent(st.At(Other(i))) && !HasTakenIn(st.At(Other(Other(i))));
    DeliveryMoves(b, s, p, v, i, st.At(i));
    AfterDelivery(b, s, t, p, v, st, i);
  }

  lemma AfterDelivery(b: State, s: State, t: State, p: Rel, v: Pair<Bytes>, st: Pair<Stage>, i: Two)
    requires |b.nodes| == 2 && Crossing(b, s, p, v, st) && !st.At(i).Idle?
    requires OnlyMoves(b, s, t, p, v, i, Moved(st.At(i), Took)) && Letter(Other(i), p, v) in s.upserts
    requires t.tombstones == s.tombstones && t.upserts == s.upserts - multiset{Letter(Other(i), p, v)}
    ensures Crossing(b, t, p, v, st.With(i, Moved(st.At(i), Took)))
  {
    LettersAfterDelivery(s, t, p, v, st, i);
    OneMoved(b, s, t, p, v, st, i, Moved(st.At(i), Took));
  }

  lemma CrossingWrite(b: State, s: State, p: Rel, v: Pair<Bytes>, st: Pair<Stage>, i: Two)
    requires |b.nodes| == 2 && Crossing(b, s, p, v, st) && st.At(i).Idle?
    ensures Crossing(b, Next(s, Write(i, p, v.At(i))), p, v, st.With(i, Unsent))
  {
    var t := Next(s, Write(i, p, v.At(i)));
    assert AtStage(b, s, p, v, i, Idle);
    assert AtStage(b, t, p, v, i, Unsent);
    LettersAfterWrite(s, t, p, v, st, i);
    OneMoved(b, s, t, p, v, st, i, Unsent);
  }

  lemma LettersAfterWrite(s: State, t: State, p: Rel, v: Pair<Bytes>, st: Pair<Stage>, i: Two)
    requires LettersRight(s, p, v, st) && st.At(i).Idle?
    requires t.upserts == s.upserts && t.tombstones == s.tombstones
    ensures LettersRight(t, p, v, st.With(i, Unsent))
  {
  }

  /** Something is done with `p` at node `i`. */
  predicate Concerns(step: Step, p: Rel, i: nat) { PathOf(step) == p && Quiescence.Target(step) == i }

  function DeedOf(step: Step): Deed {
    if ByUser(step) then Wrote else if step.DeliverUpsert? then Took else Saw
  }

  function AfterStep(st: Pair<Stage>, step: Step, p: Rel): Pair<Stage> {
    var i := Quiescence.Target(step);
    if PathOf(step) == p && i < 2 then st.With(i, Moved(st.At(i), DeedOf(step))) else st
  }

  /** On `p` nothing fails. */
  predicate NoFailureAt(s: State, step: Step, p: Rel)
    requires Enabled(s, step)
  {
    ByUser(step) || ReliableAt(s, step, p)
  }

  /** A step that fits: at an idle node nothing is done with `p` but its one write. */
  predicate Fits(st: Pair<Stage>, step: Step, p: Rel, v: Pair<Bytes>) {
    forall i: Two :: Concerns(step, p, i) ==>
      if st.At(i).Idle? then step == Write(i, p, v.At(i)) else !ByUser(step)
  }

  /** Such a step moves the stage of the node it concerns, if any. */
  lemma CrossingStep(b: State, s: State, p: Rel, v: Pair<Bytes>, st: Pair<Stage>, step: Step)
    requires |b.nodes| == 2 && QuietAt(b, p) && Suitable(b, p, v) && Crossing(b, s, p, v, st)
    requires Enabled(s, step) && NoFailureAt(s, step, p) && Fits(st, step, p, v)
    ensures Crossing(b, Next(s, step), p, v, AfterStep(st, step, p))
  {
    if PathOf(step) != p {
      OtherPathsSame(s, step, p, TagFor(b, 0));
      OtherPathsSame(s, step, p, TagFor(b, 1));
      CrossingElsewhere(b, s, Next(s, step), p, v, st);
    } else {
      var i: Two := Quiescence.Target(step);
      assert Concerns(step, p, i);
      if ByUser(step) {
        CrossingWrite(b, s, p, v, st, i);
      } else if step.Event? {
        assert AtStage(b, s, p, v, i, st.At(i));
        EventAtStage(b, s, p, v, i, st.At(i));
        CrossingEvent(b, s, p, v, st, i);
      } else {
        assert step.u == Letter(Other(i), p, v);
        CrossingDelivery(b, s, p, v, st, i);
      }
    }
  }

  // ---------------------------------------------------------------- whole runs

  predicate NoFailureRun(s: State, steps: seq<Step>, p: Rel)
    requires Runs(s, steps)
    decreases |steps|
  {
    steps == [] || (NoFailureAt(s, steps[0], p) && NoFailureRun(Next(s, steps[0]), steps[1..], p))
  }

  /** At node `i` the first thing done with `p` is the write of `bytes`, and no user does
      anything with it after that. `written`: it has been made already. */
  predicate OneWrite(steps: seq<Step>, p: Rel, i: nat, bytes: Bytes, written: bool) {
    if steps == [] then written
    else if !Concerns(steps[0], p, i) then OneWrite(steps[1..], p, i, bytes, written)
    else if ByUser(steps[0]) then !written && steps[0] == Write(i, p, bytes) && OneWrite(steps[1..], p, i, bytes, true)
    else written && OneWrite(steps[1..], p, i, bytes, true)
  }

  /** The first thing done with `p` at node `i`, its user's write apart, is the reception
      of an update. */
  predicate TakenInFirst(steps: seq<Step>, p: Rel, i: nat) {
    if steps == [] then false
    else if Concerns(steps[0], p, i) && !ByUser(steps[0]) then steps[0].DeliverUpsert?
    else TakenInFirst(steps[1..], p, i)
  }

  function AfterSteps(st: Pair<Stage>, steps: seq<Step>, p: Rel): Pair<Stage>
    decreases |steps|
  {
    if steps == [] then st else AfterSteps(AfterStep(st, steps[0], p), steps[1..], p)
  }

  predicate WasOvertaken(stage: Stage) { stage.Overtaken? || stage.OvertakenSeen? }

  lemma {:induction false} StagesTell(st: Pair<Stage>, steps: seq<Step>, p: Rel, i: Two, bytes: Bytes)
    requires OneWrite(steps, p, i, bytes, !st.At(i).Idle?)
    ensures !AfterSteps(st, steps, p).At(i).Idle?
    ensures WasOvertaken(AfterSteps(st, steps, p).At(i))
            <==> if st.At(i).Idle? || st.At(i).Unsent? then TakenInFirst(steps, p, i) else WasOvertaken(st.At(i))
    decreases |steps|
  {
    if steps != [] {
      StagesTell(AfterStep(st, steps[0], p), steps[1..], p, i, bytes);
    }
  }

  lemma {:induction false} CrossingAlong(b: State, s: State, p: Rel, v: Pair<Bytes>, st: Pair<Stage>, steps: seq<Step>)
    requires |b.nodes| == 2 && QuietAt(b, p) && Suitable(b, p, v) && Crossing(b, s, p, v, st)
    requires Runs(s, steps) && NoFailureRun(s, steps, p)
    requires OneWrite(steps, p, 0, v.first, !st.first.Idle?) && OneWrite(steps, p, 1, v.second, !st.second.Idle?)
    ensures Crossing(b, After(s, steps), p, v, AfterSteps(st, steps, p))
    decreases |steps|
  {
    if steps != [] {
      FitsNext(st, steps, p, v);
      CrossingStep(b, s, p, v, st, steps[0]);
      CrossingAlong(b, Next(s, steps[0]), p, v, AfterStep(st, steps[0], p), steps[1..]);
    }
  }

  lemma FitsNext(st: Pair<Stage>, steps: seq<Step>, p: Rel, v: Pair<Bytes>)
    requires steps != []
    requires OneWrite(steps, p, 0, v.first, !st.first.Idle?) && OneWrite(steps, p, 1, v.second, !st.second.Idle?)
    ensures Fits(st, steps[0], p, v)
    ensures var next := AfterStep(st, steps[0], p);
            && OneWrite(steps[1..], p, 0, v.first, !next.first.Idle?)
            && OneWrite(steps[1..], p, 1, v.second, !next.second.Idle?)
  {
  }

  /** At a quiet path both updates have come to an end. */
  lemma QuietStages(b: State, t: State, p: Rel, v: Pair<Bytes>, st: Pair<Stage>)
    requires |b.nodes| == 2 && QuietAt(b, p) && Suitable(b, p, v) && Crossing(b, t, p, v, st) && QuietAt(t, p)
    requires !st.first.Idle? && !st.second.Idle?
    ensures st in {Pair(SwappedSeen, SwappedSeen), Pair(OvertakenSeen, SentOut), Pair(SentOut, OvertakenSeen)}
  {
    forall i: Two ensures !AwaitsEvent(st.At(i)) && !(HasSent(st.At(i)) && !HasTakenIn(st.At(Other(i)))) {
      assert AtStage(b, t, p, v, i, st.At(i));
      NodeTells(b, t, p, v, i, st.At(i));
      assert Letter(i, p, v) !in t.upserts;
    }
    assert !AwaitsEvent(st.At(0)) && !AwaitsEvent(st.At(1));
  }

  /** Node `i` holds its own content if `own`, and else the other's, with its own in the
      backup unless it is the same. */
  predicate Kept(b: State, t: State, p: Rel, v: Pair<Bytes>, i: Two, own: bool)
    requires |b.nodes| == |t.nodes| == 2
  {
    && Lookup(t.nodes[i].files, p) == Some(v.At(if own then i else Other(i)))
    && (!own && v.first != v.second ==> Lookup(t.nodes[i].backups, (p, TagFor(b, i))) == Some(v.At(i)))
  }

  /** At the end: a node has kept its own content exactly if its update was taken in
      first at the other, and the nodes agree if and only if both wrote the same or one
      of them took in the other's update first. */
  ghost predicate Outcome(b: State, t: State, p: Rel, v: Pair<Bytes>, takenFirst0: bool, takenFirst1: bool)
    requires |b.nodes| == 2
  {
    && |t.nodes| == 2
    && !(takenFirst0 && takenFirst1)
    && Kept(b, t, p, v, 0, takenFirst1) && Kept(b, t, p, v, 1, takenFirst0)
    && (Lookup(t.nodes[0].files, p) == Lookup(t.nodes[1].files, p)
        <==> v.first == v.second || takenFirst0 || takenFirst1)
  }

  /** A run from `b` in which both users write `p` before they see the other's update,
      and nothing else is done to `p` and nothing fails on it. */
  ghost predicate ConcurrentRun(b: State, steps: seq<Step>, p: Rel, v: Pair<Bytes>) {
    && Runs(b, steps) && NoFailureRun(b, steps, p)
    && OneWrite(steps, p, 0, v.first, false) && OneWrite(steps, p, 1, v.second, false)
  }

  /** Main result: the exact condition under which concurrent edits converge. In a mesh
      of two both users write `p`, at any times but unseen by each other; on `p` nothing
      else is done and nothing fails, on other paths anything goes. When `p` is quiet
      again, `Outcome` tells who holds what: they agree if and only if both wrote the same
      or one node took in the other's update before the event of its own write. What was
      displaced is in the backup. */
  lemma {:induction false} AgreeExactly(b: State, p: Rel, v: Pair<Bytes>, steps: seq<Step>)
    requires |b.nodes| == 2 && QuietAt(b, p) && Suitable(b, p, v)
    requires ConcurrentRun(b, steps, p, v) && QuietAt(After(b, steps), p)
    ensures Outcome(b, After(b, steps), p, v, TakenInFirst(steps, p, 0), TakenInFirst(steps, p, 1))
  {
    var t := After(b, steps);
    var end := AfterSteps(BOTH_IDLE, steps, p);
    CrossingStarts(b, p, v);
    CrossingAlong(b, b, p, v, BOTH_IDLE, steps);
    StagesTell(BOTH_IDLE, steps, p, 0, v.first);
    StagesTell(BOTH_IDLE, steps, p, 1, v.second);
    QuietStages(b, t, p, v, end);
    NodeTells(b, t, p, v, 0, end.first);
    NodeTells(b, t, p, v, 1, end.second);
  }

  lemma CrossingAcceptable(b: State, s: State, p: Rel, v: Pair<Bytes>, st: Pair<Stage>)
    requires |b.nodes| == 2 && Crossing(b, s, p, v, st) && Suitable(b, p, v)
    ensures Acceptable(s, p)
  {
  }

  /** And quiet it will be: once both have written, no reliable run is stuck before the
      mesh is at rest, nor goes on for ever. */
  lemma {:induction false} ConcurrentWritesSettle(b: State, p: Rel, v: Pair<Bytes>, steps: seq<Step>, more: seq<Step>)
    requires |b.nodes| == 2 && QuietAt(b, p) && Suitable(b, p, v) && Coherence(b)
    requires ConcurrentRun(b, steps, p, v)
    requires Runs(After(b, steps), more) && ReliableRun(After(b, steps), more, p)
    requires forall k :: 0 <= k < |more| ==> !ByUser(more[k])
    ensures |more| <= Quiescence.Work(After(b, steps))
    ensures CanGoOn(After(After(b, steps), more), p) <==> !Quiescent(After(After(b, steps), more))
  {
    var s := After(b, steps);
    var st := AfterSteps(BOTH_IDLE, steps, p);
    Quiescence.CoherenceAlong(b, steps);
    Quiescence.CoherenceAlong(s, more);
    Quiescence.StopsWithoutUsers(s, more);
    CrossingStarts(b, p, v);
    CrossingAlong(b, b, p, v, BOTH_IDLE, steps);
    StagesTell(BOTH_IDLE, steps, p, 0, v.first);
    StagesTell(BOTH_IDLE, steps, p, 1, v.second);
    NoFailureWithoutUsers(s, more, p, v);
    CrossingAlong(b, s, p, v, st, more);
    CrossingAcceptable(b, After(s, more), p, v, AfterSteps(st, more, p));
    GoesOnExactly(After(s, more), p);
  }

  lemma {:induction false} NoFailureWithoutUsers(s: State, steps: seq<Step>, p: Rel, v: Pair<Bytes>)
    requires Runs(s, steps) && ReliableRun(s, steps, p) && forall k :: 0 <= k < |steps| ==> !ByUser(steps[k])
    ensures NoFailureRun(s, steps, p)
    ensures OneWrite(steps, p, 0, v.first, true) && OneWrite(steps, p, 1, v.second, true)
    decreases |steps|
  {
    if steps != [] {
      NoFailureWithoutUsers(Next(s, steps[0]), steps[1..], p, v);
    }
  }

  // ---------------------------------------------------------------- both ends are reached

  datatype Turn = Turn(at: Two, deed: Deed)

  predicate Possible(st: Pair<Stage>, turn: Turn) {
    match turn.deed
    case Wrote => st.At(turn.at).Idle?
    case Saw => AwaitsEvent(st.At(turn.at))
    case Took => HasSent(st.At(Other(turn.at))) && !HasTakenIn(st.At(turn.at)) && !st.At(turn.at).Idle?
  }

  function AfterTurns(st: Pair<Stage>, turns: seq<Turn>): Option<Pair<Stage>>
    decreases |turns|
  {
    if turns == [] then Some(st)
    else if !Possible(st, turns[0]) then None
    else AfterTurns(st.With(turns[0].at, Moved(st.At(turns[0].at), turns[0].deed)), turns[1..])
  }

  function StepFor(p: Rel, v: Pair<Bytes>, turn: Turn): Step {
    match turn.deed
    case Wrote => Write(turn.at, p, v.At(turn.at))
    case Saw => Event(turn.at, p, false, true)
    case Took => DeliverUpsert(Letter(Other(turn.at), p, v), Applied(true))
  }

  function StepsFor(p: Rel, v: Pair<Bytes>, turns: seq<Turn>): seq<Step> {
    if turns == [] then [] else [StepFor(p, v, turns[0])] + StepsFor(p, v, turns[1..])
  }

  /** Every sequence of turns the stages allow is a run of the mesh without a failure. */
  lemma {:induction false} TurnsRun(b: State, s: State, p: Rel, v: Pair<Bytes>, st: Pair<Stage>, turns: seq<Turn>)
    requires |b.nodes| == 2 && QuietAt(b, p) && Suitable(b, p, v) && Crossing(b, s, p, v, st)
    requires AfterTurns(st, turns).Some?
    ensures var steps := StepsFor(p, v, turns);
            && Runs(s, steps) && NoFailureRun(s, steps, p)
            && Crossing(b, After(s, steps), p, v, AfterTurns(st, turns).value)
    decreases |turns|
  {
    if turns != [] {
      var turn, i := turns[0], turns[0].at;
      TurnTaken(b, s, p, v, st, turn);
      TurnsRun(b, Next(s, StepFor(p, v, turn)), p, v, st.With(i, Moved(st.At(i), turn.deed)), turns[1..]);
      assert StepsFor(p, v, turns)[1..] == StepsFor(p, v, turns[1..]);
    }
  }

  lemma TurnTaken(b: State, s: State, p: Rel, v: Pair<Bytes>, st: Pair<Stage>, turn: Turn)
    requires |b.nodes| == 2 && QuietAt(b, p) && Suitable(b, p, v) && Crossing(b, s, p, v, st) && Possible(st, turn)
    ensures Enabled(s, StepFor(p, v, turn)) && NoFailureAt(s, StepFor(p, v, turn), p)
    ensures Crossing(b, Next(s, StepFor(p, v, turn)), p, v, st.With(turn.at, Moved(st.At(turn.at), turn.deed)))
  {
    match turn.deed
    case Wrote => CrossingWrite(b, s, p, v, st, turn.at);
    case Saw =>
      assert AtStage(b, s, p, v, turn.at, st.At(turn.at));
      NodeTells(b, s, p, v, turn.at, st.At(turn.at));
      CrossingEvent(b, s, p, v, st, turn.at);
    case Took =>
      assert Letter(Other(turn.at), p, v) in s.upserts;
      CrossingDelivery(b, s, p, v, st, turn.at);
  }

  lemma StagesQuiet(b: State, t: State, p: Rel, v: Pair<Bytes>, st: Pair<Stage>)
    requires |b.nodes| == 2 && QuietAt(b, p) && Suitable(b, p, v) && Crossing(b, t, p, v, st)
    requires st in {Pair(SwappedSeen, SwappedSeen), Pair(SentOut, OvertakenSeen)}
    ensures QuietAt(t, p)
  {
    forall i: Two ensures p !in t.nodes[i].dirty && Letter(i, p, v) !in t.upserts {
      assert AtStage(b, t, p, v, i, st.At(i));
      NodeTells(b, t, p, v, i, st.At(i));
    }
  }

  /** Both updates go out before either comes in. */
  const CROSSED: seq<Turn> :=
    [Turn(0, Wrote), Turn(1, Wrote), Turn(0, Saw), Turn(1, Saw), Turn(0, Took), Turn(1, Took), Turn(0, Saw), Turn(1, Saw)]

  /** The update of node 0 comes in before the event of node 1. */
  const OVERTAKEN: seq<Turn> := [Turn(0, Wrote), Turn(1, Wrote), Turn(0, Saw), Turn(1, Took), Turn(1, Saw)]

  lemma TurnsEnd()
    ensures AfterTurns(BOTH_IDLE, CROSSED) == Some(Pair(SwappedSeen, SwappedSeen))
    ensures AfterTurns(BOTH_IDLE, OVERTAKEN) == Some(Pair(SentOut, OvertakenSeen))
  {
    TurnsFrom(BOTH_IDLE, Pair(Unsent, Unsent), CROSSED, CROSSED[2..], OVERTAKEN, OVERTAKEN[2..]);
    var c, o := CROSSED[2..], OVERTAKEN[2..];
    assert c == [Turn(0, Saw), Turn(1, Saw), Turn(0, Took), Turn(1, Took), Turn(0, Saw), Turn(1, Saw)];
    assert c[1..] == [Turn(1, Saw), Turn(0, Took), Turn(1, Took), Turn(0, Saw), Turn(1, Saw)];
    assert c[1..][1..] == [Turn(0, Took), Turn(1, Took), Turn(0, Saw), Turn(1, Saw)];
    assert c[1..][1..][1..] == [Turn(1, Took), Turn(0, Saw), Turn(1, Saw)];
    assert c[1..][1..][1..][1..] == [Turn(0, Saw), Turn(1, Saw)];
    assert c[1..][1..][1..][1..][1..] == [Turn(1, Saw)];
    assert o == [Turn(0, Saw), Turn(1, Took), Turn(1, Saw)];
    assert o[1..] == [Turn(1, Took), Turn(1, Saw)] && o[1..][1..] == [Turn(1, Saw)];
  }

  /** Both schedules begin with the two writes. */
  lemma TurnsFrom(st: Pair<Stage>, next: Pair<Stage>, c: seq<Turn>, c2: seq<Turn>, o: seq<Turn>, o2: seq<Turn>)
    requires st == BOTH_IDLE && next == Pair(Unsent, Unsent)
    requires c == [Turn(0, Wrote), Turn(1, Wrote)] + c2 && o == [Turn(0, Wrote), Turn(1, Wrote)] + o2
    ensures AfterTurns(st, c) == AfterTurns(next, c2) && AfterTurns(st, o) == AfterTurns(next, o2)
  {
    assert c[1..] == [Turn(1, Wrote)] + c2 && c[1..][1..] == c2;
    assert o[1..] == [Turn(1, Wrote)] + o2 && o[1..][1..] == o2;
  }

  /** After `steps`, without a failure on it, `p` is quiet and the nodes hold `x` and `y`. */
  ghost predicate EndsWith(b: State, steps: seq<Step>, p: Rel, x: Bytes, y: Bytes) {
    && Runs(b, steps) && NoFailureRun(b, steps, p) && QuietAt(After(b, steps), p)
    && |After(b, steps).nodes| == 2
    && Lookup(After(b, steps).nodes[0].files, p) == Some(x)
    && Lookup(After(b, steps).nodes[1].files, p) == Some(y)
  }

  /** "Concurrent edits converge" fails, and holds, from every start: of two noticed
      writes one schedule leaves the nodes with each other's content, another leaves both
      with the first. */
  lemma BothEndsReached(b: State, p: Rel, v: Pair<Bytes>)
    requires |b.nodes| == 2 && QuietAt(b, p) && Suitable(b, p, v)
    ensures EndsWith(b, StepsFor(p, v, CROSSED), p, v.second, v.first)
    ensures EndsWith(b, StepsFor(p, v, OVERTAKEN), p, v.first, v.first)
  {
    TurnsEnd();
    Reached(b, p, v, CROSSED, Pair(SwappedSeen, SwappedSeen));
    Reached(b, p, v, OVERTAKEN, Pair(SentOut, OvertakenSeen));
  }

  lemma Reached(b: State, p: Rel, v: Pair<Bytes>, turns: seq<Turn>, end: Pair<Stage>)
    requires |b.nodes| == 2 && QuietAt(b, p) && Suitable(b, p, v)
    requires AfterTurns(BOTH_IDLE, turns) == Some(end)
    requires end in {Pair(SwappedSeen, SwappedSeen), Pair(SentOut, OvertakenSeen)}
    ensures EndsWith(b, StepsFor(p, v, turns), p,
                     if HasTakenIn(end.first) then v.second else v.first,
                     if HasTakenIn(end.second) then v.first else v.second)
  {
    CrossingStarts(b, p, v);
    TurnsRun(b, b, p, v, BOTH_IDLE, turns);
    var t := After(b, StepsFor(p, v, turns));
    StagesQuiet(b, t, p, v, end);
    NodeTells(b, t, p, v, 0, end.first);
    NodeTells(b, t, p, v, 1, end.second);
  }
}
