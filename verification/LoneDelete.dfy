/** A delete nobody competes with: while one user deletes one path, anything may happen
    on the other paths. */
module LoneDelete {
  import opened Prelude
  import opened Nodes
  import opened Mesh
  import opened LoneWriter
  import Quiescence

  /** On `p` no user acts, and sends and receptions succeed. */
  predicate NoFailureAt(s: State, step: Step, p: Rel)
    requires Enabled(s, step)
  {
    PathOf(step) == p ==>
      && !ByUser(step)
      && (step.Event? ==> step.sent)
      && (step.DeliverTombstone? ==> step.tfate == THandled)
  }

  predicate NoFailureRun(s: State, steps: seq<Step>, p: Rel)
    requires Runs(s, steps)
    decreases |steps|
  {
    steps == [] || (NoFailureAt(s, steps[0], p) && NoFailureRun(Next(s, steps[0]), steps[1..], p))
  }

  // ---------------------------------------------------------------- slots

  /** The deleting node's slot before and after its event. */
  function Deleted(x: Slot): Slot { x.(file := None, dirty := true) }

  function Reported(x: Slot): Slot { x.(file := None, marker := None, removed := false, dirty := false) }

  /** Another node's slot after the Tombstone: a file is unlinked, without one the removal
      marker is taken back. */
  function Emptied(x: Slot): Slot {
    if x.file.Some? then x.(file := None, removed := true, dirty := true) else x.(removed := false)
  }

  /** And after the event of that removal. */
  function Absorbed(x: Slot): Slot {
    if x.file.Some? then Reported(x) else Emptied(x)
  }

  lemma SlotRemoved(n: Node, p: Rel, tag: string)
    ensures SlotOf(ReceiveTombstone(n, p, THandled), p, tag) == Emptied(SlotOf(n, p, tag))
  {
  }

  /** The closure on a file that is gone. */
  lemma SlotGone(n: Node, p: Rel, removeKind: bool, tag: string)
    requires p !in n.files
    ensures var (m, out) := OnEvent(n, p, removeKind, true);
            && out == (if p in n.lastRemoved then Nothing else SendTombstone)
            && SlotOf(m, p, tag) == Reported(SlotOf(n, p, tag))
  {
  }

  // ---------------------------------------------------------------- the delete and its propagation

  function Notice(to: nat, w: nat, p: Rel): TombstoneMsg { TombstoneMsg(to, w, p) }

  /** The event of the delete is still to come. */
  ghost predicate BeforeReport(b: State, s: State, w: nat, p: Rel)
    requires w < |b.nodes|
  {
    && |s.nodes| == |b.nodes|
    && (forall u :: u in s.upserts ==> u.path != p)
    && (forall t :: t in s.tombstones ==> t.path != p)
    && SlotOf(s.nodes[w], p, "") == Deleted(SlotOf(b.nodes[w], p, ""))
    && (forall i :: 0 <= i < |b.nodes| && i != w ==> SlotOf(s.nodes[i], p, "") == SlotOf(b.nodes[i], p, ""))
  }

  predicate Progress(before: Slot, now: Slot, waiting: bool) {
    if waiting then now == before else now == Emptied(before) || now == Absorbed(before)
  }

  /** The Tombstone is out: every other node still waits for its copy or has handled it. */
  ghost predicate Retracting(b: State, s: State, w: nat, p: Rel)
    requires w < |b.nodes|
  {
    && |s.nodes| == |b.nodes|
    && (forall u :: u in s.upserts ==> u.path != p)
    && (forall t :: t in s.tombstones && t.path == p ==>
          s.tombstones[t] == 1 && t == Notice(t.to, w, p) && t.to != w && t.to < |b.nodes|)
    && SlotOf(s.nodes[w], p, "") == Reported(SlotOf(b.nodes[w], p, ""))
    && (forall i :: 0 <= i < |b.nodes| && i != w ==>
          Progress(SlotOf(b.nodes[i], p, ""), SlotOf(s.nodes[i], p, ""), Notice(i, w, p) in s.tombstones))
  }

  /** A removal marker absorbed the event of the delete: it never goes out. */
  ghost predicate Swallowed(b: State, s: State, w: nat, p: Rel)
    requires w < |b.nodes|
  {
    && |s.nodes| == |b.nodes| && QuietAt(s, p)
    && SlotOf(s.nodes[w], p, "") == Reported(SlotOf(b.nodes[w], p, ""))
    && (forall i :: 0 <= i < |b.nodes| && i != w ==> SlotOf(s.nodes[i], p, "") == SlotOf(b.nodes[i], p, ""))
  }

  /** The guard of the closure's branch that sends a Tombstone. */
  predicate Unmarked(b: State, w: nat, p: Rel)
    requires w < |b.nodes|
  {
    p !in b.nodes[w].lastRemoved
  }

  ghost predicate AfterReport(b: State, s: State, w: nat, p: Rel)
    requires w < |b.nodes|
  {
    if Unmarked(b, w, p) then Retracting(b, s, w, p) else Swallowed(b, s, w, p)
  }

  ghost predicate Phase(b: State, s: State, w: nat, p: Rel, reported: bool)
    requires w < |b.nodes|
  {
    if reported then AfterReport(b, s, w, p) else BeforeReport(b, s, w, p)
  }

  lemma DeleteStarts(b: State, w: nat, p: Rel)
    requires w < |b.nodes| && QuietAt(b, p) && p in b.nodes[w].files
    ensures BeforeReport(b, Next(b, Delete(w, p)), w, p)
  {
  }

  lemma SamePhase(b: State, s: State, t: State, w: nat, p: Rel, reported: bool)
    requires w < |b.nodes| && Phase(b, s, w, p, reported) && SameAt(s, t, p, "")
    ensures Phase(b, t, w, p, reported)
  {
    forall u: UpsertMsg | u.path == p ensures u in t.upserts <==> u in s.upserts {
      assert t.upserts[u] == s.upserts[u];
    }
    forall d: TombstoneMsg | d.path == p ensures d in t.tombstones <==> d in s.tombstones {
      assert t.tombstones[d] == s.tombstones[d];
    }
    if reported && !Unmarked(b, w, p) {
      SameQuiet(s, t, p, "");
    }
  }

  // ---------------------------------------------------------------- one step

  /** The copies of the Tombstone are the only messages about `p`. */
  lemma NoticesInFlight(s: State, t: State, w: nat, p: Rel)
    requires w < |s.nodes| && t.tombstones == s.tombstones + TombstoneCopies(|s.nodes|, w, p)
    requires forall d :: d in s.tombstones ==> d.path != p
    ensures forall d :: d in t.tombstones && d.path == p ==>
              t.tombstones[d] == 1 && d == Notice(d.to, w, p) && d.to != w && d.to < |s.nodes|
    ensures forall i :: 0 <= i < |s.nodes| && i != w ==> Notice(i, w, p) in t.tombstones
  {
    TombstoneCopiesAre(|s.nodes|, w, p);
    forall d | d in t.tombstones && d.path == p
      ensures t.tombstones[d] == 1 && d == Notice(d.to, w, p) && d.to != w && d.to < |s.nodes|
    {
      assert d !in s.tombstones;
    }
    forall i | 0 <= i < |s.nodes| && i != w ensures Notice(i, w, p) in t.tombstones {
      assert TombstoneCopies(|s.nodes|, w, p)[Notice(i, w, p)] == 1;
    }
  }

  /** What the closure at `i` does, for an event of a path that is gone. */
  lemma EventOfGone(s: State, i: nat, p: Rel, removeKind: bool)
    requires Enabled(s, Event(i, p, removeKind, true)) && p !in s.nodes[i].files
    ensures var t := Next(s, Event(i, p, removeKind, true));
            && |t.nodes| == |s.nodes| && (forall j :: 0 <= j < |s.nodes| && j != i ==> t.nodes[j] == s.nodes[j])
            && t.upserts == s.upserts
            && t.tombstones == (if p in s.nodes[i].lastRemoved then s.tombstones
                                else s.tombstones + TombstoneCopies(|s.nodes|, i, p))
            && SlotOf(t.nodes[i], p, "") == Reported(SlotOf(s.nodes[i], p, ""))
  {
    SlotGone(s.nodes[i], p, removeKind, "");
  }

  lemma Report(b: State, s: State, w: nat, p: Rel, removeKind: bool)
    requires w < |b.nodes| && QuietAt(b, p) && BeforeReport(b, s, w, p)
    requires Enabled(s, Event(w, p, removeKind, true))
    ensures AfterReport(b, Next(s, Event(w, p, removeKind, true)), w, p)
  {
    var t := Next(s, Event(w, p, removeKind, true));
    assert SlotOf(s.nodes[w], p, "").file == None;
    assert SlotOf(s.nodes[w], p, "").removed == SlotOf(b.nodes[w], p, "").removed;
    EventOfGone(s, w, p, removeKind);
    if Unmarked(b, w, p) {
      NoticesInFlight(s, t, w, p);
    } else {
      forall i | 0 <= i < |t.nodes| ensures p !in t.nodes[i].dirty {
        assert i != w ==> SlotOf(t.nodes[i], p, "") == SlotOf(b.nodes[i], p, "");
        assert !SlotOf(t.nodes[i], p, "").dirty;
      }
    }
  }

  /** The event of a removal made for the Tombstone is absorbed. */
  lemma EchoAbsorbedAt(b: State, s: State, w: nat, p: Rel, i: nat, removeKind: bool)
    requires w < |b.nodes| && QuietAt(b, p) && Retracting(b, s, w, p)
    requires Enabled(s, Event(i, p, removeKind, true))
    ensures i != w && p !in s.nodes[i].files && p in s.nodes[i].lastRemoved
    ensures Retracting(b, Next(s, Event(i, p, removeKind, true)), w, p)
  {
    var x, y := SlotOf(b.nodes[i], p, ""), SlotOf(s.nodes[i], p, "");
    assert y.dirty && !x.dirty && i != w;
    assert y == Emptied(x) && Notice(i, w, p) !in s.tombstones;
    EventOfGone(s, i, p, removeKind);
    assert SlotOf(Next(s, Event(i, p, removeKind, true)).nodes[i], p, "") == Absorbed(x);
  }

  lemma NoticeHandled(b: State, s: State, w: nat, p: Rel, d: TombstoneMsg)
    requires w < |b.nodes| && QuietAt(b, p) && Retracting(b, s, w, p)
    requires d.path == p && Enabled(s, DeliverTombstone(d, THandled))
    ensures Retracting(b, Next(s, DeliverTombstone(d, THandled)), w, p)
  {
    var t := Next(s, DeliverTombstone(d, THandled));
    assert d == Notice(d.to, w, p) && s.tombstones[d] == 1;
    SlotRemoved(s.nodes[d.to], p, "");
    assert d !in t.tombstones;
    forall i | 0 <= i < |b.nodes| && i != w
      ensures Progress(SlotOf(b.nodes[i], p, ""), SlotOf(t.nodes[i], p, ""), Notice(i, w, p) in t.tombstones)
    {
      assert Progress(SlotOf(b.nodes[i], p, ""), SlotOf(s.nodes[i], p, ""), Notice(i, w, p) in s.tombstones);
      if i != d.to {
        assert Notice(i, w, p) != d;
        assert t.tombstones[Notice(i, w, p)] == s.tombstones[Notice(i, w, p)];
      }
    }
  }

  lemma OnlyDeleterDirty(b: State, s: State, w: nat, p: Rel, i: nat)
    requires w < |b.nodes| && QuietAt(b, p) && BeforeReport(b, s, w, p) && i < |b.nodes|
    ensures p in s.nodes[i].dirty <==> i == w
  {
    assert p in s.nodes[i].dirty <==> SlotOf(s.nodes[i], p, "").dirty;
  }

  /** A closure call that puts something about `p` on the wire. */
  predicate SpeaksOf(s: State, step: Step, p: Rel)
    requires Enabled(s, step)
  {
    step.Event? && step.path == p && OnEvent(s.nodes[step.n], p, step.removeKind, step.sent).1 != Nothing
  }

  /** The event of the delete is the one that leads from one phase to the next, and
      nothing else about `p` is ever sent. */
  lemma PhaseKept(b: State, s: State, w: nat, p: Rel, step: Step, reported: bool)
    requires w < |b.nodes| && QuietAt(b, p) && Phase(b, s, w, p, reported)
    requires Enabled(s, step) && NoFailureAt(s, step, p)
    ensures Phase(b, Next(s, step), w, p, reported || (step.Event? && step.path == p))
    ensures SpeaksOf(s, step, p) <==> !reported && step.Event? && step.path == p && Unmarked(b, w, p)
  {
    if PathOf(step) != p {
      OtherPathsSame(s, step, p, "");
      SamePhase(b, s, Next(s, step), w, p, reported);
    } else if !reported {
      assert step.Event?;
      OnlyDeleterDirty(b, s, w, p, step.n);
      assert SlotOf(s.nodes[w], p, "").file == None;
      assert SlotOf(s.nodes[w], p, "").removed == SlotOf(b.nodes[w], p, "").removed;
      Report(b, s, w, p, step.removeKind);
    } else if Unmarked(b, w, p) {
      match step
      case Event(i, _, removeKind, _) => EchoAbsorbedAt(b, s, w, p, i, removeKind);
      case DeliverTombstone(d, _) => NoticeHandled(b, s, w, p, d);
      case _ =>
    }
  }

  // ---------------------------------------------------------------- whole runs

  /** The closure calls in a run that put something about `p` on the wire. */
  function Spoken(s: State, steps: seq<Step>, p: Rel): nat
    requires Runs(s, steps)
    decreases |steps|
  {
    if steps == [] then 0
    else (if SpeaksOf(s, steps[0], p) then 1 else 0) + Spoken(Next(s, steps[0]), steps[1..], p)
  }

  predicate HasEvent(steps: seq<Step>, p: Rel) {
    exists k :: 0 <= k < |steps| && steps[k].Event? && steps[k].path == p
  }

  lemma {:induction false} PhaseAlong(b: State, s: State, w: nat, p: Rel, steps: seq<Step>, reported: bool)
    requires w < |b.nodes| && QuietAt(b, p) && Phase(b, s, w, p, reported)
    requires Runs(s, steps) && NoFailureRun(s, steps, p)
    ensures Phase(b, After(s, steps), w, p, reported || HasEvent(steps, p))
    ensures Spoken(s, steps, p) == if !reported && HasEvent(steps, p) && Unmarked(b, w, p) then 1 else 0
    decreases |steps|
  {
    if steps != [] {
      var first := steps[0].Event? && steps[0].path == p;
      PhaseKept(b, s, w, p, steps[0], reported);
      PhaseAlong(b, Next(s, steps[0]), w, p, steps[1..], reported || first);
      EventSplit(steps, p);
    }
  }

  lemma EventSplit(steps: seq<Step>, p: Rel)
    requires steps != []
    ensures HasEvent(steps, p) <==> (steps[0].Event? && steps[0].path == p) || HasEvent(steps[1..], p)
  {
    if HasEvent(steps, p) {
      var k :| 0 <= k < |steps| && steps[k].Event? && steps[k].path == p;
      if k > 0 { assert steps[1..][k - 1] == steps[k]; }
    }
    if HasEvent(steps[1..], p) {
      var k :| 0 <= k < |steps[1..]| && steps[1..][k].Event? && steps[1..][k].path == p;
      assert steps[k + 1] == steps[1..][k];
    }
  }

  /** Main result, with its exact condition. One user deletes `p`; on `p` nothing else is
      done and nothing fails, on the other paths anything goes. When `p` is quiet again,
      no node has it if and only if no removal marker was left at the deleting node or no
      other node had it. One Tombstone broadcast at most goes out and nothing is echoed;
      where it goes out, every node is left without a removal marker. */
  lemma LoneDeleteExactly(b: State, w: nat, p: Rel, steps: seq<Step>)
    requires w < |b.nodes| && QuietAt(b, p) && p in b.nodes[w].files
    requires var s := Next(b, Delete(w, p)); Runs(s, steps) && NoFailureRun(s, steps, p)
    requires QuietAt(After(Next(b, Delete(w, p)), steps), p)
    ensures var s := Next(b, Delete(w, p));
            var t := After(s, steps);
            && |t.nodes| == |b.nodes|
            && ((forall i :: 0 <= i < |b.nodes| ==> p !in t.nodes[i].files) <==>
                || Unmarked(b, w, p)
                || (forall i :: 0 <= i < |b.nodes| && i != w ==> p !in b.nodes[i].files))
            && Spoken(s, steps, p) == (if Unmarked(b, w, p) then 1 else 0)
            && (Unmarked(b, w, p) ==> forall i :: 0 <= i < |b.nodes| ==> p !in t.nodes[i].lastRemoved)
  {
    var s := Next(b, Delete(w, p));
    var t := After(s, steps);
    DeleteStarts(b, w, p);
    PhaseAlong(b, s, w, p, steps, false);
    QuietTells(b, t, w, p, HasEvent(steps, p));
  }

  lemma QuietTells(b: State, t: State, w: nat, p: Rel, reported: bool)
    requires w < |b.nodes| && QuietAt(b, p) && Phase(b, t, w, p, reported) && QuietAt(t, p)
    ensures reported && |t.nodes| == |b.nodes|
    ensures p !in t.nodes[w].files && p !in t.nodes[w].lastRemoved
    ensures forall i :: 0 <= i < |b.nodes| && i != w ==>
              if Unmarked(b, w, p) then p !in t.nodes[i].files && p !in t.nodes[i].lastRemoved
              else (p in t.nodes[i].files <==> p in b.nodes[i].files)
  {
    assert !SlotOf(t.nodes[w], p, "").dirty;
    assert SlotOf(t.nodes[w], p, "").file == None && !SlotOf(t.nodes[w], p, "").removed;
    forall i | 0 <= i < |b.nodes| && i != w
      ensures SlotOf(t.nodes[i], p, "") == if Unmarked(b, w, p) then Absorbed(SlotOf(b.nodes[i], p, ""))
                                           else SlotOf(b.nodes[i], p, "")
    {
      if Unmarked(b, w, p) {
        assert Notice(i, w, p) !in t.tombstones;
        assert !SlotOf(t.nodes[i], p, "").dirty;
      }
    }
  }

  // ---------------------------------------------------------------- it comes to rest

  /** The mesh can go on by itself without a failure on `p`. */
  ghost predicate CanGoOn(s: State, p: Rel) {
    exists step :: Enabled(s, step) && !ByUser(step) && NoFailureAt(s, step, p)
  }

  lemma StepLeft(s: State, p: Rel) returns (step: Step)
    requires Coherence(s) && !Quiescent(s)
    ensures Enabled(s, step) && !ByUser(step) && NoFailureAt(s, step, p)
  {
    if s.upserts != multiset{} {
      var u :| u in s.upserts;
      step := DeliverUpsert(u, Ignored);
    } else if s.tombstones != multiset{} {
      var t :| t in s.tombstones;
      step := DeliverTombstone(t, THandled);
    } else {
      var i :| 0 <= i < |s.nodes| && s.nodes[i].dirty != {};
      var q :| q in s.nodes[i].dirty;
      step := Event(i, q, false, true);
    }
  }

  lemma GoesOnExactly(s: State, p: Rel)
    requires Coherence(s)
    ensures CanGoOn(s, p) <==> !Quiescent(s)
  {
    if !Quiescent(s) {
      var step := StepLeft(s, p);
    }
  }

  /** After the delete of `p` at `w` nobody acts, and nothing fails on `p`. */
  predicate DeleteRun(b: State, w: nat, p: Rel, steps: seq<Step>)
    requires w < |b.nodes| && p in b.nodes[w].files
  {
    var s := Next(b, Delete(w, p));
    Runs(s, steps) && NoFailureRun(s, steps, p) && forall k :: 0 <= k < |steps| ==> !ByUser(steps[k])
  }

  ghost predicate GoneEverywhere(b: State, t: State, p: Rel) {
    |t.nodes| == |b.nodes| && forall i :: 0 <= i < |b.nodes| ==> t.nodes[i].files == b.nodes[i].files - {p}
  }

  /** Main result for the whole mesh: a delete in a mesh at rest, at a node without a
      removal marker. Every run is bounded by the work there is, can go on exactly while
      the mesh is not at rest, and where it can go on no more every node holds its old
      files without that one. */
  lemma {:induction false} LoneDeleteSettles(b: State, w: nat, p: Rel, steps: seq<Step>)
    requires w < |b.nodes| && Quiescent(b) && Coherence(b) && p in b.nodes[w].files && Unmarked(b, w, p)
    requires DeleteRun(b, w, p, steps)
    ensures var s := Next(b, Delete(w, p));
            var t := After(s, steps);
            && |steps| <= Quiescence.Work(s)
            && (CanGoOn(t, p) <==> !Quiescent(t))
            && (!CanGoOn(t, p) ==> GoneEverywhere(b, t, p))
  {
    var s := Next(b, Delete(w, p));
    var t := After(s, steps);
    CoherenceKept(b, Delete(w, p));
    Quiescence.CoherenceAlong(s, steps);
    Quiescence.StopsWithoutUsers(s, steps);
    GoesOnExactly(t, p);
    if Quiescent(t) {
      DeletedEverywhere(b, w, p, steps);
    }
  }

  lemma DeletedEverywhere(b: State, w: nat, p: Rel, steps: seq<Step>)
    requires w < |b.nodes| && Quiescent(b) && p in b.nodes[w].files && Unmarked(b, w, p)
    requires DeleteRun(b, w, p, steps) && Quiescent(After(Next(b, Delete(w, p)), steps))
    ensures GoneEverywhere(b, After(Next(b, Delete(w, p)), steps), p)
  {
    var s := Next(b, Delete(w, p));
    var t := After(s, steps);
    LoneDeleteExactly(b, w, p, steps);
    forall i, q | 0 <= i < |b.nodes| && q != p
      ensures Lookup(t.nodes[i].files, q) == Lookup(b.nodes[i].files, q)
    {
      OtherPathsUntouched(b, Delete(w, p), q, "", i);
      assert QuietAt(s, q);
      QuietStaysQuiet(s, steps, q, "");
      assert SlotOf(t.nodes[i], q, "") == SlotOf(b.nodes[i], q, "");
    }
    forall i | 0 <= i < |b.nodes|
      ensures t.nodes[i].files == b.nodes[i].files - {p}
    {
      assert Lookup(t.nodes[i].files, p) == None;
      SameMap(t.nodes[i].files, b.nodes[i].files - {p});
    }
  }
}
