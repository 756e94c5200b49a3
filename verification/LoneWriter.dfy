/** A write nobody competes with reaches every peer: while one user writes one
    path, anything may happen on the other paths. */
module LoneWriter {
  import opened Prelude
  import opened Nodes
  import opened Mesh
  import Quiescence

  /** What a node knows about one path; `backup` is its conflict backup for updates
      from peers with the short id `tag`. */
  datatype Slot = Slot(
    file: Option<Bytes>,
    marker: Option<Hash>,
    removed: bool,
    dirty: bool,
    backup: Option<Bytes>)

  function SlotOf(n: Node, p: Rel, tag: string): Slot {
    Slot(Lookup(n.files, p), Lookup(n.lastWritten, p), p in n.lastRemoved, p in n.dirty,
         Lookup(n.backups, (p, tag)))
  }

  function PathOf(step: Step): Rel {
    match step
    case Write(_, p, _) => p
    case Delete(_, p) => p
    case Event(_, p, _, _) => p
    case DeliverUpsert(u, _) => u.path
    case DeliverTombstone(t, _) => t.path
  }

  /** Nothing about `p` is under way. */
  ghost predicate QuietAt(s: State, p: Rel) {
    && (forall u :: u in s.upserts ==> u.path != p)
    && (forall t :: t in s.tombstones ==> t.path != p)
    && (forall i :: 0 <= i < |s.nodes| ==> p !in s.nodes[i].dirty)
  }

  /** On `p` no user acts, sends and receptions succeed, and a Remove event is only
      reported for a file that is gone. Nothing is asked of the other paths. */
  predicate ReliableAt(s: State, step: Step, p: Rel)
    requires Enabled(s, step)
  {
    PathOf(step) == p ==>
      && !ByUser(step)
      && (step.Event? ==> step.sent && (step.removeKind ==> p !in s.nodes[step.n].files))
      && (step.DeliverUpsert? ==> step.ufate == Applied(true))
  }

  predicate ReliableRun(s: State, steps: seq<Step>, p: Rel)
    requires Runs(s, steps)
    decreases |steps|
  {
    steps == [] || (ReliableAt(s, steps[0], p) && ReliableRun(Next(s, steps[0]), steps[1..], p))
  }

  // ---------------------------------------------------------------- slots

  /** A slot after an incoming update, and after its event as well. */
  function Received(x: Slot, bytes: Bytes): Slot {
    Slot(Some(bytes), Some(Hash(bytes)), x.removed, true,
         if x.file.Some? && x.file.value != bytes then x.file else x.backup)
  }

  function Settled(x: Slot, bytes: Bytes): Slot {
    Received(x, bytes).(marker := None, dirty := false)
  }

  /** The writer's slot once its update is out. */
  function Sent(x: Slot, bytes: Bytes): Slot {
    x.(file := Some(bytes), marker := Some(Hash(bytes)), dirty := false)
  }

  lemma EventElsewhere(n: Node, q: Rel, removeKind: bool, sent: bool, p: Rel, tag: string)
    requires q != p
    ensures SlotOf(OnEvent(n, q, removeKind, sent).0, p, tag) == SlotOf(n, p, tag)
  {
  }

  lemma UpsertElsewhere(n: Node, q: Rel, bytes: Bytes, from: PeerId, fate: UpsertFate, p: Rel, tag: string)
    requires q != p && UpsertPossible(n, q, bytes, fate)
    ensures SlotOf(ReceiveUpsert(n, q, bytes, from, fate), p, tag) == SlotOf(n, p, tag)
  {
  }

  lemma UserElsewhere(n: Node, q: Rel, bytes: Bytes, p: Rel, tag: string)
    requires q != p
    ensures SlotOf(UserWrite(n, q, bytes), p, tag) == SlotOf(n, p, tag)
    ensures SlotOf(UserDelete(n, q), p, tag) == SlotOf(n, p, tag)
  {
  }

  lemma TombstoneElsewhere(n: Node, q: Rel, fate: TombstoneFate, p: Rel, tag: string)
    requires q != p
    ensures SlotOf(ReceiveTombstone(n, q, fate), p, tag) == SlotOf(n, p, tag)
  {
  }

  lemma OtherPathsUntouched(s: State, step: Step, p: Rel, tag: string, i: nat)
    requires Enabled(s, step) && PathOf(step) != p && i < |s.nodes|
    ensures SlotOf(Next(s, step).nodes[i], p, tag) == SlotOf(s.nodes[i], p, tag)
  {
    match step
    case Write(n, q, bytes) => UserElsewhere(s.nodes[n], q, bytes, p, tag);
    case Delete(n, q) => UserElsewhere(s.nodes[n], q, [], p, tag);
    case Event(n, q, removeKind, sent) => EventElsewhere(s.nodes[n], q, removeKind, sent, p, tag);
    case DeliverUpsert(u, fate) =>
      UpsertElsewhere(s.nodes[u.to], u.path, u.bytes, s.nodes[u.from].id, fate, p, tag);
    case DeliverTombstone(t, fate) => TombstoneElsewhere(s.nodes[t.to], t.path, fate, p, tag);
  }

  lemma CopiesElsewhere(k: nat, from: nat, q: Rel, out: Outgoing, p: Rel)
    requires q != p
    ensures out.SendUpsert? ==>
              forall u: UpsertMsg :: u.path == p ==> UpsertCopies(k, from, q, out.bytes)[u] == 0
    ensures forall t: TombstoneMsg :: t.path == p ==> TombstoneCopies(k, from, q)[t] == 0
  {
    if out.SendUpsert? { UpsertCopiesAre(k, from, q, out.bytes); }
    TombstoneCopiesAre(k, from, q);
  }

  lemma OtherPathsMessages(s: State, step: Step, p: Rel)
    requires Enabled(s, step) && PathOf(step) != p
    ensures forall u: UpsertMsg :: u.path == p ==> Next(s, step).upserts[u] == s.upserts[u]
    ensures forall t: TombstoneMsg :: t.path == p ==> Next(s, step).tombstones[t] == s.tombstones[t]
  {
    if step.Event? {
      CopiesElsewhere(|s.nodes|, step.n, step.path,
                      OnEvent(s.nodes[step.n], step.path, step.removeKind, step.sent).1, p);
    }
  }

  lemma IdsKept(s: State, step: Step, i: nat)
    requires Enabled(s, step) && i < |s.nodes|
    ensures Next(s, step).nodes[i].id == s.nodes[i].id
  {
  }

  lemma SlotReceived(n: Node, p: Rel, bytes: Bytes, from: PeerId)
    requires UpsertPossible(n, p, bytes, Applied(true))
    ensures SlotOf(ReceiveUpsert(n, p, bytes, from, Applied(true)), p, ShortId(from))
            == Received(SlotOf(n, p, ShortId(from)), bytes)
  {
  }

  /** The closure, at the slot: absorbed when the marker is the hash of the file;
      otherwise a file that exists is broadcast. */
  lemma SlotEvent(n: Node, p: Rel, tag: string)
    requires p in n.dirty && p in n.files && |n.files[p]| <= MAX_FILE_SIZE
    ensures var x := SlotOf(n, p, tag);
            var (m, out) := OnEvent(n, p, false, true);
            if x.marker == Some(Hash(n.files[p])) then
              out == Nothing && SlotOf(m, p, tag) == x.(marker := None, dirty := false)
            else
              out == SendUpsert(n.files[p]) && SlotOf(m, p, tag) == Sent(x, n.files[p])
  {
  }

  // ---------------------------------------------------------------- the write and its propagation

  /** The update of the writer `w` for the node `to`. */
  function Copy(to: nat, w: nat, p: Rel, bytes: Bytes): UpsertMsg { UpsertMsg(to, w, p, bytes) }

  /** `s` is reached from `b`, quiet at `p`, by the write of `bytes` at `w`, whose
      event has not been handled. */
  ghost predicate BeforeEvent(b: State, s: State, w: nat, p: Rel, bytes: Bytes)
    requires w < |b.nodes|
  {
    var tag := ShortId(b.nodes[w].id);
    && SameShape(b, s)
    && (forall u :: u in s.upserts ==> u.path != p)
    && (forall t :: t in s.tombstones ==> t.path != p)
    && SlotOf(s.nodes[w], p, tag) == SlotOf(b.nodes[w], p, tag).(file := Some(bytes), dirty := true)
    && (forall i :: 0 <= i < |b.nodes| && i != w ==> SlotOf(s.nodes[i], p, tag) == SlotOf(b.nodes[i], p, tag))
  }

  ghost predicate SameShape(b: State, s: State) {
    |s.nodes| == |b.nodes| && forall i :: 0 <= i < |b.nodes| ==> s.nodes[i].id == b.nodes[i].id
  }

  /** The update is out: every other node still waits for its copy or has taken it in. */
  ghost predicate Spreading(b: State, s: State, w: nat, p: Rel, bytes: Bytes)
    requires w < |b.nodes|
  {
    var tag := ShortId(b.nodes[w].id);
    && SameShape(b, s)
    && (forall t :: t in s.tombstones ==> t.path != p)
    && (forall u :: u in s.upserts && u.path == p ==>
          s.upserts[u] == 1 && u == Copy(u.to, w, p, bytes) && u.to != w)
    && SlotOf(s.nodes[w], p, tag) == Sent(SlotOf(b.nodes[w], p, tag), bytes)
    && (forall i :: 0 <= i < |b.nodes| && i != w ==>
          Progress(SlotOf(b.nodes[i], p, tag), SlotOf(s.nodes[i], p, tag), Copy(i, w, p, bytes) in s.upserts, bytes))
  }

  predicate Progress(before: Slot, now: Slot, waiting: bool, bytes: Bytes) {
    if waiting then now == before else now == Received(before, bytes) || now == Settled(before, bytes)
  }

  /** The marker absorbed the event of the write: it never goes out. */
  ghost predicate Muted(b: State, s: State, w: nat, p: Rel, bytes: Bytes)
    requires w < |b.nodes|
  {
    var tag := ShortId(b.nodes[w].id);
    && SameShape(b, s)
    && QuietAt(s, p)
    && SlotOf(s.nodes[w], p, tag).file == Some(bytes)
    && (forall i :: 0 <= i < |b.nodes| && i != w ==> SlotOf(s.nodes[i], p, tag) == SlotOf(b.nodes[i], p, tag))
  }

  /** The guard of the closure's branch that sends: the marker left at the writer
      is not the hash of what is written. */
  predicate Noticed(b: State, w: nat, p: Rel, bytes: Bytes)
    requires w < |b.nodes|
  {
    Lookup(b.nodes[w].lastWritten, p) != Some(Hash(bytes))
  }

  ghost predicate Phase(b: State, s: State, w: nat, p: Rel, bytes: Bytes)
    requires w < |b.nodes|
  {
    || BeforeEvent(b, s, w, p, bytes)
    || (if Noticed(b, w, p, bytes) then Spreading(b, s, w, p, bytes) else Muted(b, s, w, p, bytes))
  }

  lemma WriteStarts(b: State, w: nat, p: Rel, bytes: Bytes)
    requires w < |b.nodes| && QuietAt(b, p)
    ensures BeforeEvent(b, Next(b, Write(w, p, bytes)), w, p, bytes)
  {
  }

  /** `s` and `t` agree on everything about `p`. */
  ghost predicate SameAt(s: State, t: State, p: Rel, tag: string) {
    && |s.nodes| == |t.nodes|
    && (forall u: UpsertMsg :: u.path == p ==> t.upserts[u] == s.upserts[u])
    && (forall d: TombstoneMsg :: d.path == p ==> t.tombstones[d] == s.tombstones[d])
    && (forall i :: 0 <= i < |s.nodes| ==>
          t.nodes[i].id == s.nodes[i].id && SlotOf(t.nodes[i], p, tag) == SlotOf(s.nodes[i], p, tag))
  }

  lemma OtherPathsSame(s: State, step: Step, p: Rel, tag: string)
    requires Enabled(s, step) && PathOf(step) != p
    ensures SameAt(s, Next(s, step), p, tag)
  {
    OtherPathsMessages(s, step, p);
    forall i | 0 <= i < |s.nodes|
      ensures Next(s, step).nodes[i].id == s.nodes[i].id
      ensures SlotOf(Next(s, step).nodes[i], p, tag) == SlotOf(s.nodes[i], p, tag)
    {
      IdsKept(s, step, i);
      OtherPathsUntouched(s, step, p, tag, i);
    }
  }

  lemma SamePhase(b: State, s: State, t: State, w: nat, p: Rel, bytes: Bytes)
    requires w < |b.nodes| && Phase(b, s, w, p, bytes) && SameAt(s, t, p, ShortId(b.nodes[w].id))
    ensures Phase(b, t, w, p, bytes)
  {
    var tag := ShortId(b.nodes[w].id);
    forall u: UpsertMsg | u.path == p
      ensures u in t.upserts <==> u in s.upserts
    {
      assert t.upserts[u] == s.upserts[u];
    }
    forall d: TombstoneMsg | d.path == p
      ensures d in t.tombstones <==> d in s.tombstones
    {
      assert t.tombstones[d] == s.tombstones[d];
    }
    if BeforeEvent(b, s, w, p, bytes) {
      assert BeforeEvent(b, t, w, p, bytes);
    } else if Noticed(b, w, p, bytes) {
      assert Spreading(b, t, w, p, bytes);
    } else {
      forall i | 0 <= i < |t.nodes|
        ensures p !in t.nodes[i].dirty
      {
        assert SlotOf(t.nodes[i], p, tag) == SlotOf(s.nodes[i], p, tag);
      }
      assert Muted(b, t, w, p, bytes);
    }
  }

  /** `t` is `s` with the update of `w` broadcast. */
  ghost predicate Broadcast(s: State, t: State, w: nat, p: Rel, bytes: Bytes, tag: string)
    requires w < |s.nodes|
  {
    && t.upserts == s.upserts + UpsertCopies(|s.nodes|, w, p, bytes)
    && t.tombstones == s.tombstones
    && |t.nodes| == |s.nodes|
    && (forall i :: 0 <= i < |s.nodes| && i != w ==> t.nodes[i] == s.nodes[i])
    && t.nodes[w].id == s.nodes[w].id
    && SlotOf(t.nodes[w], p, tag) == Sent(SlotOf(s.nodes[w], p, tag), bytes)
  }

  lemma WriteBroadcast(b: State, s: State, w: nat, p: Rel, bytes: Bytes)
    requires w < |b.nodes| && QuietAt(b, p) && |bytes| <= MAX_FILE_SIZE && Noticed(b, w, p, bytes)
    requires BeforeEvent(b, s, w, p, bytes) && Enabled(s, Event(w, p, false, true))
    ensures Broadcast(s, Next(s, Event(w, p, false, true)), w, p, bytes, ShortId(b.nodes[w].id))
  {
    var tag := ShortId(b.nodes[w].id);
    assert SlotOf(s.nodes[w], p, tag).file == Some(bytes);
    SlotEvent(s.nodes[w], p, tag);
  }

  lemma CopiesInFlight(s: State, t: State, w: nat, p: Rel, bytes: Bytes)
    requires w < |s.nodes| && t.upserts == s.upserts + UpsertCopies(|s.nodes|, w, p, bytes)
    requires forall u :: u in s.upserts ==> u.path != p
    ensures forall u :: u in t.upserts && u.path == p ==> t.upserts[u] == 1 && u == Copy(u.to, w, p, bytes) && u.to != w
    ensures forall i :: 0 <= i < |s.nodes| && i != w ==> Copy(i, w, p, bytes) in t.upserts
  {
    UpsertCopiesAre(|s.nodes|, w, p, bytes);
    forall u | u in t.upserts && u.path == p
      ensures t.upserts[u] == 1 && u == Copy(u.to, w, p, bytes) && u.to != w
    {
      assert u !in s.upserts;
    }
    forall i | 0 <= i < |s.nodes| && i != w
      ensures Copy(i, w, p, bytes) in t.upserts
    {
      assert UpsertCopies(|s.nodes|, w, p, bytes)[Copy(i, w, p, bytes)] == 1;
    }
  }

  lemma SpreadingStarts(b: State, s: State, t: State, w: nat, p: Rel, bytes: Bytes)
    requires w < |b.nodes| && BeforeEvent(b, s, w, p, bytes)
    requires Broadcast(s, t, w, p, bytes, ShortId(b.nodes[w].id))
    ensures Spreading(b, t, w, p, bytes)
  {
    CopiesInFlight(s, t, w, p, bytes);
  }

  lemma WriteMuted(b: State, s: State, w: nat, p: Rel, bytes: Bytes)
    requires w < |b.nodes| && QuietAt(b, p) && |bytes| <= MAX_FILE_SIZE && !Noticed(b, w, p, bytes)
    requires BeforeEvent(b, s, w, p, bytes) && Enabled(s, Event(w, p, false, true))
    ensures Muted(b, Next(s, Event(w, p, false, true)), w, p, bytes)
  {
    var t := Next(s, Event(w, p, false, true));
    var tag := ShortId(b.nodes[w].id);
    assert SlotOf(s.nodes[w], p, tag).file == Some(bytes);
    SlotEvent(s.nodes[w], p, tag);
    forall i | 0 <= i < |t.nodes|
      ensures p !in t.nodes[i].dirty
    {
      assert i != w ==> SlotOf(t.nodes[i], p, tag) == SlotOf(b.nodes[i], p, tag);
      assert SlotOf(t.nodes[i], p, tag).dirty == false;
    }
  }

  /** The event of the write: broadcast when noticed, absorbed otherwise. */
  lemma WriterEvent(b: State, s: State, w: nat, p: Rel, bytes: Bytes, removeKind: bool)
    requires w < |b.nodes| && QuietAt(b, p) && |bytes| <= MAX_FILE_SIZE
    requires BeforeEvent(b, s, w, p, bytes) && Enabled(s, Event(w, p, removeKind, true))
    requires ReliableAt(s, Event(w, p, removeKind, true), p)
    ensures Phase(b, Next(s, Event(w, p, removeKind, true)), w, p, bytes)
  {
    assert SlotOf(s.nodes[w], p, ShortId(b.nodes[w].id)).file == Some(bytes);
    if Noticed(b, w, p, bytes) {
      WriteBroadcast(b, s, w, p, bytes);
      SpreadingStarts(b, s, Next(s, Event(w, p, false, true)), w, p, bytes);
    } else {
      WriteMuted(b, s, w, p, bytes);
    }
  }

  /** A receiver's own event is absorbed. */
  lemma ReceiverEvent(b: State, s: State, w: nat, p: Rel, bytes: Bytes, i: nat, removeKind: bool)
    requires w < |b.nodes| && QuietAt(b, p) && |bytes| <= MAX_FILE_SIZE
    requires Spreading(b, s, w, p, bytes) && Enabled(s, Event(i, p, removeKind, true))
    requires ReliableAt(s, Event(i, p, removeKind, true), p)
    ensures Spreading(b, Next(s, Event(i, p, removeKind, true)), w, p, bytes)
  {
    var tag := ShortId(b.nodes[w].id);
    var x, y := SlotOf(b.nodes[i], p, tag), SlotOf(s.nodes[i], p, tag);
    assert y.dirty && i != w;
    assert !x.dirty;
    assert y == Received(x, bytes) && Copy(i, w, p, bytes) !in s.upserts;
    SlotEvent(s.nodes[i], p, tag);
    var t := Next(s, Event(i, p, false, true));
    assert t.upserts == s.upserts && t.tombstones == s.tombstones;
    assert SlotOf(t.nodes[i], p, tag) == Settled(x, bytes);
  }

  lemma CopyDelivered(b: State, s: State, w: nat, p: Rel, bytes: Bytes, u: UpsertMsg)
    requires w < |b.nodes| && QuietAt(b, p) && |bytes| <= MAX_FILE_SIZE
    requires Spreading(b, s, w, p, bytes) && u.path == p && Enabled(s, DeliverUpsert(u, Applied(true)))
    ensures Spreading(b, Next(s, DeliverUpsert(u, Applied(true))), w, p, bytes)
  {
    var tag := ShortId(b.nodes[w].id);
    var t := Next(s, DeliverUpsert(u, Applied(true)));
    assert u == Copy(u.to, w, p, bytes) && s.upserts[u] == 1;
    SlotReceived(s.nodes[u.to], p, bytes, b.nodes[w].id);
    assert SlotOf(t.nodes[u.to], p, tag) == Received(SlotOf(b.nodes[u.to], p, tag), bytes);
    assert u !in t.upserts;
    forall i | 0 <= i < |b.nodes| && i != w
      ensures Progress(SlotOf(b.nodes[i], p, tag), SlotOf(t.nodes[i], p, tag), Copy(i, w, p, bytes) in t.upserts, bytes)
    {
      assert Progress(SlotOf(b.nodes[i], p, tag), SlotOf(s.nodes[i], p, tag), Copy(i, w, p, bytes) in s.upserts, bytes);
      if i != u.to {
        assert Copy(i, w, p, bytes) != u;
        assert t.upserts[Copy(i, w, p, bytes)] == s.upserts[Copy(i, w, p, bytes)];
      }
    }
  }

  lemma OnlyWriterDirty(b: State, s: State, w: nat, p: Rel, bytes: Bytes, i: nat)
    requires w < |b.nodes| && QuietAt(b, p) && BeforeEvent(b, s, w, p, bytes) && i < |b.nodes|
    ensures p in s.nodes[i].dirty <==> i == w
  {
    var tag := ShortId(b.nodes[w].id);
    assert p in s.nodes[i].dirty <==> SlotOf(s.nodes[i], p, tag).dirty;
  }

  lemma PhaseKept(b: State, s: State, w: nat, p: Rel, bytes: Bytes, step: Step)
    requires w < |b.nodes| && QuietAt(b, p) && |bytes| <= MAX_FILE_SIZE
    requires Phase(b, s, w, p, bytes) && Enabled(s, step) && ReliableAt(s, step, p)
    ensures Phase(b, Next(s, step), w, p, bytes)
  {
    var tag := ShortId(b.nodes[w].id);
    if PathOf(step) != p {
      OtherPathsSame(s, step, p, tag);
      SamePhase(b, s, Next(s, step), w, p, bytes);
    } else if BeforeEvent(b, s, w, p, bytes) {
      assert step.Event?;
      OnlyWriterDirty(b, s, w, p, bytes, step.n);
      WriterEvent(b, s, w, p, bytes, step.removeKind);
    } else if Noticed(b, w, p, bytes) {
      match step
      case Event(i, _, removeKind, _) => ReceiverEvent(b, s, w, p, bytes, i, removeKind);
      case DeliverUpsert(u, _) => CopyDelivered(b, s, w, p, bytes, u);
      case _ =>
    }
  }

  lemma {:induction false} PhaseAlong(b: State, s: State, w: nat, p: Rel, bytes: Bytes, steps: seq<Step>)
    requires w < |b.nodes| && QuietAt(b, p) && |bytes| <= MAX_FILE_SIZE && Phase(b, s, w, p, bytes)
    requires Runs(s, steps) && ReliableRun(s, steps, p)
    ensures Phase(b, After(s, steps), w, p, bytes)
    decreases |steps|
  {
    if steps != [] {
      PhaseKept(b, s, w, p, bytes, steps[0]);
      PhaseAlong(b, Next(s, steps[0]), w, p, bytes, steps[1..]);
    }
  }

  /** Main result, with its exact condition. One user writes `p`; on `p` nothing else
      is done and nothing fails; on the other paths anything goes. When `p` is quiet
      again, all nodes hold what was written if and only if the closure's guard let
      the event through or all the others held it already. In the first case the
      content each other node had is in its backup slot for the writer. */
  lemma LoneWriterConverges(b: State, w: nat, p: Rel, bytes: Bytes, steps: seq<Step>)
    requires w < |b.nodes| && QuietAt(b, p) && |bytes| <= MAX_FILE_SIZE
    requires var s := Next(b, Write(w, p, bytes)); Runs(s, steps) && ReliableRun(s, steps, p)
    requires QuietAt(After(Next(b, Write(w, p, bytes)), steps), p)
    ensures var t := After(Next(b, Write(w, p, bytes)), steps);
            && |t.nodes| == |b.nodes|
            && ((forall i :: 0 <= i < |b.nodes| ==> Lookup(t.nodes[i].files, p) == Some(bytes)) <==>
                || Noticed(b, w, p, bytes)
                || (forall i :: 0 <= i < |b.nodes| && i != w ==> Lookup(b.nodes[i].files, p) == Some(bytes)))
            && (Noticed(b, w, p, bytes) ==>
                  forall i :: 0 <= i < |b.nodes| && i != w && p in b.nodes[i].files && b.nodes[i].files[p] != bytes ==>
                    Lookup(t.nodes[i].backups, (p, ShortId(b.nodes[w].id))) == Some(b.nodes[i].files[p]))
  {
    var s := Next(b, Write(w, p, bytes));
    var t := After(s, steps);
    var tag := ShortId(b.nodes[w].id);
    WriteStarts(b, w, p, bytes);
    PhaseAlong(b, s, w, p, bytes, steps);
    assert !SlotOf(t.nodes[w], p, tag).dirty;
    assert SlotOf(t.nodes[w], p, tag).file == Some(bytes);
    forall i | 0 <= i < |b.nodes| && i != w
      ensures SlotOf(t.nodes[i], p, tag)
              == if Noticed(b, w, p, bytes) then Settled(SlotOf(b.nodes[i], p, tag), bytes)
                 else SlotOf(b.nodes[i], p, tag)
    {
      if Noticed(b, w, p, bytes) {
        assert Copy(i, w, p, bytes) !in t.upserts;
        assert !SlotOf(t.nodes[i], p, tag).dirty;
      }
    }
  }

  // ---------------------------------------------------------------- the whole mesh

  lemma {:induction false} QuietStaysQuiet(s: State, steps: seq<Step>, q: Rel, tag: string)
    requires Runs(s, steps) && QuietAt(s, q)
    requires forall k :: 0 <= k < |steps| ==> !(ByUser(steps[k]) && PathOf(steps[k]) == q)
    ensures QuietAt(After(s, steps), q) && SameAt(s, After(s, steps), q, tag)
    decreases |steps|
  {
    if steps != [] {
      var t := Next(s, steps[0]);
      assert PathOf(steps[0]) != q;
      OtherPathsSame(s, steps[0], q, tag);
      SameQuiet(s, t, q, tag);
      QuietStaysQuiet(t, steps[1..], q, tag);
    }
  }

  lemma SameQuiet(s: State, t: State, q: Rel, tag: string)
    requires QuietAt(s, q) && SameAt(s, t, q, tag)
    ensures QuietAt(t, q)
  {
    forall u | u in t.upserts ensures u.path != q {
      assert u.path == q ==> t.upserts[u] == s.upserts[u];
    }
    forall d | d in t.tombstones ensures d.path != q {
      assert d.path == q ==> t.tombstones[d] == s.tombstones[d];
    }
    forall i | 0 <= i < |t.nodes| ensures q !in t.nodes[i].dirty {
      assert SlotOf(t.nodes[i], q, tag) == SlotOf(s.nodes[i], q, tag);
    }
  }

  /** One noticed write in a mesh at rest: when the mesh is at rest again, every node
      holds its old files with exactly that write made. */
  lemma LoneWriteWholeMesh(b: State, w: nat, p: Rel, bytes: Bytes, steps: seq<Step>)
    requires w < |b.nodes| && Quiescent(b) && Noticed(b, w, p, bytes) && |bytes| <= MAX_FILE_SIZE
    requires LoneRun(b, w, p, bytes, steps)
    requires Quiescent(After(Next(b, Write(w, p, bytes)), steps))
    ensures WriteEverywhere(b, After(Next(b, Write(w, p, bytes)), steps), p, bytes)
  {
    var s := Next(b, Write(w, p, bytes));
    var t := After(s, steps);
    LoneWriterConverges(b, w, p, bytes, steps);
    forall i, q | 0 <= i < |b.nodes| && q != p
      ensures Lookup(t.nodes[i].files, q) == Lookup(b.nodes[i].files, q)
    {
      OtherPathsUntouched(b, Write(w, p, bytes), q, "", i);
      assert QuietAt(s, q);
      QuietStaysQuiet(s, steps, q, "");
      assert SlotOf(t.nodes[i], q, "") == SlotOf(b.nodes[i], q, "");
    }
    forall i | 0 <= i < |b.nodes|
      ensures t.nodes[i].files == b.nodes[i].files[p := bytes]
    {
      assert Lookup(t.nodes[i].files, p) == Some(bytes);
      SameMap(t.nodes[i].files, b.nodes[i].files[p := bytes]);
    }
  }

  /** After the write of `bytes` at `w` nobody acts, and nothing fails on `p`. */
  predicate LoneRun(b: State, w: nat, p: Rel, bytes: Bytes, steps: seq<Step>)
    requires w < |b.nodes|
  {
    var s := Next(b, Write(w, p, bytes));
    Runs(s, steps) && ReliableRun(s, steps, p) && forall k :: 0 <= k < |steps| ==> !ByUser(steps[k])
  }

  ghost predicate WriteEverywhere(b: State, t: State, p: Rel, bytes: Bytes) {
    |t.nodes| == |b.nodes| && forall i :: 0 <= i < |b.nodes| ==> t.nodes[i].files == b.nodes[i].files[p := bytes]
  }

  /** The mesh can go on by itself without a failure on `p`. */
  ghost predicate CanGoOn(s: State, p: Rel) {
    exists step :: Enabled(s, step) && !ByUser(step) && ReliableAt(s, step, p)
  }

  /** No update for `p` in flight is too large to be taken in. */
  ghost predicate Acceptable(s: State, p: Rel) {
    forall u :: u in s.upserts && u.path == p ==> |u.bytes| <= MAX_FILE_SIZE
  }

  lemma ReliableStepLeft(s: State, p: Rel) returns (step: Step)
    requires Coherence(s) && !Quiescent(s) && Acceptable(s, p)
    ensures Enabled(s, step) && !ByUser(step) && ReliableAt(s, step, p)
  {
    if s.upserts != multiset{} {
      var u :| u in s.upserts;
      step := DeliverUpsert(u, if u.path == p then Applied(true) else Ignored);
    } else if s.tombstones != multiset{} {
      var t :| t in s.tombstones;
      step := DeliverTombstone(t, TIgnored);
    } else {
      var i :| 0 <= i < |s.nodes| && s.nodes[i].dirty != {};
      var q :| q in s.nodes[i].dirty;
      step := Event(i, q, false, true);
    }
  }

  /** No reliable run is stuck before the mesh is at rest. */
  lemma GoesOnExactly(s: State, p: Rel)
    requires Coherence(s) && Acceptable(s, p)
    ensures CanGoOn(s, p) <==> !Quiescent(s)
  {
    if !Quiescent(s) {
      var step := ReliableStepLeft(s, p);
    }
  }

  lemma PhaseAcceptable(b: State, s: State, w: nat, p: Rel, bytes: Bytes)
    requires w < |b.nodes| && Phase(b, s, w, p, bytes) && |bytes| <= MAX_FILE_SIZE
    ensures Acceptable(s, p)
  {
  }

  /** Main result. A user changes one file in a mesh at rest, at a node whose
      marker for it is fresh, and nobody acts after that. As long as nothing fails on the path, whatever
      happens on the others: every run is bounded by the work there is, can go on exactly
      while the mesh is not at rest, and where it can go on no more every node holds its
      old files with exactly that write made. */
  lemma {:induction false} LoneWriteSettles(b: State, w: nat, p: Rel, bytes: Bytes, steps: seq<Step>)
    requires w < |b.nodes| && Quiescent(b) && Coherence(b) && MarkerFreshAt(b.nodes[w], p)
    requires Lookup(b.nodes[w].files, p) != Some(bytes) && |bytes| <= MAX_FILE_SIZE
    requires LoneRun(b, w, p, bytes, steps)
    ensures var s := Next(b, Write(w, p, bytes));
            var t := After(s, steps);
            && |steps| <= Quiescence.Work(s)
            && (CanGoOn(t, p) <==> !Quiescent(t))
            && (!CanGoOn(t, p) ==> WriteEverywhere(b, t, p, bytes))
  {
    var s := Next(b, Write(w, p, bytes));
    var t := After(s, steps);
    CoherenceKept(b, Write(w, p, bytes));
    Quiescence.CoherenceAlong(s, steps);
    Quiescence.StopsWithoutUsers(s, steps);
    WriteStarts(b, w, p, bytes);
    PhaseAlong(b, s, w, p, bytes, steps);
    PhaseAcceptable(b, t, w, p, bytes);
    GoesOnExactly(t, p);
    FreshExactly(b, w, p);
    if Quiescent(t) {
      LoneWriteWholeMesh(b, w, p, bytes, steps);
    }
  }

  lemma SameMap<K, V>(a: map<K, V>, b: map<K, V>)
    requires forall k :: Lookup(a, k) == Lookup(b, k)
    ensures a == b
  {
    forall k ensures k in a <==> k in b {
      assert Lookup(a, k) == Lookup(b, k);
    }
    forall k | k in a ensures a[k] == b[k] {
      assert Lookup(a, k) == Lookup(b, k);
    }
  }

  // ---------------------------------------------------------------- when a write is noticed

  /** A marker no event is coming for is the hash of the file. */
  predicate MarkerFreshAt(n: Node, p: Rel) {
    p in n.lastWritten && p !in n.dirty ==> EchoAbsorbed(n, p)
  }

  /** At a path no event is coming for, the marker is fresh exactly when every write
      that changes the content is noticed. */
  lemma FreshExactly(b: State, w: nat, p: Rel)
    requires w < |b.nodes| && p !in b.nodes[w].dirty
    ensures MarkerFreshAt(b.nodes[w], p) <==>
            forall bytes :: Lookup(b.nodes[w].files, p) != Some(bytes) ==> Noticed(b, w, p, bytes)
  {
    var n := b.nodes[w];
    if !MarkerFreshAt(n, p) {
      var stale := n.lastWritten[p].preimage;
      assert Lookup(n.files, p) != Some(stale) && !Noticed(b, w, p, stale);
    }
  }

  /** An update for `p` fails at node `i` after the conflict backup, and no event tells
      that the file is gone. */
  predicate LostUnnoticed(step: Step, i: nat, p: Rel) {
    step.DeliverUpsert? && step.u.to == i && step.u.path == p && step.ufate == OnlyBackedUp(false)
  }

  predicate EventAt(step: Step, i: nat, p: Rel) { step.Event? && step.n == i && step.path == p }

  lemma EventFreshens(n: Node, q: Rel, removeKind: bool, sent: bool, p: Rel)
    requires q == p || MarkerFreshAt(n, p)
    ensures MarkerFreshAt(OnEvent(n, q, removeKind, sent).0, p)
  {
  }

  lemma UpsertFreshens(n: Node, q: Rel, bytes: Bytes, from: PeerId, fate: UpsertFate, p: Rel)
    requires UpsertPossible(n, q, bytes, fate) && MarkerFreshAt(n, p) && (q == p ==> fate != OnlyBackedUp(false))
    ensures MarkerFreshAt(ReceiveUpsert(n, q, bytes, from, fate), p)
  {
  }

  /** A marker stays fresh in every step but one, and an event makes it so. */
  lemma FreshStep(s: State, step: Step, i: nat, p: Rel)
    requires Enabled(s, step) && i < |s.nodes| && !LostUnnoticed(step, i, p)
    requires MarkerFreshAt(s.nodes[i], p) || EventAt(step, i, p)
    ensures MarkerFreshAt(Next(s, step).nodes[i], p)
  {
    match step
    case Event(n, q, removeKind, sent) => if n == i { EventFreshens(s.nodes[i], q, removeKind, sent, p); }
    case DeliverUpsert(u, fate) =>
      if u.to == i { UpsertFreshens(s.nodes[i], u.path, u.bytes, s.nodes[u.from].id, fate, p); }
    case _ =>
  }

  /** Over every run: the marker is fresh if it was at some point, or an event of the
      path was handled, and no update for it was lost unnoticed since. `m` is the number
      of steps up to that point. */
  lemma {:induction false} FreshSince(s: State, steps: seq<Step>, i: nat, p: Rel, m: nat)
    requires Runs(s, steps) && i < |s.nodes| && m <= |steps|
    requires if m == 0 then MarkerFreshAt(s.nodes[i], p) else EventAt(steps[m - 1], i, p)
    requires forall k :: m <= k < |steps| ==> !LostUnnoticed(steps[k], i, p)
    ensures i < |After(s, steps).nodes| && MarkerFreshAt(After(s, steps).nodes[i], p)
    decreases |steps|
  {
    if steps != [] {
      if m <= 1 { FreshStep(s, steps[0], i, p); }
      FreshSince(Next(s, steps[0]), steps[1..], i, p, if m == 0 then 0 else m - 1);
    }
  }

  /** Hence every write that then changes the content is noticed. */
  lemma ChangesAreNoticed(s: State, steps: seq<Step>, i: nat, p: Rel, m: nat, bytes: Bytes)
    requires Runs(s, steps) && i < |s.nodes| && m <= |steps|
    requires if m == 0 then MarkerFreshAt(s.nodes[i], p) else EventAt(steps[m - 1], i, p)
    requires forall k :: m <= k < |steps| ==> !LostUnnoticed(steps[k], i, p)
    requires var b := After(s, steps);
             i < |b.nodes| ==> p !in b.nodes[i].dirty && Lookup(b.nodes[i].files, p) != Some(bytes)
    ensures i < |After(s, steps).nodes| && Noticed(After(s, steps), i, p, bytes)
  {
    FreshSince(s, steps, i, p, m);
    FreshExactly(After(s, steps), i, p);
  }
}
