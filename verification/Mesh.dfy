/** N peers that have all joined, and the messages between them. Every handler is
    one step; users, the watcher and the network may take steps in any order. */
module Mesh {
  import opened Prelude
  import opened Nodes

  datatype UpsertMsg = UpsertMsg(to: nat, from: nat, path: Rel, bytes: Bytes)
  datatype TombstoneMsg = TombstoneMsg(to: nat, from: nat, path: Rel)

  datatype State = State(
    nodes: seq<Node>,
    upserts: multiset<UpsertMsg>,
    tombstones: multiset<TombstoneMsg>)

  datatype Step =
    | Write(n: nat, path: Rel, bytes: Bytes)
    | Delete(n: nat, path: Rel)
    | Event(n: nat, path: Rel, removeKind: bool, sent: bool)
    | DeliverUpsert(u: UpsertMsg, ufate: UpsertFate)
    | DeliverTombstone(t: TombstoneMsg, tfate: TombstoneFate)

  predicate ByUser(step: Step) { step.Write? || step.Delete? }

  /** One copy of a broadcast for each of the nodes below `k` other than the sender. */
  function UpsertCopies(k: nat, from: nat, path: Rel, bytes: Bytes): multiset<UpsertMsg> {
    if k == 0 then multiset{}
    else if k - 1 == from then UpsertCopies(k - 1, from, path, bytes)
    else UpsertCopies(k - 1, from, path, bytes) + multiset{UpsertMsg(k - 1, from, path, bytes)}
  }

  function TombstoneCopies(k: nat, from: nat, path: Rel): multiset<TombstoneMsg> {
    if k == 0 then multiset{}
    else if k - 1 == from then TombstoneCopies(k - 1, from, path)
    else TombstoneCopies(k - 1, from, path) + multiset{TombstoneMsg(k - 1, from, path)}
  }

  predicate Enabled(s: State, step: Step) {
    match step
    case Write(n, _, _) => n < |s.nodes|
    case Delete(n, p) => n < |s.nodes| && p in s.nodes[n].files
    case Event(n, p, _, _) => n < |s.nodes| && p in s.nodes[n].dirty
    case DeliverUpsert(u, fate) =>
      && u in s.upserts && u.to < |s.nodes| && u.from < |s.nodes|
      && UpsertPossible(s.nodes[u.to], u.path, u.bytes, fate)
    case DeliverTombstone(t, _) => t in s.tombstones && t.to < |s.nodes|
  }

  function Next(s: State, step: Step): State
    requires Enabled(s, step)
  {
    match step
    case Write(n, p, bytes) => s.(nodes := s.nodes[n := UserWrite(s.nodes[n], p, bytes)])
    case Delete(n, p) => s.(nodes := s.nodes[n := UserDelete(s.nodes[n], p)])
    case Event(n, p, removeKind, sent) =>
      var (node, out) := OnEvent(s.nodes[n], p, removeKind, sent);
      State(s.nodes[n := node],
            if out.SendUpsert? then s.upserts + UpsertCopies(|s.nodes|, n, p, out.bytes) else s.upserts,
            if out.SendTombstone? then s.tombstones + TombstoneCopies(|s.nodes|, n, p) else s.tombstones)
    case DeliverUpsert(u, fate) =>
      State(s.nodes[u.to := ReceiveUpsert(s.nodes[u.to], u.path, u.bytes, s.nodes[u.from].id, fate)],
            s.upserts - multiset{u}, s.tombstones)
    case DeliverTombstone(t, fate) =>
      State(s.nodes[t.to := ReceiveTombstone(s.nodes[t.to], t.path, fate)],
            s.upserts, s.tombstones - multiset{t})
  }

  /** `steps` can be taken one after the other from `s`. */
  predicate Runs(s: State, steps: seq<Step>)
    decreases |steps|
  {
    steps == [] || (Enabled(s, steps[0]) && Runs(Next(s, steps[0]), steps[1..]))
  }

  function After(s: State, steps: seq<Step>): State
    requires Runs(s, steps)
    decreases |steps|
  {
    if steps == [] then s else After(Next(s, steps[0]), steps[1..])
  }

  ghost predicate AllCoherent(nodes: seq<Node>) {
    forall i :: 0 <= i < |nodes| ==> Coherent(nodes[i])
  }

  ghost predicate Coherence(s: State) {
    && AllCoherent(s.nodes)
    && (forall u :: u in s.upserts ==> u.to < |s.nodes| && u.from < |s.nodes|)
    && (forall t :: t in s.tombstones ==> t.to < |s.nodes|)
  }

  ghost predicate Quiescent(s: State) {
    s.upserts == multiset{} && s.tombstones == multiset{}
    && forall i :: 0 <= i < |s.nodes| ==> s.nodes[i].dirty == {}
  }

  // ---------------------------------------------------------------- broadcasts

  lemma OneCopyMore<M>(copies: multiset<M>, copy: M)
    ensures |copies + multiset{copy}| == |copies| + 1
  {
  }

  lemma {:induction false} UpsertCopiesCount(k: nat, from: nat, path: Rel, bytes: Bytes)
    ensures |UpsertCopies(k, from, path, bytes)| == if from < k then k - 1 else k
  {
    if k > 0 {
      UpsertCopiesCount(k - 1, from, path, bytes);
      OneCopyMore(UpsertCopies(k - 1, from, path, bytes), UpsertMsg(k - 1, from, path, bytes));
    }
  }

  lemma {:induction false} UpsertCopyAt(k: nat, from: nat, path: Rel, bytes: Bytes, u: UpsertMsg)
    ensures UpsertCopies(k, from, path, bytes)[u]
            == if u.to < k && u == UpsertMsg(u.to, from, path, bytes) && u.to != from then 1 else 0
  {
    if k > 0 { UpsertCopyAt(k - 1, from, path, bytes, u); }
  }

  lemma UpsertCopiesAre(k: nat, from: nat, path: Rel, bytes: Bytes)
    ensures |UpsertCopies(k, from, path, bytes)| == if from < k then k - 1 else k
    ensures forall u :: UpsertCopies(k, from, path, bytes)[u]
                        == if u.to < k && u == UpsertMsg(u.to, from, path, bytes) && u.to != from then 1 else 0
  {
    UpsertCopiesCount(k, from, path, bytes);
    forall u { UpsertCopyAt(k, from, path, bytes, u); }
  }

  lemma {:induction false} TombstoneCopiesCount(k: nat, from: nat, path: Rel)
    ensures |TombstoneCopies(k, from, path)| == if from < k then k - 1 else k
  {
    if k > 0 {
      TombstoneCopiesCount(k - 1, from, path);
      OneCopyMore(TombstoneCopies(k - 1, from, path), TombstoneMsg(k - 1, from, path));
    }
  }

  lemma {:induction false} TombstoneCopyAt(k: nat, from: nat, path: Rel, t: TombstoneMsg)
    ensures TombstoneCopies(k, from, path)[t]
            == if t.to < k && t == TombstoneMsg(t.to, from, path) && t.to != from then 1 else 0
  {
    if k > 0 { TombstoneCopyAt(k - 1, from, path, t); }
  }

  lemma TombstoneCopiesAre(k: nat, from: nat, path: Rel)
    ensures |TombstoneCopies(k, from, path)| == if from < k then k - 1 else k
    ensures forall t :: TombstoneCopies(k, from, path)[t]
                        == if t.to < k && t == TombstoneMsg(t.to, from, path) && t.to != from then 1 else 0
  {
    TombstoneCopiesCount(k, from, path);
    forall t { TombstoneCopyAt(k, from, path, t); }
  }

  // ---------------------------------------------------------------- coherence

  lemma OneNodeChanged(nodes: seq<Node>, i: nat, n: Node)
    requires i < |nodes| && Coherent(n) && AllCoherent(nodes)
    ensures AllCoherent(nodes[i := n])
  {
  }

  /** Every handler, with every way it can end, keeps every node coherent. */
  lemma CoherenceKept(s: State, step: Step)
    requires Coherence(s) && Enabled(s, step)
    ensures Coherence(Next(s, step))
  {
    match step
    case Write(n, p, bytes) =>
      UserActionsCoherent(s.nodes[n], p, bytes);
      OneNodeChanged(s.nodes, n, UserWrite(s.nodes[n], p, bytes));
    case Delete(n, p) =>
      UserActionsCoherent(s.nodes[n], p, []);
      OneNodeChanged(s.nodes, n, UserDelete(s.nodes[n], p));
    case Event(n, p, removeKind, sent) =>
      EventKept(s, n, p, removeKind, sent);
    case DeliverUpsert(u, fate) =>
      var from := s.nodes[u.from].id;
      UpsertCoherent(s.nodes[u.to], u.path, u.bytes, from, fate);
      OneNodeChanged(s.nodes, u.to, ReceiveUpsert(s.nodes[u.to], u.path, u.bytes, from, fate));
    case DeliverTombstone(t, fate) =>
      TombstoneCoherent(s.nodes[t.to], t.path, fate);
      OneNodeChanged(s.nodes, t.to, ReceiveTombstone(s.nodes[t.to], t.path, fate));
  }

  lemma EventKept(s: State, n: nat, p: Rel, removeKind: bool, sent: bool)
    requires Coherence(s) && Enabled(s, Event(n, p, removeKind, sent))
    ensures Coherence(Next(s, Event(n, p, removeKind, sent)))
  {
    var (node, out) := OnEvent(s.nodes[n], p, removeKind, sent);
    EventCoherent(s.nodes[n], p, removeKind, sent);
    OneNodeChanged(s.nodes, n, node);
    BroadcastCopies(|s.nodes|, n, p, out);
  }

  /** What one closure call puts in flight: one copy for each other node, and no more. */
  lemma BroadcastCopies(k: nat, from: nat, path: Rel, out: Outgoing)
    requires from < k
    ensures out.SendUpsert? ==>
              && |UpsertCopies(k, from, path, out.bytes)| == k - 1
              && (forall u :: u in UpsertCopies(k, from, path, out.bytes) ==>
                    u.to < k && u == UpsertMsg(u.to, from, path, out.bytes) && u.to != from)
              && (forall i: nat :: i < k && i != from ==>
                    UpsertCopies(k, from, path, out.bytes)[UpsertMsg(i, from, path, out.bytes)] == 1)
    ensures |TombstoneCopies(k, from, path)| == k - 1
    ensures forall t :: t in TombstoneCopies(k, from, path) ==> t.to < k && t == TombstoneMsg(t.to, from, path) && t.to != from
    ensures forall i: nat :: i < k && i != from ==> TombstoneCopies(k, from, path)[TombstoneMsg(i, from, path)] == 1
  {
    TombstoneCopiesAre(k, from, path);
    if out.SendUpsert? {
      UpsertCopiesAre(k, from, path, out.bytes);
    }
  }
}
