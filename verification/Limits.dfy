/** What the sync engine does not guarantee: for each tempting claim that fails,
    the inputs on which it fails, and exactly when it holds. */
module Limits {
  import opened Prelude
  import opened Nodes

  /** Further Tombstones for `p`, handled one after the other. */
  function Tombstones(n: Node, p: Rel, fates: seq<TombstoneFate>): Node
    decreases |fates|
  {
    if fates == [] then n else Tombstones(ReceiveTombstone(n, p, fates[0]), p, fates[1..])
  }

  /** "A removal made for a peer is not broadcast again": true exactly when no
      further Tombstone for the path is acted on before the event, for each one
      takes the marker of the first away. */
  lemma {:induction false} TombstoneEcho(n: Node, p: Rel, fates: seq<TombstoneFate>)
    requires p in n.files
    ensures var m := Tombstones(ReceiveTombstone(n, p, THandled), p, fates);
            OnEvent(m, p, true, true).1 == SendTombstone <==> exists k :: 0 <= k < |fates| && fates[k] != TIgnored
  {
    var m := ReceiveTombstone(n, p, THandled);
    TombstonesOnAbsent(m, p, fates);
  }

  lemma {:induction false} TombstonesOnAbsent(n: Node, p: Rel, fates: seq<TombstoneFate>)
    requires p !in n.files
    ensures var m := Tombstones(n, p, fates);
            && p !in m.files
            && (p in m.lastRemoved <==>
                p in n.lastRemoved && forall k :: 0 <= k < |fates| ==> fates[k] == TIgnored)
    decreases |fates|
  {
    if fates != [] {
      TombstonesOnAbsent(ReceiveTombstone(n, p, fates[0]), p, fates[1..]);
      assert forall k :: 1 <= k < |fates| ==> fates[k] == fates[1..][k - 1];
    }
  }

  /** "A user's delete is broadcast": true exactly when no marker of an earlier
      remote removal is left. */
  lemma DeleteBroadcast(n: Node, p: Rel)
    requires p in n.files
    ensures OnEvent(UserDelete(n, p), p, true, true).1 == SendTombstone <==> p !in n.lastRemoved
  {
  }

  /** Such a marker is left when the path is written again before the event of the
      remote removal is handled: the next delete is then swallowed. */
  lemma DeleteSwallowed(n: Node, p: Rel, bytes: Bytes)
    requires p in n.files && Lookup(n.lastWritten, p) != Some(Hash(bytes)) && |bytes| <= MAX_FILE_SIZE
    ensures var rewritten := UserWrite(ReceiveTombstone(n, p, THandled), p, bytes);
            var (sent, out) := OnEvent(rewritten, p, false, true);
            && out == SendUpsert(bytes)
            && OnEvent(UserDelete(sent, p), p, true, true).1 == Nothing
  {
    var rewritten := UserWrite(ReceiveTombstone(n, p, THandled), p, bytes);
    var (sent, out) := OnEvent(rewritten, p, false, true);
    assert p in UserDelete(sent, p).lastRemoved;
  }

  /** An edit is overtaken: when an update arrives before the event of a write, that
      event is absorbed and the edit is in the backup. `ConcurrentWrites.AgreeExactly`
      has what becomes of two edits over whole runs. */
  lemma OvertakenWrite(a: Node, b: Node, p: Rel, x: Bytes, y: Bytes)
    requires |x| <= MAX_FILE_SIZE && x != y && Lookup(a.lastWritten, p) != Some(Hash(x))
    ensures var (a1, outA) := OnEvent(UserWrite(a, p, x), p, false, true);
            && outA == SendUpsert(x)
            && (var (b1, outB) := OnEvent(ReceiveUpsert(UserWrite(b, p, y), p, outA.bytes, a.id, Applied(true)),
                                          p, false, true);
                && outB == Nothing
                && a1.files[p] == b1.files[p] == x
                && Lookup(b1.backups, (p, ShortId(a.id))) == Some(y))
  {
  }

  /** The echo bound needs events coalesced per path: a second event for the same
      reception is taken for an edit. */
  lemma SecondEventEchoes(n: Node, p: Rel, bytes: Bytes, from: PeerId)
    requires |bytes| <= MAX_FILE_SIZE
    ensures var (m, out) := OnEvent(ReceiveUpsert(n, p, bytes, from, Applied(true)), p, false, true);
            && out == Nothing
            && OnEvent(m.(dirty := m.dirty + {p}), p, false, true).1 == SendUpsert(bytes)
  {
  }

  /** A reception that fails between the conflict backup and the write is reported
      as a removal, and removes the file everywhere, exactly when no removal marker
      is left. */
  lemma FailedReceptionDeletes(n: Node, p: Rel, bytes: Bytes, from: PeerId)
    requires p in n.files && n.files[p] != bytes && |bytes| <= MAX_FILE_SIZE
    ensures OnEvent(ReceiveUpsert(n, p, bytes, from, OnlyBackedUp(true)), p, true, true).1 == SendTombstone
            <==> p !in n.lastRemoved
  {
  }

  /** "Every write that changes a file reaches the others": false after a reception
      that failed between backup and write without an event telling that the file is
      gone. Of all that a user may then write, exactly the content this node last
      marked is not sent: putting the old file back is silently kept from the others. */
  lemma RestoredFileNotSent(n: Node, p: Rel, incoming: Bytes, from: PeerId, bytes: Bytes)
    requires p in n.files && EchoAbsorbed(n, p) && p !in n.dirty
    requires incoming != n.files[p] && |incoming| <= MAX_FILE_SIZE && |bytes| <= MAX_FILE_SIZE
    ensures var m := ReceiveUpsert(n, p, incoming, from, OnlyBackedUp(false));
            && p !in m.files && p !in m.dirty
            && OnEvent(UserWrite(m, p, bytes), p, false, true).1
               == if bytes == n.files[p] then Nothing else SendUpsert(bytes)
  {
  }

  /** When the one read in the closure fails, a marker is of no use: a received file is
      sent on. */
  lemma UnreadFileSentOn(n: Node, p: Rel, bytes: Bytes, from: PeerId)
    requires |bytes| <= MAX_FILE_SIZE
    ensures var m := ReceiveUpsert(n, p, bytes, from, Applied(true));
            && OnEvent(m, p, false, true).1 == Nothing
            && OnEvent(Unread(m, p), p, false, true).1 == SendUpsert(bytes)
  {
  }
}
