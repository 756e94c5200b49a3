/** From a user's hand at one daemon to the disk of another, by the contracts of the parts
    alone: what somebody who uses two daemons sees of them. */
module EndToEnd {
  import opened Prelude
  import opened Nodes
  import opened RelPaths
  import opened FileSystem
  import opened SafePaths
  import opened Effects
  import opened Peers
  import TombstoneDedup
  import AllowListFiles
  import AllowLists

  /** A wire path with nothing unusual at it: the watched directory is there, what exists
      of the directories on the way are directories, and the target is a file or nothing. */
  ghost predicate Ordinary(fs: FS, root: Path, rel: string) {
    var key := Split(rel, '/');
    && Canonical(fs, root) && ValidateRelativePath(rel).Ok?
    && root in fs && fs[root].Dir?
    && (forall i :: 0 <= i < |key| && root + key[..i] in fs ==> fs[root + key[..i]].Dir?)
    && (root + key in fs ==> fs[root + key].File?)
  }

  lemma OrdinaryIsSafe(fs: FS, root: Path, rel: string)
    requires Ordinary(fs, root, rel)
    ensures Safe(fs, root, rel)
  {
    var key := Split(rel, '/');
    forall i | 1 <= i <= |key| ensures PrefixSafe(fs, root, key, i) {
      if i == |key| { assert key[..i] == key; }
    }
  }

  lemma OrdinaryRead(fs: FS, root: Path, rel: string)
    requires Ordinary(fs, root, rel)
    ensures Safe(fs, root, rel)
    ensures var abs := root + Split(rel, '/'); ReadFile(fs, abs) == FileAt(fs, abs) && (Stat(fs, abs).Found? <==> abs in fs)
  {
    OrdinaryIsSafe(fs, root, rel);
    SafeReady(fs, root, rel);
    ReadLiteral(fs, root, root + Split(rel, '/'));
  }

  lemma ReadLiteral(fs: FS, root: Path, abs: Path)
    requires Ready(fs, root, abs) && (abs in fs ==> fs[abs].File?)
    ensures ReadFile(fs, abs) == FileAt(fs, abs) && (Stat(fs, abs).Found? <==> abs in fs)
  {
    StatLiteral(fs, abs);
  }

  /** It stays ordinary when a file is received for it. */
  lemma StaysOrdinary(before: FS, after: FS, root: Path, rel: string, from: PeerId, random: string)
    requires Ordinary(before, root, rel) && Canonical(after, root) && OnlyInside(root, before, after)
    requires OthersKept(root + Split(rel, '/'), from, random, before, after)
    requires FileAt(after, root + Split(rel, '/')).Some?
    ensures Ordinary(after, root, rel)
  {
    var key := Split(rel, '/');
    var abs := root + key;
    assert Lookup(after, root) == Lookup(before, root);
    forall i | 0 <= i < |key| && root + key[..i] in after ensures after[root + key[..i]].Dir? {
      var p := root + key[..i];
      assert |p| < |abs| == |BackupFor(abs, from)| == |TempFor(abs, random)|;
      assert Lookup(after, p) == Lookup(before, p) || (p !in before && after[p].Dir?);
    }
  }

  /** Nothing goes wrong while a file is sent. */
  predicate Sends(io: SendIo) { io.compared && io.readable && io.added && io.delivered }

  /** Nothing goes wrong while it is received. */
  predicate Receives(io: UpsertIo) {
    && io.droppedAt == None && io.fetched && io.sizeKnown && io.blobRead && io.readable && io.renamed
    && io.refused == {} && io.tempMade && io.written && io.persisted
  }

  /** An edit goes out once, as what the file holds. */
  method SendEdit(a: Peer, rel: string, io: SendIo) returns (sent: Outgoing, again: Outgoing)
    requires a.joined && Ordinary(a.fs, a.root, rel) && Sends(io)
    requires var content := FileAt(a.fs, a.root + Split(rel, '/'));
             && content.Some? && |content.value| <= 10 * 1024 * 1024
             && Lookup(a.lastWritten, Split(rel, '/')) != Some(Hash(content.value))
    modifies a
    ensures a.fs == old(a.fs) && a.queue == old(a.queue)
    ensures sent == SendUpsert(FileAt(a.fs, a.root + Split(rel, '/')).value) && again == Nothing
  {
    var queued;
    OrdinaryRead(a.fs, a.root, rel);
    sent, queued := a.ActOnEvent(rel, false, io);
    again, queued := a.ActOnEvent(rel, false, io);
  }

  /** What an allowed peer sends is on disk afterwards, displaced content in the backup,
      everything else as it was, and the event of it is silent. */
  method ReceiveFile(b: Peer, rel: string, bytes: Bytes, from: PeerId, list: AllowListFiles.Config, io: UpsertIo, look: SendIo)
      returns (outcome: Outcome, echo: Outgoing)
    requires Ordinary(b.fs, b.root, rel) && |bytes| <= 10 * 1024 * 1024 && (list.openAll || from in list.peers)
    requires Receives(io) && TempApart(b.root, rel, from, io.random) && look.compared
    requires var abs := b.root + Split(rel, '/'); !IsDir(b.fs, BackupFor(abs, from)) && TempFor(abs, io.random) !in b.fs
    modifies b
    ensures outcome == Done && echo == Nothing && b.queue == old(b.queue)
    ensures var abs := b.root + Split(rel, '/');
            && FileAt(b.fs, abs) == Some(bytes)
            && (FileAt(old(b.fs), abs) !in {None, Some(bytes)} ==> FileAt(b.fs, BackupFor(abs, from)) == FileAt(old(b.fs), abs))
            && OthersKept(abs, from, io.random, old(b.fs), b.fs)
    ensures Ordinary(b.fs, b.root, rel)
  {
    var fate, queued;
    OrdinaryRead(b.fs, b.root, rel);
    outcome, fate := b.DispatchUpsert(rel, bytes, from, list, io);
    StaysOrdinary(old(b.fs), b.fs, b.root, rel, from, io.random);
    OrdinaryRead(b.fs, b.root, rel);
    echo, queued := b.ActOnEvent(rel, false, look);
  }

  /** A user's edit at one daemon gets to another that allows it, and neither answers the
      other. */
  method EditArrives(a: Peer, b: Peer, rel: string, list: AllowListFiles.Config, send: SendIo, receive: UpsertIo)
      returns (outcome: Outcome, again: Outgoing, echo: Outgoing)
    requires a != b && a.joined && Ordinary(a.fs, a.root, rel) && Ordinary(b.fs, b.root, rel)
    requires var content := FileAt(a.fs, a.root + Split(rel, '/'));
             && content.Some? && |content.value| <= 10 * 1024 * 1024
             && Lookup(a.lastWritten, Split(rel, '/')) != Some(Hash(content.value))
    requires list.openAll || a.id in list.peers
    requires Sends(send) && Receives(receive) && TempApart(b.root, rel, a.id, receive.random)
    requires var abs := b.root + Split(rel, '/');
             !IsDir(b.fs, BackupFor(abs, a.id)) && TempFor(abs, receive.random) !in b.fs
    modifies a, b
    ensures outcome == Done && a.fs == old(a.fs)
    ensures FileAt(b.fs, b.root + Split(rel, '/')) == FileAt(a.fs, a.root + Split(rel, '/'))
    ensures var abs := b.root + Split(rel, '/');
            && (FileAt(old(b.fs), abs) !in {None, FileAt(b.fs, abs)} ==>
                  FileAt(b.fs, BackupFor(abs, a.id)) == FileAt(old(b.fs), abs))
            && OthersKept(abs, a.id, receive.random, old(b.fs), b.fs)
    ensures again == Nothing && echo == Nothing && a.queue == old(a.queue) && b.queue == old(b.queue)
  {
    var sent;
    sent, again := SendEdit(a, rel, send);
    outcome, echo := ReceiveFile(b, rel, sent.bytes, a.id, list, receive, send);
  }

  /** So does a user's delete: the file is gone, nothing else is, and no marker stays. */
  method DeleteArrives(a: Peer, b: Peer, rel: string, list: AllowListFiles.Config, send: SendIo)
      returns (outcome: Outcome, again: Outgoing, echo: Outgoing)
    requires a != b && a.joined && b.joined && Ordinary(a.fs, a.root, rel) && Ordinary(b.fs, b.root, rel)
    requires var key := Split(rel, '/');
             && a.root + key !in a.fs && key !in a.lastRemoved && b.root + key in b.fs
             && (key in a.tombstoneTimes ==> a.tombstoneTimes[key] + 2000 <= send.now)
    requires (list.openAll || a.id in list.peers) && Sends(send)
    modifies a, b
    ensures outcome == Done && a.fs == old(a.fs) && b.fs == old(b.fs) - {b.root + Split(rel, '/')}
    ensures again == Nothing && echo == Nothing && a.queue == old(a.queue) && b.queue == old(b.queue)
    ensures Split(rel, '/') !in b.lastRemoved && Split(rel, '/') !in a.lastRemoved
  {
    var sent, queued, fate;
    OrdinaryRead(a.fs, a.root, rel);
    sent, queued := a.ActOnEvent(rel, true, send);
    assert sent == SendTombstone;
    again, queued := a.ActOnEvent(rel, true, send);
    OrdinaryRead(b.fs, b.root, rel);
    outcome, fate := b.DispatchTombstone(rel, a.id, list, true);
    GoneNotRead(old(b.fs), b.root, rel);
    echo, queued := b.ActOnEvent(rel, true, send);
  }

  lemma GoneNotRead(before: FS, root: Path, rel: string)
    requires Ordinary(before, root, rel) && Canonical(before - {root + Split(rel, '/')}, root)
    ensures ReadFile(before - {root + Split(rel, '/')}, root + Split(rel, '/')) == None
  {
    OrdinaryRead(before - {root + Split(rel, '/')}, root, rel);
  }

  // ---------------------------------------------------------------- who is heard

  /** Nothing goes wrong while the allowlist is written. */
  predicate Written(dir: AllowListFiles.Directory, io: AllowListFiles.WriteIo) {
    io.dirMade && io.tempMade && AllowListFiles.TempName(io.random) !in dir && io.written && io.modeSet && io.persisted
  }

  /** A start from what another process left reads back the list that process had. */
  method Restart(list: AllowLists.AllowList) returns (next: AllowLists.AllowList)
    requires AllowListFiles.Invertible(list.codec) && list.InStep()
    ensures fresh(next) && next.State() == list.State() && next.codec == list.codec && next.dir == list.dir
  {
    var r := AllowLists.AllowList.LoadOrStrictEmpty(list.codec, list.dir, true);
    AllowListFiles.ReadsBack(list.codec, list.State(), if r.Ok? then Ok(r.value.State()) else Err(r.error));
    next := r.value;
  }

  /** A peer that has been revoked is not heard, also after a restart, by a list that is
      not open; everybody else is as before. */
  method RevokedIsNotHeard(list: AllowLists.AllowList, b: Peer, from: PeerId, write: AllowListFiles.WriteIo,
                           rel: string, bytes: Bytes, io: UpsertIo)
      returns (next: AllowLists.AllowList, update: Outcome, removal: Outcome)
    requires AllowListFiles.Invertible(list.codec) && !list.openAll && Written(list.dir, write)
    requires Canonical(b.fs, b.root) && TempApart(b.root, rel, from, io.random)
    modifies list, b
    ensures update.Skipped? && removal.Skipped? && b.fs == old(b.fs)
    ensures b.lastWritten == old(b.lastWritten) && b.lastRemoved == old(b.lastRemoved)
    ensures !next.openAll && next.peers == old(list.peers) - {from}
  {
    var ok, removed, fate, tombstoneFate;
    ok, removed := list.RemoveAndSave(from, true, write);
    next := Restart(list);
    update, fate := b.DispatchUpsert(rel, bytes, from, next.State(), io);
    removal, tombstoneFate := b.DispatchTombstone(rel, from, next.State(), true);
  }

  /** A peer that has been added is heard, also after a restart. */
  method AddedIsHeard(list: AllowLists.AllowList, b: Peer, from: PeerId, info: AllowListFiles.PeerInfo,
                      write: AllowListFiles.WriteIo, rel: string, bytes: Bytes, io: UpsertIo, look: SendIo)
      returns (next: AllowLists.AllowList, update: Outcome, echo: Outgoing)
    requires AllowListFiles.Invertible(list.codec) && Written(list.dir, write)
    requires Ordinary(b.fs, b.root, rel) && |bytes| <= 10 * 1024 * 1024
    requires Receives(io) && TempApart(b.root, rel, from, io.random) && look.compared
    requires var abs := b.root + Split(rel, '/'); !IsDir(b.fs, BackupFor(abs, from)) && TempFor(abs, io.random) !in b.fs
    modifies list, b
    ensures update == Done && FileAt(b.fs, b.root + Split(rel, '/')) == Some(bytes)
    ensures !next.openAll && next.peers == old(list.peers)[from := info]
  {
    var ok := list.AddAndSave(from, info, true, write);
    next := Restart(list);
    update, echo := ReceiveFile(b, rel, bytes, from, next.State(), io, look);
  }
}
