/** One daemon: its watched directory and the shared state of reception and watcher. */
module Peers {
  import opened Prelude
  import opened Nodes
  import opened RelPaths
  import opened FileSystem
  import opened SafePaths
  import opened Effects
  import opened TombstoneDedup
  import AllowListFiles

  /** `Dropped`: the reception is abandoned while it waits, with all it holds. */
  datatype Outcome = Done | Skipped(reason: string) | Failed | Dropped

  /** Where a reception waits: for the blob, its size, its bytes, the local file. */
  datatype Wait = ForBlob | ForSize | ForBytes | ForLocalFile

  /** What the environment does to one reception: which of the fallible operations
      succeed, the random part of the temporary name, what is left of a failed write. */
  datatype UpsertIo = UpsertIo(
    droppedAt: Option<Wait>,
    fetched: bool,
    sizeKnown: bool,
    blobRead: bool,
    readable: bool,
    renamed: bool,
    refused: set<Path>,
    tempMade: bool,
    written: bool,
    partial: Bytes,
    persisted: bool,
    tempDropped: bool,
    random: string,
    noticed: bool)

  /** What the environment does to one sending; `compared`: the closure could read the
      file to compare it. */
  datatype SendIo = SendIo(compared: bool, readable: bool, added: bool, delivered: bool, now: nat)

  /** A plain file within the size limit. */
  predicate Sendable(fs: FS, abs: Path) {
    FileAt(fs, abs).Some? && |FileAt(fs, abs).value| <= MAX_FILE_SIZE
  }

  predicate IsDir(fs: FS, p: Path) { p in fs && fs[p].Dir? }

  function BackupFor(abs: Path, from: PeerId): Path
    requires abs != []
  {
    BackupPath(abs, ShortId(from))
  }

  function TempFor(abs: Path, random: string): Path
    requires abs != []
  {
    Parent(abs) + [TempName(random)]
  }

  lemma NamesBeside(abs: Path, from: PeerId, random: string)
    requires abs != [] && PlainNames(abs)
    ensures Sibling(abs, abs) && Sibling(abs, BackupFor(abs, from)) && Sibling(abs, TempFor(abs, random))
    ensures BackupFor(abs, from) != abs
  {
    var b := BackupFor(abs, from);
    assert Parent(b) == Parent(abs) && |b| == |abs|;
    assert Parent(TempFor(abs, random)) == Parent(abs);
    var name := abs[|abs| - 1];
    assert b[|b| - 1] == name + CONFLICT_MARK + ShortId(from);
    assert |b[|b| - 1]| > |name|;
    assert |TempName(random)| > 2;
  }

  /** A path the watcher reports on. */
  predicate Watched(p: Rel) { p != [] && PlainNames(p) && !Skippable(p) }

  /** The watched files and the conflict backups on disk are those of the node. */
  ghost predicate FilesMatch(root: Path, fs: FS, n: Node) {
    && (forall p :: Watched(p) ==> Lookup(n.files, p) == FileAt(fs, root + p))
    && (forall p, tag: string :: Watched(p) && |tag| == 8 ==>
          Lookup(n.backups, (p, tag)) == FileAt(fs, root + BackupPath(p, tag)))
  }

  class Peer {
    const root: Path
    const id: PeerId
    var fs: FS
    var pendingWritten: map<Rel, Hash>
    var lastWritten: map<Rel, Hash>
    var lastRemoved: set<Rel>
    // when a Tombstone was last broadcast for a path
    var tombstoneTimes: map<Rel, nat>
    // the first-join gate
    var joined: bool
    var queue: set<string>

    constructor (root: Path, id: PeerId, fs: FS)
      ensures this.root == root && this.id == id && this.fs == fs
      ensures pendingWritten == map[] && lastWritten == map[] && lastRemoved == {}
      ensures tombstoneTimes == map[] && !joined && queue == {}
    {
      this.root, this.id, this.fs := root, id, fs;
      pendingWritten, lastWritten, lastRemoved := map[], map[], {};
      tombstoneTimes, joined, queue := map[], false, {};
    }

    /** The node this peer is, in the terms of the mesh. */
    ghost predicate Represents(n: Node)
      reads this
    {
      n.id == id && n.lastWritten == lastWritten && n.lastRemoved == lastRemoved && FilesMatch(root, fs, n)
    }

    /** A temporary file that is not renamed into place is unlinked when its handle
        is dropped, or stays when that fails too. */
    method DropTemp(abs: Path, temp: Path, dropped: bool)
      requires Ready(fs, root, abs) && Sibling(abs, temp) && temp in fs && fs[temp].File?
      modifies this`fs
      ensures fs == if dropped then old(fs) - {temp} else old(fs)
      ensures Ready(fs, root, abs)
    {
      UnlinkBeside(fs, root, abs, temp);
      if dropped {
        match Unlink(fs, temp)
        case Ok(after) => fs := after;
        case Err(_) =>
      }
    }

    /** The conflict backup: a readable file with other content is renamed away.
        `failed`: the rename was needed and failed. */
    method BackUp(abs: Path, bytes: Bytes, from: PeerId, readable: bool, allowed: bool)
        returns (moved: bool, failed: bool)
      requires Ready(fs, root, abs) && (abs in fs ==> !fs[abs].Symlink?)
      modifies this`fs
      ensures !(moved && failed) && (!moved ==> fs == old(fs))
      ensures moved || failed <==> readable && FileAt(old(fs), abs) !in {None, Some(bytes)}
      ensures Kept(root, abs, {abs, BackupFor(abs, from)}, old(fs), fs)
      ensures moved ==> FileAt(fs, abs) == None && FileAt(fs, BackupFor(abs, from)) == FileAt(old(fs), abs)
      ensures moved ==> abs !in fs
      ensures moved || failed ==> (failed <==> !allowed || IsDir(old(fs), BackupFor(abs, from)))
    {
      var backup := BackupFor(abs, from);
      NamesBeside(abs, from, "");
      SiblingReady(fs, root, abs, abs);
      StatLiteral(fs, abs);
      var local := if readable then ReadFile(fs, abs) else None;
      if local.None? || local.value == bytes { return false, false; }
      if !allowed { return false, true; }
      RenameBeside(fs, root, abs, abs, backup);
      match Rename(fs, abs, backup)
      case Err(_) => return false, true;
      case Ok(after) => fs := after; return true, false;
    }

    method MakeParents(abs: Path, refused: set<Path>, ghost mine: set<Path>) returns (ok: bool)
      requires Ready(fs, root, abs) && Sibling(abs, abs) && forall p :: p in mine ==> |p| == |abs|
      modifies this`fs
      ensures Kept(root, abs, mine, old(fs), fs) && forall p :: p in mine ==> Lookup(fs, p) == Lookup(old(fs), p)
      ensures ok ==> Parent(abs) in fs
      ensures refused == {} ==> ok
    {
      DirsMade(fs, root, abs, 0, refused);
      var (made, all) := CreateDirAll(fs, abs, |abs| - 1, 0, refused);
      GrownKept(root, abs, mine, fs, made);
      assert abs[..0] == [];
      AllDirsMade(fs, root, abs, 0, refused);
      fs, ok := made, all;
    }

    method PutTemp(abs: Path, temp: Path, content: Bytes) returns (ok: bool)
      requires Ready(fs, root, abs) && Sibling(abs, temp) && Parent(abs) in fs
      modifies this`fs
      ensures if ok then fs == old(fs)[temp := File(content)] else fs == old(fs)
      ensures ok <==> temp !in old(fs)
      ensures Ready(fs, root, abs)
    {
      CreateBeside(fs, root, abs, temp, content);
      match CreateFile(fs, temp, content)
      case Err(_) => ok := false;
      case Ok(after) => fs := after; ok := true;
    }

    method Persist(abs: Path, temp: Path, allowed: bool) returns (ok: bool)
      requires Ready(fs, root, abs) && Sibling(abs, abs) && Sibling(abs, temp) && temp != abs
      requires temp in fs && fs[temp].File?
      modifies this`fs
      ensures fs == if ok then (old(fs) - {temp})[abs := old(fs)[temp]] else old(fs)
      ensures ok <==> allowed && !IsDir(old(fs), abs)
      ensures Ready(fs, root, abs)
    {
      RenameBeside(fs, root, abs, temp, abs);
      match if allowed then Rename(fs, temp, abs) else Err(Errno.Other)
      case Err(_) => ok := false;
      case Ok(after) => fs := after; ok := true;
    }

    /** Temporary file, content, rename: the target gets the new bytes, or nothing
        but perhaps the temporary file is left. */
    method Replace(abs: Path, temp: Path, bytes: Bytes, io: UpsertIo) returns (ok: bool)
      requires Ready(fs, root, abs) && Sibling(abs, abs) && Sibling(abs, temp) && temp != abs && Parent(abs) in fs
      modifies this`fs
      ensures Ready(fs, root, abs)
      ensures if ok then temp !in fs && fs == old(fs)[abs := File(bytes)]
              else fs == old(fs) || exists left :: fs == old(fs)[temp := File(left)]
      ensures temp in old(fs) ==> Lookup(fs, temp) == Lookup(old(fs), temp)
      ensures ok <==> temp !in old(fs) && io.written && io.persisted && !IsDir(old(fs), abs)
    {
      var content := if io.written then bytes else io.partial;
      ok := PutTemp(abs, temp, content);
      if !ok { return; }
      ghost var filled := fs;
      ok := io.written;
      if ok {
        ok := Persist(abs, temp, io.persisted);
      }
      if !ok {
        DropTemp(abs, temp, io.tempDropped);
        assert filled - {temp} == old(fs);
      }
    }

    /** The atomic write, with the directories on the way. */
    method WriteAtomically(abs: Path, bytes: Bytes, io: UpsertIo) returns (ok: bool)
      requires Ready(fs, root, abs) && TempFor(abs, io.random) != abs
      modifies this`fs
      ensures Kept(root, abs, {abs, TempFor(abs, io.random)}, old(fs), fs)
      ensures ok ==> FileAt(fs, abs) == Some(bytes) && FileAt(fs, TempFor(abs, io.random)) == None
      ensures !ok ==> Lookup(fs, abs) == Lookup(old(fs), abs)
      ensures TempFor(abs, io.random) in old(fs) ==>
                Lookup(fs, TempFor(abs, io.random)) == Lookup(old(fs), TempFor(abs, io.random))
      ensures ok ==> io.tempMade && io.written && io.persisted && TempFor(abs, io.random) !in old(fs) && !IsDir(old(fs), abs)
      ensures (&& io.refused == {} && io.tempMade && io.written && io.persisted
               && TempFor(abs, io.random) !in old(fs) && !IsDir(old(fs), abs)) ==> ok
    {
      var temp := TempFor(abs, io.random);
      ghost var mine := {abs, temp};
      NamesBeside(abs, id, io.random);
      ok := MakeParents(abs, io.refused, mine);
      if !ok || !io.tempMade { return false; }
      ghost var made := fs;
      ok := Replace(abs, temp, bytes, io);
      ReplacedKept(root, abs, temp, bytes, ok, old(fs), made, fs);
    }

    /** The conflict backup, then the write. */
    method Install(abs: Path, bytes: Bytes, from: PeerId, io: UpsertIo) returns (ok: bool, fate: UpsertFate)
      requires Ready(fs, root, abs) && (abs in fs ==> !fs[abs].Symlink?)
      requires TempFor(abs, io.random) !in {abs, BackupFor(abs, from)}
      modifies this`fs
      ensures ok <==> fate.Applied?
      ensures Kept(root, abs, Mine(abs, from, io.random), old(fs), fs)
      ensures Received(abs, bytes, from, io.readable, old(fs), fs, fate)
      ensures TempFor(abs, io.random) in old(fs) ==>
                Lookup(fs, TempFor(abs, io.random)) == Lookup(old(fs), TempFor(abs, io.random))
      ensures ok ==> Installable(old(fs), abs, bytes, from, io)
      ensures Installable(old(fs), abs, bytes, from, io) && io.refused == {} ==> ok
    {
      ghost var before := fs;
      NamesBeside(abs, from, io.random);
      var moved, failed := BackUp(abs, bytes, from, io.readable, io.renamed);
      BackupStage(root, abs, from, io.random, before, fs);
      if failed { return false, Ignored; }

      ghost var between := fs;
      ok := WriteAtomically(abs, bytes, io);
      fate := if ok then Applied(io.readable) else if moved then OnlyBackedUp(io.noticed) else Ignored;
      WriteStage(root, abs, from, io.random, before, between, fs);
      BothStages(abs, bytes, from, io.readable, before, between, fs, moved, fate);
    }

    /** `Install`, for a path the walk has accepted. */
    method InstallInside(rel: string, bytes: Bytes, from: PeerId, io: UpsertIo) returns (ok: bool, fate: UpsertFate)
      requires Canonical(fs, root) && Safe(fs, root, rel) && TempApart(root, rel, from, io.random)
      modifies this`fs
      ensures ok <==> fate.Applied?
      ensures Contained(root, rel, bytes, from, io, old(fs), fs, fate)
      ensures ok ==> Installable(old(fs), root + Split(rel, '/'), bytes, from, io)
      ensures Installable(old(fs), root + Split(rel, '/'), bytes, from, io) && io.refused == {} ==> ok
    {
      var abs := root + Split(rel, '/');
      SafeReady(fs, root, rel);
      ok, fate := Install(abs, bytes, from, io);
      ReceptionContained(root, abs, from, io.random, old(fs), fs);
    }

    /** The part of `handle_upsert` that runs while the pending mark is held: fetch,
        size guard, conflict backup, and atomic write through a temporary file. */
    method WriteReceived(rel: string, bytes: Bytes, from: PeerId, io: UpsertIo) returns (outcome: Outcome, fate: UpsertFate)
      requires Canonical(fs, root) && Safe(fs, root, rel) && TempApart(root, rel, from, io.random)
      modifies this`fs
      ensures outcome.Done? <==> fate.Applied?
      ensures !fate.Ignored? ==> |bytes| <= MAX_FILE_SIZE
      ensures Contained(root, rel, bytes, from, io, old(fs), fs, fate)
      ensures outcome.Dropped? || outcome.Skipped? ==> fs == old(fs)
      ensures OutcomeTells(old(fs), root + Split(rel, '/'), bytes, from, io, outcome)
      ensures io.readable ==> OldKept(root + Split(rel, '/'), from, old(fs), fs)
    {
      Untouched(root, rel, bytes, from, io, fs);
      NothingLost(root, rel, bytes, from, io, fs, fs, Ignored);
      if io.droppedAt == Some(ForBlob) { return Dropped, Ignored; }
      if !io.fetched { return Skipped("blob_fetch_failed"), Ignored; }
      if io.droppedAt == Some(ForSize) { return Dropped, Ignored; }
      if !io.sizeKnown { return Failed, Ignored; }
      if |bytes| > MAX_FILE_SIZE { return Skipped("too_large"), Ignored; }
      if io.droppedAt == Some(ForBytes) { return Dropped, Ignored; }
      if !io.blobRead { return Failed, Ignored; }
      if io.droppedAt == Some(ForLocalFile) { return Dropped, Ignored; }
      var ok, installed := InstallInside(rel, bytes, from, io);
      NothingLost(root, rel, bytes, from, io, old(fs), fs, installed);
      return if ok then Done else Failed, installed;
    }

    /** Reception of an Upsert. Whatever goes wrong: nothing outside the watched
        directory changes; inside, besides the target, its backup and the temporary
        file, no file changes; no pending mark stays; the marker is set exactly when
        the target holds the incoming bytes. */
    method HandleUpsert(rel: string, bytes: Bytes, from: PeerId, io: UpsertIo) returns (outcome: Outcome, fate: UpsertFate)
      requires Canonical(fs, root) && TempApart(root, rel, from, io.random)
      modifies this`fs, this`pendingWritten, this`lastWritten
      ensures Contained(root, rel, bytes, from, io, old(fs), fs, fate)
      ensures outcome.Dropped? || outcome.Skipped? ==> fs == old(fs)
      ensures if Safe(old(fs), root, rel) then
                && OutcomeTells(old(fs), root + Split(rel, '/'), bytes, from, io, outcome)
                && pendingWritten == old(pendingWritten) - {Split(rel, '/')}
              else
                outcome == Skipped("unsafe_path") && pendingWritten == old(pendingWritten)
      ensures lastWritten == if outcome.Done? then old(lastWritten)[Split(rel, '/') := Hash(bytes)] else old(lastWritten)
      ensures outcome.Done? <==> fate.Applied?
      ensures !fate.Ignored? ==> |bytes| <= MAX_FILE_SIZE
      ensures io.readable ==> OldKept(root + Split(rel, '/'), from, old(fs), fs)
    {
      var safe := ResolveSafePath(fs, root, rel);
      if safe.Err? {
        Untouched(root, rel, bytes, from, io, fs);
        NothingLost(root, rel, bytes, from, io, fs, fs, Ignored);
        return Skipped("unsafe_path"), Ignored;
      }
      var key := Split(rel, '/');
      pendingWritten := pendingWritten[key := Hash(bytes)];
      outcome, fate := WriteReceived(rel, bytes, from, io);
      // the guard, whichever way the reception ends
      pendingWritten := pendingWritten - {key};
      if outcome.Done? {
        lastWritten := lastWritten[key := Hash(bytes)];
      }
      assert pendingWritten == old(pendingWritten) - {key};
    }

    /** Reception of a Tombstone: the marker is there afterwards exactly when this
        call unlinked a file. */
    method HandleTombstone(rel: string, allowed: bool) returns (outcome: Outcome, fate: TombstoneFate)
      requires Canonical(fs, root)
      modifies this`fs, this`lastRemoved
      ensures Canonical(fs, root) && OnlyInside(root, old(fs), fs)
      ensures fs == if outcome.Done? then old(fs) - {root + Split(rel, '/')} else old(fs)
      ensures !Safe(old(fs), root, rel) ==> outcome == Skipped("unsafe_path") && lastRemoved == old(lastRemoved)
      ensures Safe(old(fs), root, rel) ==>
                lastRemoved == if fs == old(fs) then old(lastRemoved) - {Split(rel, '/')}
                               else old(lastRemoved) + {Split(rel, '/')}
      ensures fate.TIgnored? <==> outcome.Skipped?
      ensures fate.THandled? <==> outcome.Done?
      ensures Safe(old(fs), root, rel) ==>
                var abs := root + Split(rel, '/');
                outcome == if abs !in old(fs) || (allowed && !IsDir(old(fs), abs)) then Done else Failed
      ensures Safe(old(fs), root, rel) ==> (fs == old(fs) <==> !fate.THandled? || FileAt(old(fs), root + Split(rel, '/')) == None)
    {
      var safe := ResolveSafePath(fs, root, rel);
      if safe.Err? {
        return Skipped("unsafe_path"), TIgnored;
      }
      var abs, key := safe.value, Split(rel, '/');
      SafeReady(fs, root, rel);
      ghost var before := fs;
      lastRemoved := lastRemoved + {key};
      var r := RemoveFile(abs, allowed);
      match r {
        case Ok(_) =>
          outcome, fate := Done, THandled;
        case Err(e) =>
          // nothing was unlinked, so no event will come for the marker
          lastRemoved := lastRemoved - {key};
          outcome, fate := if e.NotFound? then Done else Failed, if e.NotFound? then THandled else TUnlinkFailed;
      }

      CanonicalKept(root, before, fs);
      assert FileAt(before, abs) != None ==> abs in before;
    }

    /** The checks of `dispatch_update`, and the handler behind them. */
    method CheckAndReceive(rel: string, bytes: Bytes, from: PeerId, allowlist: AllowListFiles.Config, io: UpsertIo) returns (outcome: Outcome, fate: UpsertFate)
      requires Canonical(fs, root) && TempApart(root, rel, from, io.random)
      modifies this`fs, this`pendingWritten, this`lastWritten
      ensures ValidateRelativePath(rel).Err? ==> outcome == Skipped("invalid_wire_format")
      ensures ValidateRelativePath(rel).Ok? && !(allowlist.openAll || from in allowlist.peers) ==> outcome == Skipped("peer_not_allowed")
      ensures ValidateRelativePath(rel).Ok? && (allowlist.openAll || from in allowlist.peers) ==>
                if Safe(old(fs), root, rel) then OutcomeTells(old(fs), root + Split(rel, '/'), bytes, from, io, outcome)
                else outcome == Skipped("unsafe_path")
      ensures Contained(root, rel, bytes, from, io, old(fs), fs, fate)
      ensures outcome.Dropped? || outcome.Skipped? ==> fs == old(fs)
      ensures outcome.Done? <==> fate.Applied?
      ensures lastWritten == if outcome.Done? then old(lastWritten)[Split(rel, '/') := Hash(bytes)] else old(lastWritten)
      ensures old(pendingWritten) == map[] ==> pendingWritten == map[]
      ensures !fate.Ignored? ==> |bytes| <= MAX_FILE_SIZE
      ensures io.readable ==> OldKept(root + Split(rel, '/'), from, old(fs), fs)
    {
      if ValidateRelativePath(rel).Err? || !AllowListFiles.Allows(allowlist, from) {
        Untouched(root, rel, bytes, from, io, fs);
        NothingLost(root, rel, bytes, from, io, fs, fs, Ignored);
      }
      if ValidateRelativePath(rel).Err? {
        return Skipped("invalid_wire_format"), Ignored;
      }
      if !AllowListFiles.Allows(allowlist, from) {
        return Skipped("peer_not_allowed"), Ignored;
      }
      outcome, fate := HandleUpsert(rel, bytes, from, io);
    }

    /** `dispatch_update`, Upsert case: wire check, allowlist, handler. One reception,
        with all its failures, is one step of the mesh on the node this peer is. */
    method DispatchUpsert(rel: string, bytes: Bytes, from: PeerId, allowlist: AllowListFiles.Config, io: UpsertIo) returns (outcome: Outcome, fate: UpsertFate)
      requires Canonical(fs, root)
      requires TempApart(root, rel, from, io.random)
      modifies this`fs, this`pendingWritten, this`lastWritten
      // what is refused, and why
      ensures ValidateRelativePath(rel).Err? ==> outcome == Skipped("invalid_wire_format")
      ensures ValidateRelativePath(rel).Ok? && !(allowlist.openAll || from in allowlist.peers) ==> outcome == Skipped("peer_not_allowed")
      ensures ValidateRelativePath(rel).Ok? && (allowlist.openAll || from in allowlist.peers) ==>
                if Safe(old(fs), root, rel) then OutcomeTells(old(fs), root + Split(rel, '/'), bytes, from, io, outcome)
                else outcome == Skipped("unsafe_path")
      // what is done otherwise
      ensures Contained(root, rel, bytes, from, io, old(fs), fs, fate)
      ensures outcome.Dropped? || outcome.Skipped? ==> fs == old(fs)
      ensures outcome.Done? <==> fate.Applied?
      ensures outcome.Done? ==> FileAt(fs, root + Split(rel, '/')) == Some(bytes)
      ensures lastWritten == if outcome.Done? then old(lastWritten)[Split(rel, '/') := Hash(bytes)] else old(lastWritten)
      ensures old(pendingWritten) == map[] ==> pendingWritten == map[]
      ensures io.readable ==> OldKept(root + Split(rel, '/'), from, old(fs), fs)
      // the same as a step of the mesh
      ensures Watched(Split(rel, '/')) ==>
                forall n :: old(Represents(n)) ==>
                  && UpsertPossible(n, Split(rel, '/'), bytes, fate)
                  && Represents(ReceiveUpsert(n, Split(rel, '/'), bytes, from, fate))
    {
      ghost var before := fs;
      outcome, fate := CheckAndReceive(rel, bytes, from, allowlist, io);
      if Watched(Split(rel, '/')) {
        forall n | old(Represents(n))
          ensures UpsertPossible(n, Split(rel, '/'), bytes, fate)
          ensures Represents(ReceiveUpsert(n, Split(rel, '/'), bytes, from, fate))
        {
          UpsertRefines(root, Split(rel, '/'), before, fs, n, bytes, from, io, fate);
        }
      }
    }

    method DispatchTombstone(rel: string, from: PeerId, allowlist: AllowListFiles.Config, unlinkable: bool) returns (outcome: Outcome, fate: TombstoneFate)
      requires Canonical(fs, root)
      modifies this`fs, this`lastRemoved
      // what is refused, and why
      ensures ValidateRelativePath(rel).Err? ==> outcome == Skipped("invalid_wire_format")
      ensures ValidateRelativePath(rel).Ok? && !(allowlist.openAll || from in allowlist.peers) ==> outcome == Skipped("peer_not_allowed")
      ensures ValidateRelativePath(rel).Ok? && (allowlist.openAll || from in allowlist.peers) ==>
                var abs := root + Split(rel, '/');
                if Safe(old(fs), root, rel) then outcome == if abs !in old(fs) || (unlinkable && !IsDir(old(fs), abs)) then Done else Failed
                else outcome == Skipped("unsafe_path")
      // what is done otherwise
      ensures Canonical(fs, root) && OnlyInside(root, old(fs), fs)
      ensures fs == if outcome.Done? then old(fs) - {root + Split(rel, '/')} else old(fs)
      ensures lastRemoved == if outcome.Skipped? then old(lastRemoved)
                             else if fs != old(fs) then old(lastRemoved) + {Split(rel, '/')}
                             else old(lastRemoved) - {Split(rel, '/')}
      ensures (outcome.Done? <==> fate.THandled?) && (outcome.Skipped? <==> fate.TIgnored?)
      // the same as a step of the mesh
      ensures Watched(Split(rel, '/')) ==>
                forall n :: old(Represents(n)) ==> Represents(ReceiveTombstone(n, Split(rel, '/'), fate))
    {
      ghost var before := fs;
      if ValidateRelativePath(rel).Err? {
        return Skipped("invalid_wire_format"), TIgnored;
      }
      if !AllowListFiles.Allows(allowlist, from) {
        return Skipped("peer_not_allowed"), TIgnored;
      }
      outcome, fate := HandleTombstone(rel, unlinkable);
      if Watched(Split(rel, '/')) {
        forall n | old(Represents(n))
          ensures Represents(ReceiveTombstone(n, Split(rel, '/'), fate))
        {
          assert Lookup(n.files, Split(rel, '/')) == FileAt(before, root + Split(rel, '/'));
          TombstoneRefines(root, Split(rel, '/'), before, fs, n, fate);
        }
      }
    }

    // -------------------------------------------------------------- local changes

    /** `send_file`: true if the update went out; the marker is set exactly then. */
    method SendFile(rel: string, io: SendIo) returns (sent: Option<Bytes>)
      requires Canonical(fs, root)
      modifies this`lastWritten
      ensures sent.Some? ==>
                && sent == FileAt(fs, root + Split(rel, '/'))
                && lastWritten == old(lastWritten)[Split(rel, '/') := Hash(sent.value)]
      ensures sent.None? ==> lastWritten == old(lastWritten)
      ensures sent.Some? <==> Safe(fs, root, rel) && Sendable(fs, root + Split(rel, '/')) && io.readable && io.added && io.delivered
    {
      var safe := ResolveSafePath(fs, root, rel);
      if safe.Err? { return None; }
      SafeReady(fs, root, rel);
      StatLiteral(fs, safe.value);
      var content := ReadFile(fs, safe.value);
      if content.None? || |content.value| > MAX_FILE_SIZE { return None; }
      if !io.readable || !io.added || !io.delivered { return None; }
      lastWritten := lastWritten[Split(rel, '/') := Hash(content.value)];
      return content;
    }

    /** `broadcast_tombstone`: dropped when one for the path went out within the window. */
    method BroadcastTombstone(rel: string, io: SendIo) returns (sent: bool)
      modifies this`tombstoneTimes
      ensures sent <==> ValidateRelativePath(rel).Ok? && Admits(old(tombstoneTimes), Split(rel, '/'), io.now) && io.delivered
      ensures tombstoneTimes == if ValidateRelativePath(rel).Ok? then Admit(old(tombstoneTimes), Split(rel, '/'), io.now)
                                else old(tombstoneTimes)
    {
      if ValidateRelativePath(rel).Err? { return false; }
      var key := Split(rel, '/');
      if key in tombstoneTimes && Since(io.now, tombstoneTimes[key]) < TOMBSTONE_DEDUP_TTL {
        return false;
      }
      tombstoneTimes := tombstoneTimes[key := io.now];
      return io.delivered;
    }

    /** The first half of the watcher closure: is the event the echo of a reception?
        The hash marker is taken in any case, so that it absorbs one event only. */
    method TakeMarkers(key: Rel, removeKind: bool, readable: bool) returns (absorbed: bool, gone: bool)
      modifies this`lastWritten, this`lastRemoved
      ensures lastWritten == old(lastWritten) - {key}
      ensures gone == (removeKind || !Stat(fs, root + key).Found?)
      ensures var echo := readable && HoldsHash(fs, root + key, Lookup(old(lastWritten), key));
              && absorbed == (echo || (gone && key in old(lastRemoved)))
              && lastRemoved == if !echo && gone then old(lastRemoved) - {key} else old(lastRemoved)
    {
      var abs := root + key;
      var expected := Lookup(lastWritten, key);
      lastWritten := lastWritten - {key};
      var exists_ := Stat(fs, abs).Found?;
      gone := removeKind || !exists_;
      if expected.Some? && exists_ {
        var content := if readable then ReadFile(fs, abs) else None;
        if content.Some? && Hash(content.value) == expected.value {
          return true, gone;
        }
      }
      absorbed := gone && key in lastRemoved;
      if gone {
        lastRemoved := lastRemoved - {key};
      }
    }

    /** The watcher closure on one event, for any path: absorb, queue or send. */
    method ActOnEvent(rel: string, removeKind: bool, io: SendIo) returns (out: Outgoing, queued: bool)
      requires Canonical(fs, root)
      modifies this`lastWritten, this`lastRemoved, this`tombstoneTimes, this`queue
      ensures var key := Split(rel, '/');
              var gone := removeKind || !Stat(fs, root + key).Found?;
              var absorbed := AbsorbedAt(fs, root, rel, removeKind, io, old(lastWritten), old(lastRemoved));
              && queued == (!joined && !absorbed)
              && queue == (if queued then old(queue) + {rel} else old(queue))
              && tombstoneTimes == if joined && !absorbed && gone && ValidateRelativePath(rel).Ok?
                                   then Admit(old(tombstoneTimes), key, io.now) else old(tombstoneTimes)
      ensures EventDone(fs, root, rel, removeKind, io, joined, old(lastWritten), old(lastRemoved), old(tombstoneTimes),
                        out, lastWritten, lastRemoved)
    {
      var key := Split(rel, '/');
      out, queued := Nothing, false;
      var absorbed, gone := TakeMarkers(key, removeKind, io.compared);
      if !absorbed && !joined {
        queue, queued := queue + {rel}, true;
      } else if !absorbed && gone {
        var sent := BroadcastTombstone(rel, io);
        out := if sent then SendTombstone else Nothing;
      } else if !absorbed {
        var sent := SendFile(rel, io);
        out := if sent.Some? then SendUpsert(sent.value) else Nothing;
      }
    }

    /** The same, as the mesh sees it: after the first join, and for a path that is a plain
        file or absent, it is the event step; before, exactly what is no echo is queued. */
    method OnWatcherEvent(rel: string, removeKind: bool, io: SendIo) returns (out: Outgoing, queued: bool)
      requires Canonical(fs, root)
      modifies this`lastWritten, this`lastRemoved, this`tombstoneTimes, this`queue
      ensures EventDone(fs, root, rel, removeKind, io, joined, old(lastWritten), old(lastRemoved), old(tombstoneTimes),
                        out, lastWritten, lastRemoved)
      ensures queue == if queued then old(queue) + {rel} else old(queue)
      ensures PlainTarget(fs, root, rel) ==>
                forall n :: old(Represents(n)) ==>
                  if joined then
                    !queued && IsEventStep(root, fs, n, rel, removeKind, io, old(tombstoneTimes), out, lastWritten, lastRemoved)
                  else
                    out == Nothing
                    && queued == !Absorbed(if io.compared then n else Unread(n, Split(rel, '/')), Split(rel, '/'), removeKind)
    {
      out, queued := ActOnEvent(rel, removeKind, io);
      if PlainTarget(fs, root, rel) {
        forall n | old(Represents(n))
          ensures Absorbed(if io.compared then n else Unread(n, Split(rel, '/')), Split(rel, '/'), removeKind)
                  == AbsorbedAt(fs, root, rel, removeKind, io, old(lastWritten), old(lastRemoved))
          ensures joined ==> IsEventStep(root, fs, n, rel, removeKind, io, old(tombstoneTimes), out, lastWritten, lastRemoved)
        {
          AbsorbedSame(root, fs, n, rel, removeKind, io);
          if joined { EventRefines(root, fs, n, rel, removeKind, io, old(tombstoneTimes), out, lastWritten, lastRemoved); }
        }
      }
    }

    /** `remove_file`; not `allowed`: an error that has nothing to do with the path. */
    method RemoveFile(abs: Path, allowed: bool) returns (r: Result<(), Errno>)
      requires Ready(fs, root, abs) && (abs in fs ==> !fs[abs].Symlink?)
      modifies this`fs
      ensures WellFormed(fs)
      ensures r.Ok? ==> FileAt(old(fs), abs) != None && fs == old(fs) - {abs}
      ensures r.Err? ==> fs == old(fs) && (r.error.NotFound? <==> abs !in fs)
      ensures r.Ok? <==> abs in old(fs) && allowed && !IsDir(old(fs), abs)
    {
      NamesBeside(abs, id, "");
      UnlinkBeside(fs, root, abs, abs);
      if !allowed && abs in fs { return Err(Errno.Other); }
      match Unlink(fs, abs)
      case Ok(after) => fs := after; return Ok(());
      case Err(e) => return Err(e);
    }

    /** The NeighborUp callback: the first one opens the gate and has whatever was queued
        sent, each path once; later ones do nothing. */
    method OnNeighborUp(io: string -> SendIo, turn: string -> Turn) returns (log: seq<Sending>)
      requires TurnsCanonical(queue, turn, root)
      modifies this`fs, this`joined, this`queue, this`lastWritten, this`tombstoneTimes
      ensures joined
      ensures old(joined) ==>
                && log == [] && fs == old(fs) && queue == old(queue)
                && lastWritten == old(lastWritten) && tombstoneTimes == old(tombstoneTimes)
      ensures !old(joined) ==> queue == {} && |log| == |old(queue)| && PathsOf(log) == old(queue)
      ensures AllRight(root, log, io, turn)
      ensures log != [] ==> LeftBy(log, lastWritten, tombstoneTimes)
    {
      if joined { return []; }
      joined := true;
      var pending := queue;
      queue := {};
      log := SendAll(pending, io, turn);
    }

    /** The loop that the callback that won spawns. It waits in each sending, so the disk
        and the shared state are what reception, the watcher and users have made of them
        when the turn of a path comes. */
    method SendAll(paths: set<string>, io: string -> SendIo, turn: string -> Turn) returns (log: seq<Sending>)
      requires TurnsCanonical(paths, turn, root)
      modifies this`fs, this`lastWritten, this`tombstoneTimes
      ensures |log| == |paths| && PathsOf(log) == paths
      ensures AllRight(root, log, io, turn)
      ensures if log == [] then fs == old(fs) && lastWritten == old(lastWritten) && tombstoneTimes == old(tombstoneTimes)
              else LeftBy(log, lastWritten, tombstoneTimes)
    {
      log := [];
      var pending := paths;
      assert PathsOf(log) == {};
      while pending != {}
        invariant SentSoFar(paths, pending, log)
        invariant AllRight(root, log, io, turn)
        invariant if log == [] then fs == old(fs) && lastWritten == old(lastWritten) && tombstoneTimes == old(tombstoneTimes)
                  else LeftBy(log, lastWritten, tombstoneTimes)
        decreases |pending|
      {
        var rel :| rel in pending;
        log := SendNext(log, rel, io, turn, paths, pending);
        pending := pending - {rel};
      }
    }

    method SendNext(log: seq<Sending>, rel: string, io: string -> SendIo, turn: string -> Turn,
                    ghost paths: set<string>, ghost pending: set<string>) returns (more: seq<Sending>)
      requires rel in pending && SentSoFar(paths, pending, log)
      requires TurnsCanonical(paths, turn, root) && AllRight(root, log, io, turn)
      modifies this`fs, this`lastWritten, this`tombstoneTimes
      ensures more != [] && SentSoFar(paths, pending - {rel}, more)
      ensures AllRight(root, more, io, turn) && LeftBy(more, lastWritten, tombstoneTimes)
    {
      fs, lastWritten, tombstoneTimes := turn(rel).fs, turn(rel).markers, turn(rel).times;
      var out := SendPending(rel, io(rel));
      var sending := Sending(rel, out, lastWritten, tombstoneTimes);
      OneMorePath(paths, pending, log, sending);
      OneMoreRight(root, log, io, turn, sending);
      more := log + [sending];
    }

    method SendPending(rel: string, io: SendIo) returns (out: Outgoing)
      requires Canonical(fs, root)
      modifies this`lastWritten, this`tombstoneTimes
      ensures RightlySent(root, Sending(rel, out, lastWritten, tombstoneTimes), io,
                          Turn(fs, old(lastWritten), old(tombstoneTimes)))
    {
      if !Stat(fs, root + Split(rel, '/')).Found? {
        var sent := BroadcastTombstone(rel, io);
        out := if sent then SendTombstone else Nothing;
      } else {
        var sent := SendFile(rel, io);
        out := if sent.Some? then SendUpsert(sent.value) else Nothing;
      }
    }
  }

  /** What is found when the turn of a queued path comes. */
  datatype Turn = Turn(fs: FS, markers: map<Rel, Hash>, times: map<Rel, nat>)

  /** What went out for a queued path, and the markers and Tombstone instants after it. */
  datatype Sending = Sending(path: string, out: Outgoing, markers: map<Rel, Hash>, times: map<Rel, nat>)

  /** A queued path is sent by what is on disk when its turn comes. */
  ghost predicate RightlySent(root: Path, sending: Sending, io: SendIo, turn: Turn) {
    var rel := sending.path;
    var gone := !Stat(turn.fs, root + Split(rel, '/')).Found?;
    && WentOut(turn.fs, root, turn.times, rel, gone, sending.out, io)
    && sending.markers == MarkedFor(turn.markers, rel, sending.out)
    && sending.times == if gone && ValidateRelativePath(rel).Ok? then Admit(turn.times, Split(rel, '/'), io.now) else turn.times
  }

  /** The last path sent left these markers and Tombstone instants. */
  predicate LeftBy(log: seq<Sending>, markers: map<Rel, Hash>, times: map<Rel, nat>) {
    log != [] && log[|log| - 1].markers == markers && log[|log| - 1].times == times
  }

  lemma OneMoreRight(root: Path, log: seq<Sending>, io: string -> SendIo, turn: string -> Turn, sending: Sending)
    requires AllRight(root, log, io, turn) && RightlySent(root, sending, io(sending.path), turn(sending.path))
    ensures AllRight(root, log + [sending], io, turn)
  {
  }

  ghost predicate TurnsCanonical(paths: set<string>, turn: string -> Turn, root: Path) {
    forall rel :: rel in paths ==> Canonical(turn(rel).fs, root)
  }

  ghost predicate AllRight(root: Path, log: seq<Sending>, io: string -> SendIo, turn: string -> Turn) {
    forall k :: 0 <= k < |log| ==> RightlySent(root, log[k], io(log[k].path), turn(log[k].path))
  }

  predicate HoldsHash(fs: FS, abs: Path, expected: Option<Hash>) {
    var content := ReadFile(fs, abs);
    content.Some? && expected == Some(Hash(content.value))
  }

  /** The file is read and is what the marker is the hash of. */
  predicate IsEcho(fs: FS, abs: Path, markers: map<Rel, Hash>, key: Rel, io: SendIo) {
    io.compared && HoldsHash(fs, abs, Lookup(markers, key))
  }

  /** The event is taken for an echo. */
  predicate AbsorbedAt(fs: FS, root: Path, rel: string, removeKind: bool, io: SendIo, markers: map<Rel, Hash>, removed: set<Rel>) {
    var key := Split(rel, '/');
    || IsEcho(fs, root + key, markers, key, io)
    || ((removeKind || !Stat(fs, root + key).Found?) && key in removed)
  }

  lemma AbsorbedSame(root: Path, fs: FS, n: Node, rel: string, removeKind: bool, io: SendIo)
    requires Canonical(fs, root) && PlainTarget(fs, root, rel) && FilesMatch(root, fs, n)
    ensures var key := Split(rel, '/');
            Absorbed(if io.compared then n else Unread(n, key), key, removeKind)
            == AbsorbedAt(fs, root, rel, removeKind, io, n.lastWritten, n.lastRemoved)
  {
    PlainLookups(root, fs, rel, n);
  }

  /** What the closure does to the markers and what it sends, for any path. */
  ghost predicate EventDone(fs: FS, root: Path, rel: string, removeKind: bool, io: SendIo, joined: bool,
                            markers: map<Rel, Hash>, removed: set<Rel>, times: map<Rel, nat>,
                            out: Outgoing, markersAfter: map<Rel, Hash>, removedAfter: set<Rel>) {
    var key := Split(rel, '/');
    var echo := IsEcho(fs, root + key, markers, key, io);
    var gone := removeKind || !Stat(fs, root + key).Found?;
    && removedAfter == (if !echo && gone then removed - {key} else removed)
    && (if joined && !AbsorbedAt(fs, root, rel, removeKind, io, markers, removed) then WentOut(fs, root, times, rel, gone, out, io) else out == Nothing)
    && markersAfter == MarkedFor(markers - {key}, rel, out)
  }

  /** The closure's event on a node that stands for this peer is the step of the mesh, on
      the node as it is, or as if without the marker when the file cannot be compared. */
  ghost predicate IsEventStep(root: Path, fs: FS, n: Node, rel: string, removeKind: bool, io: SendIo, times: map<Rel, nat>,
                              out: Outgoing, markersAfter: map<Rel, Hash>, removedAfter: set<Rel>) {
    var key := Split(rel, '/');
    var m := if io.compared then n else Unread(n, key);
    var (next, sent) := OnEvent(m, key, removeKind, out != Nothing);
    && sent == out
    && next.id == n.id && next.lastWritten == markersAfter && next.lastRemoved == removedAfter && FilesMatch(root, fs, next)
    && (out != Nothing <==> !Absorbed(m, key, removeKind) && MayGoOut(n, key, removeKind, times, io))
  }

  lemma EventRefines(root: Path, fs: FS, n: Node, rel: string, removeKind: bool, io: SendIo, times: map<Rel, nat>,
                     out: Outgoing, markersAfter: map<Rel, Hash>, removedAfter: set<Rel>)
    requires Canonical(fs, root) && PlainTarget(fs, root, rel) && FilesMatch(root, fs, n)
    requires EventDone(fs, root, rel, removeKind, io, true, n.lastWritten, n.lastRemoved, times, out, markersAfter, removedAfter)
    ensures IsEventStep(root, fs, n, rel, removeKind, io, times, out, markersAfter, removedAfter)
  {
    var key := Split(rel, '/');
    var m := if io.compared then n else Unread(n, key);
    PlainLookups(root, fs, rel, n);
    EventStep(root, fs, n, rel, removeKind, io, times, out, markersAfter, removedAfter);
    EventKeepsFiles(m, key, removeKind, out != Nothing);
    SameFiles(root, fs, n, OnEvent(m, key, removeKind, out != Nothing).0);
  }

  lemma EventKeepsFiles(n: Node, key: Rel, removeKind: bool, sent: bool)
    ensures var m := OnEvent(n, key, removeKind, sent).0; m.id == n.id && m.files == n.files && m.backups == n.backups
  {
  }

  lemma SameFiles(root: Path, fs: FS, n: Node, m: Node)
    requires FilesMatch(root, fs, n) && m.files == n.files && m.backups == n.backups
    ensures FilesMatch(root, fs, m)
  {
  }

  /** The part about markers and messages. */
  lemma EventStep(root: Path, fs: FS, n: Node, rel: string, removeKind: bool, io: SendIo, times: map<Rel, nat>,
                  out: Outgoing, markersAfter: map<Rel, Hash>, removedAfter: set<Rel>)
    requires ValidateRelativePath(rel).Ok? && Safe(fs, root, rel)
    requires EventDone(fs, root, rel, removeKind, io, true, n.lastWritten, n.lastRemoved, times, out, markersAfter, removedAfter)
    requires var key := Split(rel, '/');
             && Lookup(n.files, key) == ReadFile(fs, root + key) == FileAt(fs, root + key)
             && (key in n.files <==> Stat(fs, root + key).Found?)
    ensures var key := Split(rel, '/');
            var m := if io.compared then n else Unread(n, key);
            var (next, sent) := OnEvent(m, key, removeKind, out != Nothing);
            && sent == out && next.lastWritten == markersAfter && next.lastRemoved == removedAfter
            && (out != Nothing <==> !Absorbed(m, key, removeKind) && MayGoOut(n, key, removeKind, times, io))
  {
    var key := Split(rel, '/');
    var m := if io.compared then n else Unread(n, key);
    assert EchoAbsorbed(m, key) == IsEcho(fs, root + key, n.lastWritten, key, io);
  }

  /** A watched path with a plain file or nothing at it. */
  ghost predicate PlainTarget(fs: FS, root: Path, rel: string) {
    var abs := root + Split(rel, '/');
    Safe(fs, root, rel) && Watched(Split(rel, '/')) && (abs in fs ==> fs[abs].File?)
  }

  /** The event is the echo of a reception. */
  predicate Absorbed(n: Node, key: Rel, removeKind: bool) {
    EchoAbsorbed(n, key) || ((removeKind || key !in n.files) && key in n.lastRemoved)
  }

  /** Nothing but an echo would keep the event from going out. */
  predicate MayGoOut(n: Node, key: Rel, removeKind: bool, times: map<Rel, nat>, io: SendIo) {
    if removeKind || key !in n.files then Admits(times, key, io.now) && io.delivered
    else |n.files[key]| <= MAX_FILE_SIZE && io.readable && io.added && io.delivered
  }

  /** At such a path the kernel finds what the node has. */
  lemma PlainLookups(root: Path, fs: FS, rel: string, n: Node)
    requires Canonical(fs, root) && PlainTarget(fs, root, rel) && FilesMatch(root, fs, n)
    ensures var key := Split(rel, '/');
            && Lookup(n.files, key) == ReadFile(fs, root + key) == FileAt(fs, root + key)
            && (key in n.files <==> Stat(fs, root + key).Found?)
  {
    SafeReady(fs, root, rel);
    StatLiteral(fs, root + Split(rel, '/'));
  }

  function PathsOf(log: seq<Sending>): set<string> {
    set k | 0 <= k < |log| :: log[k].path
  }

  predicate SentSoFar(paths: set<string>, pending: set<string>, log: seq<Sending>) {
    pending <= paths && PathsOf(log) == paths - pending && |log| + |pending| == |paths|
  }

  lemma OneMorePath(paths: set<string>, pending: set<string>, log: seq<Sending>, sending: Sending)
    requires SentSoFar(paths, pending, log) && sending.path in pending
    ensures SentSoFar(paths, pending - {sending.path}, log + [sending])
  {
    var more := log + [sending];
    assert more[|log|].path == sending.path && forall k :: 0 <= k < |log| ==> more[k] == log[k];
    assert PathsOf(more) == PathsOf(log) + {sending.path};
  }

  /** The markers after a path has been sent on. */
  function MarkedFor(markers: map<Rel, Hash>, rel: string, out: Outgoing): map<Rel, Hash> {
    if out.SendUpsert? then markers[Split(rel, '/') := Hash(out.bytes)] else markers
  }

  /** What is sent for a path: a Tombstone if it is gone and what the file holds
      otherwise, unless there is a reason not to: an error, a Tombstone for it within the
      window, no sendable file. */
  ghost predicate WentOut(fs: FS, root: Path, times: map<Rel, nat>, rel: string, gone: bool, out: Outgoing, io: SendIo) {
    var abs := root + Split(rel, '/');
    if gone then
      if ValidateRelativePath(rel).Ok? && Admits(times, Split(rel, '/'), io.now) && io.delivered then out == SendTombstone
      else out == Nothing
    else
      if Safe(fs, root, rel) && Sendable(fs, abs) && io.readable && io.added && io.delivered then out == SendUpsert(FileAt(fs, abs).value)
      else out == Nothing
  }

  lemma SafeReady(fs: FS, root: Path, rel: string)
    requires Canonical(fs, root) && Safe(fs, root, rel)
    ensures var abs := root + Split(rel, '/'); Ready(fs, root, abs) && (abs in fs ==> !fs[abs].Symlink?)
  {
    SafeIsLiteral(fs, root, rel);
  }

  /** The directories on the way are made inside the root. */
  lemma MkdirInside(fs: FS, root: Path, abs: Path, refused: set<Path>)
    requires Ready(fs, root, abs)
    ensures var after := CreateDirAll(fs, abs, |abs| - 1, 0, refused).0;
            Ready(after, root, abs) && OnlyInside(root, fs, after)
  {
    var after := CreateDirAll(fs, abs, |abs| - 1, 0, refused).0;
    DirsMade(fs, root, abs, 0, refused);
    GrownKept(root, abs, {}, fs, after);
    KeptInside(root, abs, {}, fs, after);
  }

  /** The lookup of `abs` is literal. */
  predicate LooksUpItself(fs: FS, abs: Path) {
    if abs in fs then Lstat(fs, abs) == Found(abs) else Lstat(fs, abs) in {Missing(abs), NoParent}
  }

  lemma ReadyLiteral(fs: FS, root: Path, abs: Path)
    requires Ready(fs, root, abs)
    ensures LooksUpItself(fs, abs)
  {
    LstatLiteral(fs, abs);
    if abs !in fs { SiblingMissing(fs, root, abs); }
  }

  /** After `create_dir_all` the lookup of `abs` is literal, and nothing outside changed. */
  ghost predicate LiteralMkdir(fs: FS, root: Path, abs: Path, refused: set<Path>)
    requires abs != []
  {
    var after := CreateDirAll(fs, abs, |abs| - 1, 0, refused).0;
    OnlyInside(root, fs, after) && LooksUpItself(after, abs)
  }

  lemma ReadyMkdir(fs: FS, root: Path, abs: Path, refused: set<Path>)
    requires Ready(fs, root, abs)
    ensures LiteralMkdir(fs, root, abs, refused)
  {
    MkdirInside(fs, root, abs, refused);
    ReadyLiteral(CreateDirAll(fs, abs, |abs| - 1, 0, refused).0, root, abs);
  }

  /** Also when the directories on the way have been made, a lookup of an accepted path
      is literal, and nothing outside has changed. */
  lemma LiteralAfterMkdir(fs: FS, root: Path, rel: string, refused: set<Path>)
    requires Canonical(fs, root) && Safe(fs, root, rel)
    ensures LiteralMkdir(fs, root, root + Split(rel, '/'), refused)
  {
    SafeReady(fs, root, rel);
    ReadyMkdir(fs, root, root + Split(rel, '/'), refused);
  }

  lemma ReceptionContained(root: Path, abs: Path, from: PeerId, random: string, before: FS, after: FS)
    requires Canonical(before, root) && Ready(before, root, abs)
    requires Kept(root, abs, Mine(abs, from, random), before, after)
    requires TempFor(abs, random) in before ==> Lookup(after, TempFor(abs, random)) == Lookup(before, TempFor(abs, random))
    ensures Canonical(after, root) && OnlyInside(root, before, after)
    ensures OthersKept(abs, from, random, before, after)
  {
    MineUnder(root, abs, from, random);
    KeptInside(root, abs, Mine(abs, from, random), before, after);
    OnlyMineDiffer(root, abs, from, random, before, after);
    CanonicalKept(root, before, after);
  }

  lemma MineUnder(root: Path, abs: Path, from: PeerId, random: string)
    requires Under(root, abs) && PlainNames(abs)
    ensures forall p :: p in Mine(abs, from, random) ==> Under(root, p)
  {
    NamesBeside(abs, from, random);
    SiblingsUnder(root, abs, Mine(abs, from, random));
  }

  lemma OnlyMineDiffer(root: Path, abs: Path, from: PeerId, random: string, before: FS, after: FS)
    requires abs != [] && Kept(root, abs, Mine(abs, from, random), before, after)
    requires TempFor(abs, random) in before ==> Lookup(after, TempFor(abs, random)) == Lookup(before, TempFor(abs, random))
    ensures OthersKept(abs, from, random, before, after)
  {
  }

  lemma SiblingsUnder(root: Path, abs: Path, mine: set<Path>)
    requires Under(root, abs) && forall p :: p in mine ==> Sibling(abs, p)
    ensures forall p :: p in mine ==> Under(root, p)
  {
    forall p | p in mine ensures Under(root, p) {
      assert root <= Parent(abs) == Parent(p) <= p;
    }
  }

  lemma CanonicalKept(root: Path, before: FS, after: FS)
    requires Canonical(before, root) && WellFormed(after) && OnlyInside(root, before, after)
    ensures Canonical(after, root)
  {
    forall i | 0 <= i < |root| ensures Lookup(after, root[..i]) == Lookup(before, root[..i]) {
      assert !Under(root, root[..i]);
    }
  }

  /** Distinct slots of a node are distinct paths on disk. */
  lemma FileApart(root: Path, key: Rel, from: PeerId, random: string, p: Rel)
    requires Watched(key) && Watched(p)
    ensures var abs := root + key;
            && (root + p == abs <==> p == key)
            && root + p != BackupFor(abs, from) && root + p != TempFor(abs, random)
  {
    PathsBeside(root, key, from, random);
    ReceptionNamesSkipped(key, ShortId(from), random);
    SamePrefix(root, p, key);
    SamePrefix(root, p, BackupPath(key, ShortId(from)));
    SamePrefix(root, p, key[..|key| - 1] + [TempName(random)]);
  }

  lemma BackupApart(root: Path, key: Rel, from: PeerId, random: string, p: Rel, tag: string)
    requires Watched(key) && Watched(p) && |tag| == 8
    ensures var abs := root + key;
            && (root + BackupPath(p, tag) == BackupFor(abs, from) <==> p == key && tag == ShortId(from))
            && root + BackupPath(p, tag) != abs && root + BackupPath(p, tag) != TempFor(abs, random)
  {
    PathsBeside(root, key, from, random);
    ReceptionNamesSkipped(p, tag, random);
    SamePrefix(root, BackupPath(p, tag), BackupPath(key, ShortId(from)));
    BackupPathInjective(p, tag, key, ShortId(from));
    SamePrefix(root, BackupPath(p, tag), key);
    SamePrefix(root, BackupPath(p, tag), key[..|key| - 1] + [TempName(random)]);
    BackupIsNoTemp(p, tag, key, random);
  }

  /** Which peers have a backup name in common: those with the same first eight characters. */
  lemma BackupForExactly(abs: Path, a: PeerId, b: PeerId)
    requires abs != []
    ensures BackupFor(abs, a) == abs[..|abs| - 1] + [abs[|abs| - 1] + ".conflict-local-" + a[..8]]
    ensures BackupFor(abs, a) == BackupFor(abs, b) <==> a[..8] == b[..8]
  {
    BackupPathInjective(abs, a[..8], abs, b[..8]);
  }

  lemma PathsBeside(root: Path, key: Rel, from: PeerId, random: string)
    requires key != []
    ensures BackupFor(root + key, from) == root + BackupPath(key, ShortId(from))
    ensures TempFor(root + key, random) == root + (key[..|key| - 1] + [TempName(random)])
  {
  }

  lemma SamePrefix(root: Path, a: Path, b: Path)
    ensures root + a == root + b <==> a == b
  {
    assert (root + a)[|root|..] == a && (root + b)[|root|..] == b;
  }

  lemma BackupIsNoTemp(p: Rel, tag: string, key: Rel, random: string)
    requires Watched(p) && key != []
    ensures BackupPath(p, tag) != key[..|key| - 1] + [TempName(random)]
  {
    var b, t := BackupPath(p, tag), key[..|key| - 1] + [TempName(random)];
    assert b[|b| - 1] == p[|p| - 1] + CONFLICT_MARK + tag && t[|t| - 1] == TempName(random);
    assert !NameSkipped(p[|p| - 1]);
    assert b[|b| - 1][0] == p[|p| - 1][0] != '.' == TempName(random)[0];
  }

  /** `after` differs from `before` at nothing but the target, its backup, the temporary
      file if that is new, and new directories on the way to the target. */
  ghost predicate OthersKept(abs: Path, from: PeerId, random: string, before: FS, after: FS)
    requires abs != []
  {
    forall p :: p != abs && p != BackupFor(abs, from) && (p == TempFor(abs, random) ==> p in before) ==>
      Lookup(after, p) == Lookup(before, p) || (p !in before && after[p].Dir? && p < abs)
  }

  lemma OtherFileKept(abs: Path, from: PeerId, random: string, before: FS, after: FS, p: Path)
    requires abs != [] && OthersKept(abs, from, random, before, after)
    requires p != abs && p != BackupFor(abs, from) && p != TempFor(abs, random)
    ensures FileAt(after, p) == FileAt(before, p)
  {
    assert Lookup(after, p) == Lookup(before, p) || (p !in before && after[p].Dir?);
  }

  lemma FileRefines(root: Path, key: Rel, before: FS, after: FS, n: Node, bytes: Bytes, from: PeerId,
                    io: UpsertIo, fate: UpsertFate, p: Rel)
    requires Watched(key) && FilesMatch(root, before, n) && Watched(p)
    requires UpsertPossible(n, key, bytes, fate)
    requires Received(root + key, bytes, from, io.readable, before, after, fate)
    requires OthersKept(root + key, from, io.random, before, after)
    ensures Lookup(ReceiveUpsert(n, key, bytes, from, fate).files, p) == FileAt(after, root + p)
  {
    assert Lookup(n.files, p) == FileAt(before, root + p);
    FileApart(root, key, from, io.random, p);
    if p != key { OtherFileKept(root + key, from, io.random, before, after, root + p); }
  }

  lemma BackupRefines(root: Path, key: Rel, before: FS, after: FS, n: Node, bytes: Bytes, from: PeerId,
                      io: UpsertIo, fate: UpsertFate, p: Rel, tag: string)
    requires Watched(key) && FilesMatch(root, before, n) && Watched(p) && |tag| == 8
    requires UpsertPossible(n, key, bytes, fate)
    requires Received(root + key, bytes, from, io.readable, before, after, fate)
    requires OthersKept(root + key, from, io.random, before, after)
    ensures Lookup(ReceiveUpsert(n, key, bytes, from, fate).backups, (p, tag)) == FileAt(after, root + BackupPath(p, tag))
  {
    assert Lookup(n.files, key) == FileAt(before, root + key);
    assert Lookup(n.backups, (p, tag)) == FileAt(before, root + BackupPath(p, tag));
    BackupApart(root, key, from, io.random, p, tag);
    if p != key || tag != ShortId(from) { OtherFileKept(root + key, from, io.random, before, after, root + BackupPath(p, tag)); }
  }

  lemma UpsertRefines(root: Path, key: Rel, before: FS, after: FS, n: Node, bytes: Bytes, from: PeerId,
                      io: UpsertIo, fate: UpsertFate)
    requires Watched(key) && FilesMatch(root, before, n) && (!fate.Ignored? ==> |bytes| <= MAX_FILE_SIZE)
    requires Received(root + key, bytes, from, io.readable, before, after, fate)
    requires OthersKept(root + key, from, io.random, before, after)
    ensures UpsertPossible(n, key, bytes, fate)
    ensures FilesMatch(root, after, ReceiveUpsert(n, key, bytes, from, fate))
  {
    assert Lookup(n.files, key) == FileAt(before, root + key);
    var m := ReceiveUpsert(n, key, bytes, from, fate);
    forall p | Watched(p) ensures Lookup(m.files, p) == FileAt(after, root + p) {
      FileRefines(root, key, before, after, n, bytes, from, io, fate, p);
    }
    forall p, tag: string | Watched(p) && |tag| == 8
      ensures Lookup(m.backups, (p, tag)) == FileAt(after, root + BackupPath(p, tag))
    {
      BackupRefines(root, key, before, after, n, bytes, from, io, fate, p, tag);
    }
  }

  lemma TombstoneRefines(root: Path, key: Rel, before: FS, after: FS, n: Node, fate: TombstoneFate)
    requires Watched(key) && FilesMatch(root, before, n)
    requires after == if fate.THandled? then before - {root + key} else before
    ensures FilesMatch(root, after, ReceiveTombstone(n, key, fate))
  {
    var m := ReceiveTombstone(n, key, fate);
    forall p | Watched(p) ensures Lookup(m.files, p) == FileAt(after, root + p) {
      SamePrefix(root, p, key);
      assert Lookup(n.files, p) == FileAt(before, root + p);
      assert p != key ==> Lookup(after, root + p) == Lookup(before, root + p);
    }
    forall p, tag: string | Watched(p) && |tag| == 8
      ensures Lookup(m.backups, (p, tag)) == FileAt(after, root + BackupPath(p, tag))
    {
      ReceptionNamesSkipped(p, tag, "");
      SamePrefix(root, BackupPath(p, tag), key);
      assert Lookup(n.backups, (p, tag)) == FileAt(before, root + BackupPath(p, tag));
      assert Lookup(after, root + BackupPath(p, tag)) == Lookup(before, root + BackupPath(p, tag));
    }
  }

  /** After the parents, the replacement: only the target and the temporary file differ. */
  lemma ReplacedKept(root: Path, abs: Path, temp: Path, bytes: Bytes, ok: bool, before: FS, made: FS, after: FS)
    requires Kept(root, abs, {abs, temp}, before, made) && Ready(after, root, abs)
    requires if ok then after == made[abs := File(bytes)]
             else after == made || exists left :: after == made[temp := File(left)]
    ensures Kept(root, abs, {abs, temp}, before, after)
  {
    SiblingsChanged(root, abs, {abs, temp}, made, after);
    KeptTransitive(root, abs, {abs, temp}, before, made, after);
  }

  /** What reception may touch: the target, its backup, the temporary file. */
  function Mine(abs: Path, from: PeerId, random: string): set<Path>
    requires abs != []
  {
    {abs, BackupFor(abs, from), TempFor(abs, random)}
  }

  lemma MineBeside(abs: Path, from: PeerId, random: string)
    requires abs != [] && PlainNames(abs)
    ensures forall p :: p in Mine(abs, from, random) ==> |p| == |abs|
  {
    NamesBeside(abs, from, random);
  }

  lemma BackupStage(root: Path, abs: Path, from: PeerId, random: string, before: FS, between: FS)
    requires abs != [] && PlainNames(abs) && TempFor(abs, random) !in {abs, BackupFor(abs, from)}
    requires Kept(root, abs, {abs, BackupFor(abs, from)}, before, between)
    ensures Kept(root, abs, Mine(abs, from, random), before, between)
    ensures TempFor(abs, random) in before ==> Lookup(between, TempFor(abs, random)) == Lookup(before, TempFor(abs, random))
  {
    MineBeside(abs, from, random);
    KeptWider(root, abs, {abs, BackupFor(abs, from)}, Mine(abs, from, random), before, between);
  }

  lemma WriteStage(root: Path, abs: Path, from: PeerId, random: string, before: FS, between: FS, after: FS)
    requires abs != [] && PlainNames(abs) && BackupFor(abs, from) !in {abs, TempFor(abs, random)}
    requires Kept(root, abs, Mine(abs, from, random), before, between)
    requires Kept(root, abs, {abs, TempFor(abs, random)}, between, after)
    ensures Kept(root, abs, Mine(abs, from, random), before, after)
    ensures FileAt(after, BackupFor(abs, from)) == FileAt(between, BackupFor(abs, from))
  {
    MineBeside(abs, from, random);
    KeptWider(root, abs, {abs, TempFor(abs, random)}, Mine(abs, from, random), between, after);
    KeptTransitive(root, abs, Mine(abs, from, random), before, between, after);
    KeptFiles(root, abs, {abs, TempFor(abs, random)}, between, after);
  }

  /** The backup stage and the write stage together. */
  lemma BothStages(abs: Path, bytes: Bytes, from: PeerId, readable: bool,
                   before: FS, between: FS, after: FS, moved: bool, fate: UpsertFate)
    requires abs != [] && BackupFor(abs, from) != abs
    requires if moved then
               && readable && FileAt(before, abs) !in {None, Some(bytes)}
               && FileAt(between, abs) == None && FileAt(between, BackupFor(abs, from)) == FileAt(before, abs)
             else
               between == before && !(readable && FileAt(before, abs) !in {None, Some(bytes)})
    requires FileAt(after, BackupFor(abs, from)) == FileAt(between, BackupFor(abs, from))
    requires FileAt(after, abs) == if fate.Applied? then Some(bytes) else FileAt(between, abs)
    requires if moved then !fate.Ignored? else !fate.OnlyBackedUp?
    requires fate.Applied? ==> fate.readable == readable
    ensures Received(abs, bytes, from, readable, before, after, fate)
  {
  }

  /** The random name of the temporary file is neither the target's nor its backup's. */
  predicate TempApart(root: Path, rel: string, from: PeerId, random: string) {
    var abs := root + Split(rel, '/');
    TempFor(abs, random) !in {abs, BackupFor(abs, from)}
  }

  /** All that a reception does on disk: nothing outside the root changes; inside, no file
      but the target, its backup and a new temporary one; and these as `fate` says. */
  ghost predicate Contained(root: Path, rel: string, bytes: Bytes, from: PeerId, io: UpsertIo, before: FS, after: FS, fate: UpsertFate) {
    var abs := root + Split(rel, '/');
    && Canonical(after, root) && OnlyInside(root, before, after)
    && OthersKept(abs, from, io.random, before, after)
    && Received(abs, bytes, from, io.readable, before, after, fate)
  }

  /** Backup and write can be made, if the directories on the way can. */
  predicate Installable(before: FS, abs: Path, bytes: Bytes, from: PeerId, io: UpsertIo)
    requires abs != []
  {
    && (io.readable && FileAt(before, abs) !in {None, Some(bytes)} ==> io.renamed && !IsDir(before, BackupFor(abs, from)))
    && !IsDir(before, abs) && TempFor(abs, io.random) !in before
    && io.tempMade && io.written && io.persisted
  }

  /** What a reception ends with, for an accepted path: the first thing that goes wrong
      decides, and it is done if nothing does. */
  predicate OutcomeTells(before: FS, abs: Path, bytes: Bytes, from: PeerId, io: UpsertIo, outcome: Outcome)
    requires abs != []
  {
    if io.droppedAt == Some(ForBlob) then outcome == Dropped
    else if !io.fetched then outcome == Skipped("blob_fetch_failed")
    else if io.droppedAt == Some(ForSize) then outcome == Dropped
    else if !io.sizeKnown then outcome == Failed
    else if |bytes| > MAX_FILE_SIZE then outcome == Skipped("too_large")
    else if io.droppedAt == Some(ForBytes) then outcome == Dropped
    else if !io.blobRead then outcome == Failed
    else if io.droppedAt == Some(ForLocalFile) then outcome == Dropped
    else if !Installable(before, abs, bytes, from, io) then outcome == Failed
    else if io.refused == {} then outcome == Done
    else outcome in {Done, Failed}
  }

  lemma Untouched(root: Path, rel: string, bytes: Bytes, from: PeerId, io: UpsertIo, fs: FS)
    requires Canonical(fs, root)
    ensures Contained(root, rel, bytes, from, io, fs, fs, Ignored)
  {
  }

  /** The file's old content is still there or in the backup. */
  predicate OldKept(abs: Path, from: PeerId, before: FS, after: FS)
    requires abs != []
  {
    FileAt(before, abs).Some? ==>
      FileAt(before, abs) == FileAt(after, abs) || FileAt(before, abs) == FileAt(after, BackupFor(abs, from))
  }

  lemma NothingLost(root: Path, rel: string, bytes: Bytes, from: PeerId, io: UpsertIo, before: FS, after: FS, fate: UpsertFate)
    requires Contained(root, rel, bytes, from, io, before, after, fate)
    ensures io.readable ==> OldKept(root + Split(rel, '/'), from, before, after)
  {
  }

  /** What became of the old content of the target, of the older backup of the same
      name, and of the incoming content. */
  ghost predicate Received(abs: Path, bytes: Bytes, from: PeerId, readable: bool, before: FS, after: FS, fate: UpsertFate)
    requires abs != []
  {
    var was, kept := FileAt(before, abs), FileAt(before, BackupFor(abs, from));
    var now, backup := FileAt(after, abs), FileAt(after, BackupFor(abs, from));
    match fate
    case Ignored => now == was && backup == kept
    case OnlyBackedUp(_) => was !in {None, Some(bytes)} && now == None && backup == was
    case Applied(r) =>
      && r == readable
      && now == Some(bytes)
      && backup == if readable && was !in {None, Some(bytes)} then was else kept
  }
}
