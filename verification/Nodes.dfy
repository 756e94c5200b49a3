/** One peer of the mesh as the sync engine sees it, and what each handler does
    to it as one atomic step. `Peers.Peer` shows that the handlers, run over a
    file system with symbolic links and failures, do exactly this. */
module Nodes {
  import opened Prelude

  /** A path relative to the watched directory, by components; only paths that
      the watcher's skip filter lets through occur. */
  type Rel = seq<string>

  datatype Node = Node(
    id: PeerId,
    files: map<Rel, Bytes>,
    lastWritten: map<Rel, Hash>,
    lastRemoved: set<Rel>,
    // conflict backups, by path and short id of the peer whose update displaced the content
    backups: map<(Rel, string), Bytes>,
    // paths with a watcher event outstanding (events are coalesced per path)
    dirty: set<Rel>,
    // history: files whose present content was written here by a user, not by a peer
    local: set<Rel>)

  /** How the handling of an Upsert ended. */
  datatype UpsertFate =
    | Ignored                        // refused or failed before anything on disk changed
    | OnlyBackedUp(noticed: bool)    // failed after the conflict backup moved the file away
    | Applied(readable: bool)        // written; `readable`: the old content could be read

  /** How the handling of a Tombstone ended. */
  datatype TombstoneFate = TIgnored | TUnlinkFailed | THandled

  /** What the watcher closure put on the wire. */
  datatype Outgoing = Nothing | SendUpsert(bytes: Bytes) | SendTombstone

  /** First eight characters of a peer id. */
  function ShortId(id: PeerId): string {
    id[..8]
  }

  function UserWrite(n: Node, p: Rel, bytes: Bytes): Node {
    n.(files := n.files[p := bytes], dirty := n.dirty + {p}, local := n.local + {p})
  }

  function UserDelete(n: Node, p: Rel): Node {
    n.(files := n.files - {p}, dirty := n.dirty + {p}, local := n.local - {p})
  }

  predicate UpsertPossible(n: Node, p: Rel, bytes: Bytes, fate: UpsertFate) {
    && (fate.OnlyBackedUp? ==> p in n.files && n.files[p] != bytes)
    && (!fate.Ignored? ==> |bytes| <= MAX_FILE_SIZE)
  }

  function ReceiveUpsert(n: Node, p: Rel, bytes: Bytes, from: PeerId, fate: UpsertFate): Node
    requires UpsertPossible(n, p, bytes, fate)
  {
    match fate
    case Ignored => n
    case OnlyBackedUp(noticed) =>
      n.(files := n.files - {p},
         backups := n.backups[(p, ShortId(from)) := n.files[p]],
         dirty := if noticed then n.dirty + {p} else n.dirty,
         local := n.local - {p})
    case Applied(readable) =>
      n.(files := n.files[p := bytes],
         lastWritten := n.lastWritten[p := Hash(bytes)],
         backups := if readable && p in n.files && n.files[p] != bytes
                    then n.backups[(p, ShortId(from)) := n.files[p]] else n.backups,
         dirty := n.dirty + {p},
         local := n.local - {p})
  }

  function ReceiveTombstone(n: Node, p: Rel, fate: TombstoneFate): Node {
    match fate
    case TIgnored => n
    case TUnlinkFailed => n.(lastRemoved := n.lastRemoved - {p})
    case THandled =>
      if p in n.files then
        n.(files := n.files - {p}, lastRemoved := n.lastRemoved + {p},
           dirty := n.dirty + {p}, local := n.local - {p})
      else
        n.(lastRemoved := n.lastRemoved - {p})
  }

  /** The hash marker absorbs the event: nothing goes out. */
  predicate EchoAbsorbed(n: Node, p: Rel) {
    p in n.lastWritten && p in n.files && n.lastWritten[p] == Hash(n.files[p])
  }

  /** The watcher closure on one event for `p`. `removeKind`: the event is of the
      Remove kind; `sent`: the broadcast was made (false for every error in the
      send paths and for a tombstone dropped by the time-window dedup). */
  function OnEvent(n: Node, p: Rel, removeKind: bool, sent: bool): (Node, Outgoing) {
    var m := n.(dirty := n.dirty - {p}, lastWritten := n.lastWritten - {p});
    if EchoAbsorbed(n, p) then (m, Nothing)
    else if removeKind || p !in n.files then
      if p in n.lastRemoved then (m.(lastRemoved := n.lastRemoved - {p}), Nothing)
      else (m, if sent then SendTombstone else Nothing)
    else if sent && |n.files[p]| <= MAX_FILE_SIZE then
      (m.(lastWritten := m.lastWritten[p := Hash(n.files[p])]), SendUpsert(n.files[p]))
    else (m, Nothing)
  }

  /** To a closure that cannot read the file a marker says nothing; it is taken all the
      same. */
  function Unread(n: Node, p: Rel): Node {
    n.(lastWritten := n.lastWritten - {p})
  }

  /** What a node relies on between any two steps: an outstanding event for a file
      that a peer wrote will be absorbed. */
  ghost predicate Coherent(n: Node) {
    && n.local <= n.files.Keys
    && forall p :: p in n.dirty && p in n.files && p !in n.local ==> EchoAbsorbed(n, p)
  }

  lemma UserActionsCoherent(n: Node, p: Rel, bytes: Bytes)
    requires Coherent(n)
    ensures Coherent(UserWrite(n, p, bytes)) && Coherent(UserDelete(n, p))
  {
  }

  lemma UpsertCoherent(n: Node, p: Rel, bytes: Bytes, from: PeerId, fate: UpsertFate)
    requires Coherent(n) && UpsertPossible(n, p, bytes, fate)
    ensures Coherent(ReceiveUpsert(n, p, bytes, from, fate))
  {
    var m := ReceiveUpsert(n, p, bytes, from, fate);
    forall q | q in m.dirty && q in m.files && q !in m.local
      ensures EchoAbsorbed(m, q)
    {
      assert q != p ==> EchoAbsorbed(n, q);
    }
  }

  lemma TombstoneCoherent(n: Node, p: Rel, fate: TombstoneFate)
    requires Coherent(n)
    ensures Coherent(ReceiveTombstone(n, p, fate))
  {
    var m := ReceiveTombstone(n, p, fate);
    forall q | q in m.dirty && q in m.files && q !in m.local
      ensures EchoAbsorbed(m, q)
    {
      assert EchoAbsorbed(n, q);
    }
  }

  lemma EventCoherent(n: Node, p: Rel, removeKind: bool, sent: bool)
    requires Coherent(n)
    ensures Coherent(OnEvent(n, p, removeKind, sent).0)
  {
    var m := OnEvent(n, p, removeKind, sent).0;
    forall q | q in m.dirty && q in m.files && q !in m.local
      ensures EchoAbsorbed(m, q)
    {
      assert EchoAbsorbed(n, q);
    }
  }
}
