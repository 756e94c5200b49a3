# A model of dirhive

dirhive keeps one directory in step between peers: a watcher notices local changes and
broadcasts them, a receive loop applies what other peers broadcast, and markers keep the
two from answering each other. This project models that engine and the protocols around
it, and proves what they guarantee over every run, and exactly when a tempting guarantee
fails.

| module | models |
|---|---|
| `Nodes`, `Mesh` | one peer as a value and the steps of its handlers; N peers, the messages between them, users |
| `Quiescence`, `LoneWriter`, `LoneDelete`, `ConcurrentWrites`, `ManyWriters`, `Limits` | no storms, no amplification; a lone write, a lone delete, two concurrent writes and any number of them, over whole runs; what does not hold, and when it does |
| `Markers` | the self-loop markers of one daemon when no handler is atomic |
| `RelPaths`, `FileSystem`, `SafePaths`, `Effects` | wire paths and skipped names; a file system with symbolic links and the kernel's lookups; the containment walk; the effect of each system call beside an accepted path |
| `Peers` | the daemon as a class over that file system: both receive handlers, dispatch, sending, watcher closure, first-join drain; each is proved to be the corresponding step of `Nodes` |
| `TombstoneDedup` | the time window for repeated Tombstones |
| `AllowListFiles`, `AllowLists` | the file of the allowlist, its encoding and atomic replacement; the allowlist class, and its locks, rollbacks and crashes as a machine of threads |
| `JoinGate` | the flag and the queue in front of the first broadcast |
| `SingleDaemon` | lock file, stale socket, bind, shutdown |
| `GroupFormation` | invite, accept, restart over a network of daemons |
| `Redaction` | the two passes over a log line |
| `Base32`, `InviteTickets` | section 6 of RFC 4648 without padding, and the ticket envelope |
| `EndToEnd` | two daemons and an allowlist put together by the contracts of their parts |
| `Prelude` | shared types |

## What the environment is assumed to do

- Hashes are free of collisions: `Prelude.Hash` keeps the hashed bytes.
- In `Mesh` a handler is one step and the events of one path are coalesced (a set of dirty
  paths). Both matter: `src/send.rs:156-167` sets its marker after an await, and
  `Limits.SecondEventEchoes` shows what a second event does. `Markers` drops both.
- The mesh is one in which every peer has joined; the phase before is in `JoinGate` and
  `Peers.Peer.OnWatcherEvent`. A message is delivered, or lost (the fates `Ignored` and
  `TIgnored`), at any time and in any order. In the mesh the watcher
  can read the files it looks at; `Limits.UnreadFileSentOn` and the contract of
  `Peers.Peer.OnWatcherEvent` say what a failed read does.
- Nobody else changes the file system between the check of a path and its use. The
  watched directory is canonical and no link stands above it.
- A lookup fails with nothing but "not found", a file where a directory is needed, and too
  many links; permissions are not modelled. Writing, renaming, unlinking, making a
  directory may fail at any time.
- The random part of a temporary name makes it differ from the target and its backup.
- RPC handlers of one daemon run one after the other (two `invite` calls at once do race,
  `src/daemon/dispatch.rs:115-123`). Fresh random secrets do not repeat. The tickets
  accepted are tickets that were issued. State files are not deleted or edited by hand; what a
  start makes of any other allowlist file is in `AllowLists.AllowList.LoadOrStrictEmpty`.
- The restarts in `GroupFormation` are those without `--allow-open-all`, which forgets the
  list; `AllowLists` has both kinds.
- No request that adds or removes a peer outlives its daemon's lock: after a graceful
  shutdown the lock is released while requests already accepted
  (`src/daemon/listener.rs:282`) may still be at work, and a quick restart could load the
  allowlist before they commit. `AllowLists` ends all threads with the process.
- The JSON objects of a ticket and of the allowlist, and the texts of endpoints and peer
  ids, are codecs that decode what they encode (`InviteTickets.Invertible`,
  `AllowListFiles.Invertible`). The Base32 code is a library that is not part of
  the repository; the model follows the RFC, refuses `=`, and drops bits that do not fill
  a byte.

## Where the code differs from what is said about it

- `docs/design.md:416-441` probes the socket and then takes the lock. The code takes the
  lock first (`src/daemon/listener.rs:189-200`, `src/bin/dirhive.rs:103-119`); the model
  follows the code, and that order is why the answer "already listening" hardly ever comes.
- It comes, and a living listener's socket file can be unlinked by another process, in one
  case: `src/daemon/listener.rs:120-130` ignores a failed unlink, and a daemon that is
  dropped without `shutdown` does not wait for its accept loop before it releases the lock
  (`SingleDaemon.OrphanAnswers`). `SingleDaemon.ProbeAnsweredExactly` and
  `SingleDaemon.ForeignUnlinkExactly` have the exact conditions.
- `docs/design.md:442-449` has the watcher look at `pending_written`. The closure does not
  (`src/bin/dirhive.rs:345-439`), nor does the model.
- `docs/design.md:547` and `src/allowlist.rs:7` call strict mode irreversible. It is, as
  long as nobody passes `--allow-open-all` (`AllowLists.StaysStrict`). A session with that
  flag starts from an open list whatever is on disk, and if it commits an operation that
  is not an add, it writes the open mode over a strict file
  (`AllowLists.OpenSessionLeftOpen`, `AllowLists.RevokeReopens`).
- A Tombstone for a file that is gone takes away the marker of the Tombstone before it
  (`src/receive.rs:445-456`), so the removal is broadcast again (`Limits.TombstoneEcho`);
  a marker left over swallows a later delete (`Limits.DeleteSwallowed`); edits that cross
  do not converge (`ConcurrentWrites.BothEndsReached`, `ConcurrentWrites.AgreeExactly`); an
  update that fails after the conflict backup is broadcast as a removal
  (`Limits.FailedReceptionDeletes`), or, when no event tells of it, keeps the restored
  file from the others (`Limits.RestoredFileNotSent`).

## Model

| member | source | states |
|---|---|---|
| Nodes.UserActionsCoherent | src/bin/dirhive.rs:345-439 | a user's write or delete leaves every received file's outstanding event absorbable |
| Nodes.UpsertCoherent | src/receive.rs:305-407 | an Upsert, however its handling ends, leaves every outstanding event of a received file absorbable by its hash marker |
| Nodes.TombstoneCoherent | src/receive.rs:419-469 | so does a Tombstone |
| Nodes.EventCoherent | src/bin/dirhive.rs:345-439 | so does a call of the watcher closure, though it takes a marker away |
| Mesh.BroadcastCopies | src/send.rs:151-160 | a broadcast puts exactly one copy in flight for every node but the sender, with the sender's path and bytes |
| Mesh.CoherenceKept | src/bin/dirhive.rs:361-385 | the invariant holds at every node after every step of any node, user, or the network |
| Quiescence.WorkShrinks | src/bin/dirhive.rs:345-439 | every step no user takes strictly lowers the termination measure, whatever it is and however it ends |
| Quiescence.BoundedActivity | src/bin/dirhive.rs:345-439 | over every run, the steps not taken by users are bounded by the measure at the start plus a constant for each user action |
| Quiescence.NoDeadlock | src/receive.rs:94-150 | the mesh can go on by itself exactly when it is not quiescent |
| Quiescence.EveryRunStops | src/bin/dirhive.rs:345-439 | once users stop, no schedule can be followed for more steps than the measure: every run ends |
| Quiescence.NoUpsertAmplification | src/bin/dirhive.rs:361-385 | in every run the Upserts broadcast are at most the files unsent at its start plus the user writes in it: no received file is sent on |
| Quiescence.FromTheStart | src/bin/dirhive.rs:345-439 | from daemons just started, with any files and markers: the Upserts of any run are at most the writes of users in it, and when users have stopped the mesh goes on exactly until it is at rest, which every schedule reaches |
| LoneWriter.LoneWriteSettles | src/bin/dirhive.rs:356-438 | from a mesh at rest, one content-changing write at a node whose marker for the path is fresh, and nothing failing on the path: every run is bounded by the work there is, can go on exactly while the mesh is not at rest, and where it can go on no more every node has its old files with exactly that write made |
| LoneWriter.GoesOnExactly | src/receive.rs:94-150 | no run without failures on a path is stuck before the mesh is at rest |
| LoneWriter.LoneWriterConverges | src/bin/dirhive.rs:356-438 | one user write of a path, with anything going on at other paths: when the path is quiet again all nodes hold the written content if and only if the closure's guard let the event through or the others held it before; displaced content is in the backups |
| LoneWriter.LoneWriteWholeMesh | src/receive.rs:305-407 | for every write the guard lets through, from a mesh at rest to a mesh at rest: every node has its old files with exactly that write made |
| LoneWriter.QuietStaysQuiet | src/bin/dirhive.rs:345-439 | a path nobody acts on stays quiet and unchanged at every node, over every run |
| LoneWriter.FreshExactly | src/bin/dirhive.rs:361-385 | a hash marker no event is coming for is fresh exactly when every write that changes the content passes the closure's guard |
| LoneWriter.FreshSince | src/receive.rs:388-398 | over every run, a marker is fresh if it was at some point, or an event of the path was handled, and no update for the path has failed unnoticed after the conflict backup since |
| LoneWriter.ChangesAreNoticed | src/bin/dirhive.rs:356-385 | so every write that changes the content after such a run is noticed |
| LoneDelete.LoneDeleteExactly | src/bin/dirhive.rs:387-415 | one user delete of a path, with anything going on at other paths: when the path is quiet again no node has it if and only if no removal marker was left at the deleting node or no other node had it; one Tombstone at most is broadcast, nothing is echoed, and no removal marker stays behind |
| LoneDelete.LoneDeleteSettles | src/receive.rs:419-469 | from a mesh at rest: every run is bounded by the work there is, can go on exactly while the mesh is not at rest, and where it can go on no more every node has its old files without that one |
| LoneDelete.GoesOnExactly | src/receive.rs:94-150 | no run without failures on a deleted path is stuck before the mesh is at rest |
| ManyWriters.EachHoldsLast | src/receive.rs:305-407 | in a mesh of any size any users write one path, each before it takes in an update: when the path is quiet, each node has taken in exactly the updates of the other writers that sent one, each once, and holds the last, or its own |
| ManyWriters.TwoWritersAgree | src/bin/dirhive.rs:356-438 | two writers in a mesh of any size: all nodes agree if and only if both wrote the same or one took in the other's update before the event of its own write |
| ManyWriters.DifferentWritesAgree | src/bin/dirhive.rs:356-438 | any number of writers of different contents: all nodes agree if and only if one update only went out, all other writers having been overtaken |
| ManyWriters.ManyWritersSettle | src/receive.rs:305-407 | once all have written, no run without failures on the path is stuck before the mesh is at rest, nor goes on for ever |
| ConcurrentWrites.AgreeExactly | src/bin/dirhive.rs:356-438 | two nodes, both users write one path at any times but unseen by each other, in any run without failures on the path: when it is quiet, the nodes agree if and only if both wrote the same or one took in the other's update before the event of its own write; who holds what, and that the displaced content is in the backup |
| ConcurrentWrites.ConcurrentWritesSettle | src/receive.rs:305-407 | such a run is not stuck before the mesh is at rest and does not go on for ever |
| ConcurrentWrites.BothEndsReached | src/receive.rs:355-398 | from every start two noticed writes have a run after which the nodes are silent with each other's content, and one after which both have the first |
| Limits.TombstoneEcho | src/receive.rs:445-467 | a removal made for a peer is broadcast again exactly when a further Tombstone for the path is acted on before the event |
| Limits.DeleteBroadcast | src/bin/dirhive.rs:387-399 | a user's delete is broadcast exactly when no removal marker is left |
| Limits.DeleteSwallowed | src/bin/dirhive.rs:387-399 | such a marker is left, and a delete swallowed, when the path is written again before the event of a remote removal |
| Limits.OvertakenWrite | src/receive.rs:355-398 | an edit overtaken by an update before its event is not sent; both nodes agree and the edit is in the backup |
| Limits.SecondEventEchoes | src/bin/dirhive.rs:356-385 | a second event for one reception is taken for an edit and sent |
| Limits.FailedReceptionDeletes | src/receive.rs:355-384 | an update that fails between backup and write is broadcast as a removal exactly when no removal marker is left |
| Limits.RestoredFileNotSent | src/receive.rs:355-384 | after an update that failed between backup and write without an event (src/watcher.rs:123-137 skips a rename that names the backup), of all that a user may write exactly the old content is not sent |
| Limits.UnreadFileSentOn | src/bin/dirhive.rs:366-376 | a received file is sent on when the one read in the closure fails |
| Markers.HashBalanceKept | src/bin/dirhive.rs:361-385 | with every access to a marker or a file a step of its own: hash markers set, taken and used up stay in balance for each path |
| Markers.RemovalBalanceKept | src/receive.rs:434-467 | so do removal markers |
| Markers.AllKnownKept | src/send.rs:156-167 | every hash marker, set or taken, is of content sent or put in place for that path before |
| Markers.MarkersConserved | src/bin/dirhive.rs:361-399 | over every interleaving: silenced modify events never outnumber markers set, silenced removals never outnumber Tombstones handled, and a silenced event found content sent or put in place for the path before |
| Markers.ReceptionGetsThere | src/receive.rs:326-398 | whatever goes on at other paths between its steps, a reception puts its file in place and sets the marker for it |
| Markers.TombstoneGetsThere | src/receive.rs:434-467 | so a Tombstone removes the file and leaves its marker, or removes nothing and takes the marker back |
| Markers.SendingGetsThere | src/send.rs:118-176 | so a sending puts out what the file held when it was read, and marks it |
| Markers.EchoSilenced | src/bin/dirhive.rs:361-385 | then a closure called for the path, undisturbed on it, ends with the event silenced and nothing sent, whatever goes on at other paths between its steps |
| Markers.RemovalSilenced | src/bin/dirhive.rs:387-399 | the same for the event of a removal made for a peer |
| RelPaths.JoinOfSplit | src/message.rs:114-121 | splitting a path loses nothing, and no component contains the separator |
| RelPaths.ValidExactly | src/message.rs:104-123 | a wire path is accepted exactly when it has no backslash and every component is a name other than `.` and `..` |
| RelPaths.ReceptionNamesSkipped | src/watcher.rs:139-165 | conflict backups and temporary files are skipped by the watcher whatever the path and the peer |
| RelPaths.NamesSkipped | src/watcher.rs:139-165 | hidden names, editors' temporary files and backups, and conflict backups are skipped, each written out |
| RelPaths.OrdinaryNames | src/watcher.rs:139-165 | of the names without a tilde and with one dot, not in front, exactly those ending in `swp`, `swx`, `tmp` or in a conflict mark are skipped, and of those without a dot none |
| RelPaths.BackupPathInjective | src/conflict.rs:31-40 | a backup name tells which file and which short id it is for |
| SafePaths.SymlinkMetadata | src/send.rs:60-84 | the metadata of a path without links above it is that of the very entry |
| SafePaths.ResolveSafePath | src/send.rs:56-107 | a path is accepted if and only if it validates, the root is a directory, and every prefix that exists is no link and, if proper, a directory |
| SafePaths.WalkParts | src/send.rs:69-104 | the walk stops at the first missing component and loses nothing by it |
| SafePaths.AcceptedStaysInside | src/send.rs:56-107 | the kernel, following links, resolves an accepted path to itself or to nothing |
| SafePaths.LinkLeadsOut | src/send.rs:66-92 | why: a path with a link on the way is refused, and the kernel would look it up below the target of the link |
| Effects.RenameBeside | src/receive.rs:360-364 | a rename next to an accepted path acts on those very names, and fails only onto a directory |
| Effects.UnlinkBeside | src/receive.rs:440-466 | so does an unlink; "not found" means the name is not there |
| Effects.CreateBeside | src/receive.rs:373-378 | so does the creation of the temporary file, which never opens something that exists |
| Effects.DirsMade | src/receive.rs:366-370 | making the parents adds directories strictly inside the root, on the way to the target, and nothing else |
| Effects.AllDirsMade | src/receive.rs:366-370 | it makes all of them unless a `mkdir` is refused |
| Peers.LiteralAfterMkdir | src/receive.rs:366-384 | also after the parents are made a lookup of the target is literal and nothing outside has changed |
| Peers.Peer.BackUp | src/receive.rs:355-364 | a readable file with other content, and only that, is renamed to its backup name |
| Peers.Peer.Replace | src/receive.rs:372-384 | the target gets all the new bytes or stays as it was |
| Peers.Peer.WriteAtomically | src/receive.rs:366-384 | so with the parents; nothing else changes, and an existing file is never taken for the temporary one |
| Peers.Peer.Install | src/receive.rs:355-384 | backup and write together: where the old content, the older backup and the new content are on every exit |
| Peers.Peer.WriteReceived | src/receive.rs:326-384 | which of the outcomes a reception has, decided by the first thing that goes wrong; it is done exactly when nothing does |
| Peers.Peer.InstallInside | src/receive.rs:355-384 | for an accepted path nothing outside the root changes, and inside only target, backup and a new temporary file |
| Peers.Peer.HandleUpsert | src/receive.rs:256-407 | on every exit, also when the reception is dropped while it waits: the outcome is decided by the first thing that goes wrong; nothing outside the root changes; inside, only target, backup, a new temporary file and new directories on the way; no pending mark stays; the hash marker is set exactly when the target holds the incoming bytes; readable old content is at the path or in the backup unless equal |
| Peers.Peer.RemoveFile | src/receive.rs:440-466 | unlinks the very entry or changes nothing |
| Peers.Peer.HandleTombstone | src/receive.rs:419-469 | nothing but the target changes, which is gone exactly when it was no directory and its unlink was not refused; afterwards the removal marker is there exactly when this call unlinked a file |
| Peers.Peer.DispatchUpsert | src/receive.rs:166-226 | malformed, unallowed and unsafe updates are answered as such and change nothing; otherwise the outcome is what the reception tells, and done exactly when the file holds the incoming bytes and its marker is set; with all its failures it is the mesh's step on the node this daemon is |
| Peers.Peer.DispatchTombstone | src/receive.rs:166-252 | the same for a Tombstone: done exactly when the path was absent or its file was unlinked, with the removal marker left exactly in the second case |
| Peers.UpsertRefines | src/receive.rs:305-407 | what a reception leaves on disk are the files and backups of the node after the mesh's step |
| Peers.TombstoneRefines | src/receive.rs:419-469 | the same for a Tombstone |
| Peers.ReceptionContained | src/receive.rs:355-384 | a reception keeps the root canonical and everything outside it unchanged |
| Peers.FileApart | src/receive.rs:355-384 | a watched path is no other path's target, backup or temporary file |
| Peers.BackupApart | src/conflict.rs:31-45 | backups of different files or peers are different files, and no targets |
| Peers.BackupForExactly | src/conflict.rs:31-45 | the backup is named for the file and the first eight characters of the peer id, and is one for two peers exactly when they share those |
| Peers.Peer.SendFile | src/send.rs:118-176 | an update goes out exactly when the path is accepted, a plain file within the limit is there, and nothing fails; it carries what the file holds, and the marker is set exactly then |
| Peers.Peer.BroadcastTombstone | src/send.rs:179-212 | sent exactly when valid, outside the window and delivered; the window is opened even if the delivery fails |
| Peers.Peer.TakeMarkers | src/bin/dirhive.rs:361-399 | the hash marker is taken in every case; the event is absorbed exactly for an equal hash or a removal marker, and only the one that absorbed it is used up |
| Peers.Peer.ActOnEvent | src/bin/dirhive.rs:345-439 | for any path, readable or not: what is absorbed, queued, sent and marked; before the join exactly what is no echo is queued |
| Peers.Peer.OnWatcherEvent | src/bin/dirhive.rs:345-439 | on a plain file or an absent one the closure is the event step of the mesh, with or without a comparison, and what is no echo goes out unless an error, the limit or the window stops it |
| Peers.Peer.OnNeighborUp | src/bin/dirhive.rs:249-301 | the first callback drains the queue, each path once; later ones do nothing |
| Peers.Peer.SendAll | src/bin/dirhive.rs:267-300 | whatever happens to disk and markers between the paths, each queued path goes out as a removal or as the content found when its turn comes, exactly when nothing stated stands against it |
| TombstoneDedup.TombstonesSpaced | src/send.rs:188-202 | the instants let through for a path are pairwise at least the window apart, whatever the order of clock readings and lock |
| TombstoneDedup.OnlyRepeatsDropped | src/send.rs:188-202 | a call is let through exactly when it is outside the window of the last one let through |
| AllowLists.RestoreUndoes | src/allowlist.rs:205-234 | a rollback gives back exactly the entry, its absence, and the open flag |
| AllowListFiles.FromJsonBytes | src/allowlist.rs:101-124 | a file gives a list exactly when it is JSON of version 2 whose keys are all ids: the list of its entries, whatever the order they are taken over in; and else the error that is there |
| AllowListFiles.ReadsBack | src/allowlist.rs:101-175 | of the bytes written for a list a start can make that list and nothing else |
| AllowListFiles.WriteAtomic | src/allowlist.rs:266-287 | the new file is in place, readable by the owner only, exactly if every stage succeeds, and else the old one; at no moment in between is there another; nothing but a new temporary file is left behind |
| AllowLists.AllowList.LoadOrStrictEmpty | src/allowlist.rs:93-99 | no file is strict and empty; a file that cannot be read or made sense of is an error and never a list |
| AllowLists.AllowList.Save | src/allowlist.rs:178-185 | on success the file is the encoding of memory, on failure what it was |
| AllowLists.AllowList.AddAndSave | src/allowlist.rs:198-236 | all or nothing, in memory and on disk: on success the id has the entry, every other one is kept, and exactly the listed are let in |
| AllowLists.AllowList.RemoveAndSave | src/allowlist.rs:240-262 | all or nothing: on success the id is not listed, every other entry and the open mode are kept, and the removed entry is returned |
| AllowLists.InvKept | src/allowlist.rs:178-262 | every step of every thread, every failure and crash keeps memory, disk and the committed operations in step |
| AllowLists.Linearizable | src/allowlist.rs:178-262 | for any number of threads: whenever the lock is free, memory is the fold of the committed operations in lock order, and so is the file once written or loaded; every operation reports what that order says |
| AllowLists.CrashSafe | src/allowlist.rs:266-287 | a crash at any point loses nothing committed and keeps nothing else |
| AllowLists.LastCommitCounts | src/allowlist.rs:198-262 | over every run, whenever the lock is free, a peer has the entry of the last committed operation that names it, or what the process started with |
| AllowLists.RevokedStaysOut | src/allowlist.rs:240-262 | a committed removal holds at every point of every run, through failed writes, crashes and restarts of either kind, until somebody calls an add of the peer; a strict list does not let it in |
| AllowLists.AddedStaysIn | src/allowlist.rs:198-236 | a committed add holds likewise, until somebody calls a removal of the peer or starts with `--allow-open-all` |
| AllowLists.Undisturbed | src/allowlist.rs:178-262 | an operation that nothing disturbs gets the lock, is committed, is on disk, and lets the lock go |
| AllowLists.OpenUntilAdd | src/allowlist.rs:198-204 | exactly an add ends the open mode |
| AllowLists.StaysStrict | src/allowlist.rs:198-236 | a strict list stays strict at every point of every run and across restarts without `--allow-open-all` |
| AllowLists.StrictSinceAdd | src/allowlist.rs:198-236 | from the first committed add on the list is strict at every point of every run without `--allow-open-all`, whatever came before |
| AllowLists.OpenSessionLeftOpen | src/bin/dirhive.rs:142-149 | after a session with `--allow-open-all` a plain start is open exactly if the session committed something but no add, or nothing over an open file |
| AllowLists.RevokeReopens | src/daemon/dispatch.rs:248-264 | one such session: a revoke turns a strict file into an open one |
| JoinGate.InvKept | src/daemon/state.rs:204-261 | every step of every watcher thread and callback keeps the gate's invariant |
| JoinGate.GateLosesNothing | src/daemon/state.rs:204-261 | in every interleaving one callback drains at most, a change answered "queued" is in the queue or in that drain, any other answer comes after the join, and the drained queue stays empty |
| JoinGate.AllDrainedAtTheEnd | src/bin/dirhive.rs:249-260 | when all are done, each queued change is in the drain of the one callback that won |
| SingleDaemon.InvKept | src/daemon/listener.rs:120-250 | every step of every process, crashes and a failed unlink included, keeps lock, socket entry and listeners in step |
| SingleDaemon.OneServer | src/daemon/listener.rs:137-250 | at most one daemon serves; it holds the lock and the socket entry leads to it |
| SingleDaemon.ForeignUnlinkExactly | src/daemon/listener.rs:120-130 | a process that unlinks the socket file of a living listener is its owner exactly if the owner did not fail to unlink it when it went down |
| SingleDaemon.ProbeAnsweredExactly | src/daemon/listener.rs:192-200 | the lock holder's probe can be answered exactly when the socket file leads to the living accept loop of a daemon that failed to unlink it |
| SingleDaemon.NoForeignUnlink | src/daemon/listener.rs:106-130 | nobody unlinks the socket of another's living listener in any run in which every daemon unlinks its own socket file when it goes down, or in which every one waits for its accept loop |
| SingleDaemon.ProbeNeverAnswered | src/daemon/listener.rs:192-200 | in any such run whoever holds the lock finds only dead sockets |
| SingleDaemon.OrphanAnswers | src/daemon/listener.rs:120-130 | the condition is needed: from every host with a serving daemon there is a run after which the next lock holder may be answered, or unlink the socket of a living listener that is not its own |
| SingleDaemon.SocketNeverReappears | src/daemon/listener.rs:217-223 | the check for a socket that came back never fires |
| SingleDaemon.ServingUndisturbed | src/bin/dirhive.rs:103-119 | a serving daemon keeps lock, socket and listener whatever other processes do |
| SingleDaemon.AlwaysRecovers | src/daemon/listener.rs:158-200 | after any crashes, once no process is past its start, the lock is free, and a start without I/O errors whose probe is not answered gets to serve |
| GroupFormation.AddOrReplacedIs | src/bootstrap_peers.rs:82-90 | the address is in, no other id is lost or changed, ids stay unique |
| GroupFormation.AddOrReplacedAt | src/bootstrap_peers.rs:82-90 | it is where its id was or else at the end, and no other entry is moved |
| GroupFormation.Daemon.constructor | src/bin/dirhive.rs:185-194 | a start is active with its secret's topic exactly if a secret is stored, and takes the files as they are |
| GroupFormation.Daemon.Invite | src/daemon/dispatch.rs:112-138 | each failure and every field after it; a secret is generated only if there is none and it can be stored; the ticket carries the stored one |
| GroupFormation.Daemon.AcceptInvite | src/daemon/dispatch.rs:140-198 | which stage each failure reaches, from a ticket that does not decode on, and every field after it: the inviter joins the allowed peers, nobody leaves; success exactly when there is no other secret and all three files are written |
| GroupFormation.Daemon.AddOrReplace | src/bootstrap_peers.rs:82-90 | the loop computes the specified list |
| GroupFormation.SecretWrittenOnce | src/daemon/dispatch.rs:112-176 | no step changes or loses a stored secret |
| GroupFormation.AllowedExactly | src/daemon/dispatch.rs:173-225 | over every run, at every point, a peer is on the allowlist exactly if it was at first or an `allow` of it or an accept of its ticket put it there, and it has not been revoked since |
| GroupFormation.KnownForever | src/bootstrap_peers.rs:82-90 | an id in the bootstrap list stays there over every run |
| GroupFormation.InvKept | src/daemon/dispatch.rs:112-198 | status, tickets, bootstrap entries and founders stay in step over invites, accepts that fail half-way, crashes and restarts |
| GroupFormation.LinkedShare | src/daemon/dispatch.rs:185-192 | bootstrap entries link only daemons with one secret, however long the chain |
| GroupFormation.OneGroupPerComponent | src/daemon/dispatch.rs:112-198 | over every run: linked daemons share one secret and, if active, one topic; tickets carry their issuer's present secret; bootstrap ids are unique |
| GroupFormation.SameSecretSameFounder | src/daemon/dispatch.rs:115-126 | two daemons hold the same secret exactly when it comes from the same founder |
| GroupFormation.StatusTells | src/daemon/state.rs:60-113 | uninitialized exactly without a stored secret; a restart is asked for exactly while a stored secret is not subscribed |
| GroupFormation.SenderKept | src/daemon/state.rs:284-311 | a live sender is never dropped before a restart |
| GroupFormation.BilateralFlow | docs/design.md:248-272 | the documented flow ends with both active on one topic, each allowing the other |
| Redaction.RedactPattern | src/daemon/dispatch.rs:357-372 | the loop replaces exactly the tokens of the specified cut |
| Redaction.RedactHexToken | src/daemon/dispatch.rs:334-355 | the buffer loop replaces exactly the long runs of the specified cut |
| Redaction.RedactSecrets | src/daemon/dispatch.rs:321-325 | both passes, tickets first |
| Redaction.PatternCut | src/daemon/dispatch.rs:357-372 | the pieces are the line in order; what goes begins with the prefix and ends at the first delimiter; what stays has no prefix in it |
| Redaction.HexCut | src/daemon/dispatch.rs:334-355 | the pieces are the line in order; runs are maximal; a run goes exactly if it is long enough |
| Redaction.NothingSecretShown | src/daemon/dispatch.rs:321-372 | for every line: no prefix, no 32 hexadecimal digits in a row, not across a mark either; redacting again changes nothing |
| Redaction.HarmlessShown | src/daemon/dispatch.rs:321-372 | a line is unchanged exactly when it has neither |
| Redaction.HexDigitsAre | src/daemon/dispatch.rs:345-347 | the characters of a hexadecimal run, written out |
| Redaction.DelimitersAre | src/daemon/dispatch.rs:365-367 | the characters of ASCII that end a token, written out |
| Redaction.ShownInLetters | src/daemon/dispatch.rs:321-372 | of 32 characters in a row that are shown one at least is not in `0123456789abcdefABCDEF`, and `dirhive1-` is nowhere |
| Redaction.OnlyTheTicketGoes | src/daemon/dispatch.rs:357-372 | in a line with nothing else to hide, a ticket becomes the mark, and the text before it and from the next delimiter on is shown as it is |
| Redaction.OnlyTheTokenGoes | src/daemon/dispatch.rs:334-355 | so does a hexadecimal run of at least 32 characters |
| Base32.RoundTrip | src/message.rs:131-164 | decoding gives back every byte string, of any length |
| Base32.CanonicalExactly | src/message.rs:131-164 | a text is an encoding exactly when fewer than five bits are left over and all are zero |
| Base32.TableIs | src/message.rs:131-164 | the digits are those of table 3 of RFC 4648, in their places |
| Base32.EncodeIsNumber | src/message.rs:153-164 | an encoding is the number the bytes denote, most significant first, with fewer than five zero bits behind it, in base 32 |
| Base32.DecodeIsNumber | src/message.rs:169-177 | decoding any text gives the bytes of its number without the bits that do not fill a byte |
| InviteTickets.RoundTrip | src/message.rs:153-191 | decode gives back the ticket for every payload that differs from the encoded one in the case of ASCII letters at most |
| InviteTickets.FieldsRoundTrip | src/message.rs:178-190 | a secret is accepted exactly if it has 16 bytes |
| InviteTickets.DecodeExactly | src/message.rs:169-191 | a text is a ticket exactly when it has the prefix, and its payload, but for letter case, is Base32 of a JSON object with an endpoint and Base32 of 16 bytes |
| InviteTickets.EncodeInjective | src/message.rs:153-167 | different tickets have different texts |
| InviteTickets.CaseBlind | src/message.rs:169-177 | decoding is blind to the case of ASCII letters in the payload of every text, good or bad |
| InviteTickets.TicketGoesWhole | src/daemon/dispatch.rs:357-372 | a ticket in a log line goes as a whole, in any letter case of its payload, and the text before it stays |
| EndToEnd.EditArrives | src/receive.rs:166-407 | a user's edit at one daemon, when nothing fails, is in the file at another that allows it, displaced content in the backup and all else as it was; neither the event of the reception nor a second one of the edit is answered |
| EndToEnd.DeleteArrives | src/receive.rs:227-252 | a user's delete removes that file and nothing else at the other, and neither event is answered |
| EndToEnd.RevokedIsNotHeard | src/allowlist.rs:240-262 | what a revoked peer sends to a list that is not open changes nothing, also after a restart from the file the revoke wrote; every other entry is read back |
| EndToEnd.AddedIsHeard | src/allowlist.rs:198-236 | what an added peer sends is received, also after a restart from the file the add wrote |

## Left out

- Peers.Peer.OnWatcherEvent: a directory or a device at the path has no step in the mesh, which has plain files only; its case is in the contract of `Peers.Peer.ActOnEvent`.
- ConcurrentWrites.AgreeExactly: says for two nodes where the displaced content is; `ManyWriters` has any number of nodes and writers and leaves the backups out.
- InviteTickets.RoundTrip: JSON and the endpoint's text form are parameters, so malformed JSON and endpoints show only as error results.
- Mesh.CoherenceKept: renames and directories are not steps of their own; a rename is a delete and a write, a directory the files in it.
- The message format of SyncUpdate, its version number, and the blob format field.
- Iroh endpoints, gossip, blob transfer and the per-peer blob filter: any delivery, fetch or failure of them may happen.
- The log of received changes, last-seen times, health and status reports, the connection cap and read timeout.
- The MCP server, the RPC line protocol, the command line, scripts and launchd files.
- Key files, file modes and directory modes: thin I/O around atomic writes.
- Real time and the debounce window, except for the instants of the Tombstone window.
- `AllowList::add` and `AllowList::remove`, which only tests call and which bypass the persist lock.
- Poisoned locks and panics inside a lock.
