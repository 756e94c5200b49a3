/** The self-loop markers when nothing is atomic: reception, watcher closures and the
    drain task of one daemon, interleaved between any two accesses to shared state,
    while users and other programs change the files. */
module Markers {
  import opened Prelude
  import opened Nodes

  type Tid = nat

  /** Where a task is. */
  datatype Pc =
    | Taken(path: Rel, removeKind: bool, expected: Option<Hash>)  // closure: hash marker taken
    | Present(path: Rel, removeKind: bool, hash: Hash)            // closure: the file is there
    | NoEcho(path: Rel, removeKind: bool)                         // closure: content differs
    | Absent(path: Rel)                                           // closure: removed, or not there
    | ToSend(path: Rel)                                           // send_file called
    | Read(path: Rel, bytes: Bytes)                               // send_file: content read
    | Broadcast(path: Rel, bytes: Bytes)                          // send_file: update is out
    | Receiving(path: Rel, bytes: Bytes)                          // handle_upsert called
    | InPlace(path: Rel, bytes: Bytes)                            // handle_upsert: file persisted
    | Marked(path: Rel)                                           // handle_tombstone: removal marker set
    | NotRemoved(path: Rel)                                       // handle_tombstone: nothing was unlinked

  /** What happened, in order. */
  datatype Happened =
    | SentOut(path: Rel, bytes: Bytes)
    | PutInPlace(path: Rel, bytes: Bytes)
    | HashMarked(path: Rel)
    | RemovalMarked(path: Rel)
    | ModifySuppressed(path: Rel, bytes: Bytes)
    | RemoveSuppressed(path: Rel)

  datatype Daemon = Daemon(
    files: map<Rel, Bytes>,
    lastWritten: map<Rel, Hash>,
    lastRemoved: set<Rel>,
    tasks: map<Tid, Pc>,
    log: seq<Happened>)

  const STARTED: Daemon := Daemon(map[], map[], {}, map[], [])

  datatype Step =
    | DiskChanges(path: Rel, content: Option<Bytes>)   // anybody, at any time
    | Event(t: Tid, path: Rel, removeKind: bool)       // closure called; takes the hash marker
    | LookForFile(t: Tid)                              // is there a file to compare?
    | Compare(t: Tid, readable: bool)                  // reads the file and compares
    | LookAgain(t: Tid)                                // is it a removal?
    | TakeRemoval(t: Tid)                              // takes the removal marker, if there is one
    | StartSend(t: Tid, path: Rel)                     // drain task
    | ReadForSend(t: Tid)
    | GoesOut(t: Tid)
    | MarkSent(t: Tid)
    | Receive(t: Tid, path: Rel, bytes: Bytes)
    | Persist(t: Tid)
    | MarkApplied(t: Tid)
    | MarkRemoval(t: Tid, path: Rel)
    | Unlink(t: Tid, fails: bool)
    | Unmark(t: Tid)
    | Abandon(t: Tid)                                  // any error return; also a task that is dropped

  predicate At(d: Daemon, t: Tid) { t in d.tasks }

  predicate Gone(d: Daemon, path: Rel, removeKind: bool) { removeKind || path !in d.files }

  predicate Enabled(d: Daemon, step: Step) {
    match step
    case DiskChanges(_, _) => true
    case Event(t, _, _) => !At(d, t)
    case LookForFile(t) => At(d, t) && d.tasks[t].Taken?
    case Compare(t, _) => At(d, t) && d.tasks[t].Present?
    case LookAgain(t) => At(d, t) && d.tasks[t].NoEcho?
    case TakeRemoval(t) => At(d, t) && d.tasks[t].Absent?
    case StartSend(t, _) => !At(d, t)
    case ReadForSend(t) => At(d, t) && d.tasks[t].ToSend? && d.tasks[t].path in d.files
    case GoesOut(t) => At(d, t) && d.tasks[t].Read?
    case MarkSent(t) => At(d, t) && d.tasks[t].Broadcast?
    case Receive(t, _, _) => !At(d, t)
    case Persist(t) => At(d, t) && d.tasks[t].Receiving?
    case MarkApplied(t) => At(d, t) && d.tasks[t].InPlace?
    case MarkRemoval(t, _) => !At(d, t)
    case Unlink(t, _) => At(d, t) && d.tasks[t].Marked?
    case Unmark(t) => At(d, t) && d.tasks[t].NotRemoved?
    case Abandon(t) => At(d, t)
  }

  function Go(d: Daemon, t: Tid, pc: Pc): Daemon { d.(tasks := d.tasks[t := pc]) }

  function End(d: Daemon, t: Tid): Daemon { d.(tasks := d.tasks - {t}) }

  function Logged(d: Daemon, h: Happened): Daemon { d.(log := d.log + [h]) }

  /** The file at `path` is read and has the expected hash. */
  predicate IsEcho(d: Daemon, pc: Pc, readable: bool)
    requires pc.Present?
  {
    pc.path in d.files && readable && Hash(d.files[pc.path]) == pc.hash
  }

  function Next(d: Daemon, step: Step): Daemon
    requires Enabled(d, step)
  {
    match step
    case DiskChanges(p, content) =>
      d.(files := if content.Some? then d.files[p := content.value] else d.files - {p})
    case Event(t, p, removeKind) =>
      Go(d, t, Taken(p, removeKind, Lookup(d.lastWritten, p))).(lastWritten := d.lastWritten - {p})
    case LookForFile(t) =>
      var pc := d.tasks[t];
      if pc.expected.Some? && pc.path in d.files then Go(d, t, Present(pc.path, pc.removeKind, pc.expected.value))
      else Go(d, t, NoEcho(pc.path, pc.removeKind))
    case Compare(t, readable) =>
      var pc := d.tasks[t];
      if IsEcho(d, pc, readable) then Logged(End(d, t), ModifySuppressed(pc.path, d.files[pc.path]))
      else Go(d, t, NoEcho(pc.path, pc.removeKind))
    case LookAgain(t) =>
      var pc := d.tasks[t];
      if Gone(d, pc.path, pc.removeKind) then Go(d, t, Absent(pc.path)) else Go(d, t, ToSend(pc.path))
    case TakeRemoval(t) =>
      var pc := d.tasks[t];
      if pc.path in d.lastRemoved then
        Logged(End(d, t), RemoveSuppressed(pc.path)).(lastRemoved := d.lastRemoved - {pc.path})
      else End(d, t)
    case StartSend(t, p) => Go(d, t, ToSend(p))
    case ReadForSend(t) => Go(d, t, Read(d.tasks[t].path, d.files[d.tasks[t].path]))
    case GoesOut(t) =>
      var pc := d.tasks[t];
      Logged(Go(d, t, Broadcast(pc.path, pc.bytes)), SentOut(pc.path, pc.bytes))
    case MarkSent(t) =>
      var pc := d.tasks[t];
      Logged(End(d, t), HashMarked(pc.path)).(lastWritten := d.lastWritten[pc.path := Hash(pc.bytes)])
    case Receive(t, p, bytes) => Go(d, t, Receiving(p, bytes))
    case Persist(t) =>
      var pc := d.tasks[t];
      Logged(Go(d, t, InPlace(pc.path, pc.bytes)), PutInPlace(pc.path, pc.bytes)).(files := d.files[pc.path := pc.bytes])
    case MarkApplied(t) =>
      var pc := d.tasks[t];
      Logged(End(d, t), HashMarked(pc.path)).(lastWritten := d.lastWritten[pc.path := Hash(pc.bytes)])
    case MarkRemoval(t, p) =>
      Logged(Go(d, t, Marked(p)), RemovalMarked(p)).(lastRemoved := d.lastRemoved + {p})
    case Unlink(t, fails) =>
      var p := d.tasks[t].path;
      if fails || p !in d.files then Go(d, t, NotRemoved(p)) else End(d, t).(files := d.files - {p})
    case Unmark(t) => End(d, t).(lastRemoved := d.lastRemoved - {d.tasks[t].path})
    case Abandon(t) => End(d, t)
  }

  predicate Runs(d: Daemon, steps: seq<Step>)
    decreases |steps|
  {
    steps == [] || (Enabled(d, steps[0]) && Runs(Next(d, steps[0]), steps[1..]))
  }

  function After(d: Daemon, steps: seq<Step>): Daemon
    requires Runs(d, steps)
    decreases |steps|
  {
    if steps == [] then d else After(Next(d, steps[0]), steps[1..])
  }

  // ---------------------------------------------------------------- counting

  datatype Kind = HashMarks | RemovalMarks | ModifiesSuppressed | RemovesSuppressed

  predicate IsKind(h: Happened, kind: Kind, p: Rel) {
    && h.path == p
    && match kind
       case HashMarks => h.HashMarked?
       case RemovalMarks => h.RemovalMarked?
       case ModifiesSuppressed => h.ModifySuppressed?
       case RemovesSuppressed => h.RemoveSuppressed?
  }

  function Count(log: seq<Happened>, kind: Kind, p: Rel): nat {
    if log == [] then 0
    else Count(log[..|log| - 1], kind, p) + if IsKind(log[|log| - 1], kind, p) then 1 else 0
  }

  lemma CountOneMore(log: seq<Happened>, h: Happened, kind: Kind, p: Rel)
    ensures Count(log + [h], kind, p) == Count(log, kind, p) + if IsKind(h, kind, p) then 1 else 0
  {
    assert (log + [h])[..|log + [h]| - 1] == log;
  }

  /** Closures that hold a hash marker for `p` they have taken. */
  predicate HoldsMarker(pc: Pc, p: Rel) { pc.path == p && ((pc.Taken? && pc.expected.Some?) || pc.Present?) }

  function Holders(tasks: map<Tid, Pc>, p: Rel): set<Tid> {
    set t | t in tasks && HoldsMarker(tasks[t], p)
  }

  lemma HoldersAfterGo(tasks: map<Tid, Pc>, t: Tid, pc: Pc, p: Rel)
    ensures |Holders(tasks[t := pc], p)|
            == |Holders(tasks, p)| - (if t in tasks && HoldsMarker(tasks[t], p) then 1 else 0)
               + if HoldsMarker(pc, p) then 1 else 0
  {
    var before, after := Holders(tasks, p), Holders(tasks[t := pc], p);
    assert after == if HoldsMarker(pc, p) then before + {t} else before - {t};
  }

  lemma HoldersAfterEnd(tasks: map<Tid, Pc>, t: Tid, p: Rel)
    ensures |Holders(tasks - {t}, p)|
            == |Holders(tasks, p)| - if t in tasks && HoldsMarker(tasks[t], p) then 1 else 0
  {
    assert Holders(tasks - {t}, p) == Holders(tasks, p) - {t};
  }

  /** Every marker is somewhere once at most: set, taken, or used up. */
  predicate HashBalance(d: Daemon, p: Rel) {
    Count(d.log, ModifiesSuppressed, p) + |Holders(d.tasks, p)| + (if p in d.lastWritten then 1 else 0)
    <= Count(d.log, HashMarks, p)
  }

  predicate RemovalBalance(d: Daemon, p: Rel) {
    Count(d.log, RemovesSuppressed, p) + (if p in d.lastRemoved then 1 else 0) <= Count(d.log, RemovalMarks, p)
  }

  lemma OneLogged(d: Daemon, step: Step)
    requires Enabled(d, step)
    ensures d.log <= Next(d, step).log && |Next(d, step).log| <= |d.log| + 1
  {
  }

  predicate Logs(d: Daemon, step: Step, kind: Kind, p: Rel)
    requires Enabled(d, step)
  {
    var n := Next(d, step);
    |n.log| > |d.log| && IsKind(n.log[|d.log|], kind, p)
  }

  lemma LogBalance(d: Daemon, step: Step, kind: Kind, p: Rel)
    requires Enabled(d, step)
    ensures Count(Next(d, step).log, kind, p) == Count(d.log, kind, p) + if Logs(d, step, kind, p) then 1 else 0
  {
    var log := Next(d, step).log;
    OneLogged(d, step);
    if |log| > |d.log| {
      assert log == d.log + [log[|d.log|]];
      CountOneMore(d.log, log[|d.log|], kind, p);
    } else {
      assert log == d.log;
    }
  }

  /** The step of a closure that is done with the marker it may hold. */
  predicate LetsGo(d: Daemon, step: Step)
    requires Enabled(d, step)
  {
    || step.Compare? || step.Abandon?
    || (step.LookForFile? && d.tasks[step.t].path !in d.files)
  }

  /** Who holds a taken marker changes only when a closure takes it or is done with it. */
  lemma HolderBalance(d: Daemon, step: Step, p: Rel)
    requires Enabled(d, step)
    ensures |Holders(Next(d, step).tasks, p)|
            == |Holders(d.tasks, p)|
               + (if step.Event? && step.path == p && p in d.lastWritten then 1 else 0)
               - (if LetsGo(d, step) && HoldsMarker(d.tasks[step.t], p) then 1 else 0)
  {
    var n := Next(d, step);
    if !step.DiskChanges? {
      OneTaskMoves(d, step);
      OneHolderMoves(d, step, p);
      if step.t in n.tasks { HoldersAfterGo(d.tasks, step.t, n.tasks[step.t], p); } else { HoldersAfterEnd(d.tasks, step.t, p); }
    }
  }

  lemma OneTaskMoves(d: Daemon, step: Step)
    requires Enabled(d, step) && !step.DiskChanges?
    ensures var n := Next(d, step);
            n.tasks == if step.t in n.tasks then d.tasks[step.t := n.tasks[step.t]] else d.tasks - {step.t}
  {
  }

  predicate Holds(d: Daemon, t: Tid, p: Rel) { t in d.tasks && HoldsMarker(d.tasks[t], p) }

  lemma OneHolderMoves(d: Daemon, step: Step, p: Rel)
    requires Enabled(d, step) && !step.DiskChanges?
    ensures Holds(Next(d, step), step.t, p)
            <==> if step.Event? then step.path == p && p in d.lastWritten else Holds(d, step.t, p) && !LetsGo(d, step)
    ensures step.Event? ==> !Holds(d, step.t, p)
  {
  }

  lemma HashBalanceKept(d: Daemon, step: Step, p: Rel)
    requires Enabled(d, step) && HashBalance(d, p)
    ensures HashBalance(Next(d, step), p)
  {
    LogBalance(d, step, HashMarks, p);
    LogBalance(d, step, ModifiesSuppressed, p);
    HolderBalance(d, step, p);
  }

  /** What a step does to the removal markers of `p`, and logs about them. */
  lemma RemovalMoves(d: Daemon, step: Step, p: Rel)
    requires Enabled(d, step)
    ensures var n := Next(d, step);
            && (p in n.lastRemoved && p !in d.lastRemoved ==> Logs(d, step, RemovalMarks, p))
            && (Logs(d, step, RemovesSuppressed, p) ==> p in d.lastRemoved && p !in n.lastRemoved)
  {
    match step
    case MarkRemoval(_, q) => assert Next(d, step).log[|d.log|] == RemovalMarked(q);
    case TakeRemoval(_) =>
    case Unmark(_) =>
    case _ => assert Next(d, step).lastRemoved == d.lastRemoved;
  }

  lemma RemovalBalanceKept(d: Daemon, step: Step, p: Rel)
    requires Enabled(d, step) && RemovalBalance(d, p)
    ensures RemovalBalance(Next(d, step), p)
  {
    LogBalance(d, step, RemovalMarks, p);
    LogBalance(d, step, RemovesSuppressed, p);
    RemovalMoves(d, step, p);
  }

  // ---------------------------------------------------------------- where a hash comes from

  /** `bytes` went out from here, or came in and was put in place, for `p`. */
  ghost predicate Known(log: seq<Happened>, p: Rel, bytes: Bytes) {
    exists k :: 0 <= k < |log| && (log[k] == SentOut(p, bytes) || log[k] == PutInPlace(p, bytes))
  }

  ghost predicate TaskKnown(log: seq<Happened>, pc: Pc) {
    match pc
    case Taken(p, _, expected) => expected.Some? ==> Known(log, p, expected.value.preimage)
    case Present(p, _, hash) => Known(log, p, hash.preimage)
    case Broadcast(p, bytes) => Known(log, p, bytes)
    case InPlace(p, bytes) => Known(log, p, bytes)
    case _ => true
  }

  ghost predicate AllKnown(d: Daemon) {
    && (forall p :: p in d.lastWritten ==> Known(d.log, p, d.lastWritten[p].preimage))
    && (forall t :: t in d.tasks ==> TaskKnown(d.log, d.tasks[t]))
    && SuppressedKnown(d.log)
  }

  ghost predicate SuppressedKnown(log: seq<Happened>) {
    forall k :: 0 <= k < |log| && log[k].ModifySuppressed? ==> Known(log[..k], log[k].path, log[k].bytes)
  }

  lemma KnownLater(log: seq<Happened>, more: seq<Happened>, p: Rel, bytes: Bytes)
    requires log <= more && Known(log, p, bytes)
    ensures Known(more, p, bytes)
  {
    var k :| 0 <= k < |log| && (log[k] == SentOut(p, bytes) || log[k] == PutInPlace(p, bytes));
    assert more[k] == log[k];
  }

  lemma SuppressedOneMore(log: seq<Happened>, h: Happened)
    requires SuppressedKnown(log) && (h.ModifySuppressed? ==> Known(log, h.path, h.bytes))
    ensures SuppressedKnown(log + [h])
  {
    var more := log + [h];
    forall k | 0 <= k < |more| && more[k].ModifySuppressed? ensures Known(more[..k], more[k].path, more[k].bytes) {
      if k < |log| { assert more[..k] == log[..k]; } else { assert more[..k] == log; }
    }
  }

  lemma TaskKnownLater(log: seq<Happened>, more: seq<Happened>, pc: Pc)
    requires log <= more && TaskKnown(log, pc)
    ensures TaskKnown(more, pc)
  {
    match pc
    case Taken(p, _, expected) => if expected.Some? { KnownLater(log, more, p, expected.value.preimage); }
    case Present(p, _, hash) => KnownLater(log, more, p, hash.preimage);
    case Broadcast(p, bytes) => KnownLater(log, more, p, bytes);
    case InPlace(p, bytes) => KnownLater(log, more, p, bytes);
    case _ =>
  }

  /** A step logs at most one thing, and what a suppression found was known. */
  lemma StepLogs(d: Daemon, step: Step)
    requires Enabled(d, step) && AllKnown(d)
    ensures d.log <= Next(d, step).log && SuppressedKnown(Next(d, step).log)
  {
    var n := Next(d, step);
    if |n.log| > |d.log| {
      var h := n.log[|d.log|];
      assert n.log == d.log + [h];
      if step.Compare? { assert TaskKnown(d.log, d.tasks[step.t]); }
      SuppressedOneMore(d.log, h);
    } else {
      assert n.log == d.log;
    }
  }

  lemma TaskStaysKnown(d: Daemon, step: Step, t: Tid)
    requires Enabled(d, step) && AllKnown(d) && t in Next(d, step).tasks
    ensures TaskKnown(Next(d, step).log, Next(d, step).tasks[t])
  {
    var n := Next(d, step);
    StepLogs(d, step);
    if t in d.tasks && n.tasks[t] == d.tasks[t] {
      TaskKnownLater(d.log, n.log, d.tasks[t]);
    } else if step.GoesOut? || step.Persist? {
      assert n.log[|d.log|] in {SentOut(n.tasks[t].path, n.tasks[t].bytes), PutInPlace(n.tasks[t].path, n.tasks[t].bytes)};
    }
  }

  lemma MarkerStaysKnown(d: Daemon, step: Step, p: Rel)
    requires Enabled(d, step) && AllKnown(d) && p in Next(d, step).lastWritten
    ensures Known(Next(d, step).log, p, Next(d, step).lastWritten[p].preimage)
  {
    var n := Next(d, step);
    StepLogs(d, step);
    if (step.MarkSent? || step.MarkApplied?) && d.tasks[step.t].path == p {
      assert TaskKnown(d.log, d.tasks[step.t]);
      KnownLater(d.log, n.log, p, d.tasks[step.t].bytes);
    } else {
      KnownLater(d.log, n.log, p, d.lastWritten[p].preimage);
    }
  }

  lemma AllKnownKept(d: Daemon, step: Step)
    requires Enabled(d, step) && AllKnown(d)
    ensures AllKnown(Next(d, step))
  {
    var n := Next(d, step);
    StepLogs(d, step);
    forall p | p in n.lastWritten ensures Known(n.log, p, n.lastWritten[p].preimage) { MarkerStaysKnown(d, step, p); }
    forall t | t in n.tasks ensures TaskKnown(n.log, n.tasks[t]) { TaskStaysKnown(d, step, t); }
  }

  lemma {:induction false} KeptAlong(d: Daemon, steps: seq<Step>, p: Rel)
    requires Runs(d, steps) && HashBalance(d, p) && RemovalBalance(d, p) && AllKnown(d)
    ensures HashBalance(After(d, steps), p) && RemovalBalance(After(d, steps), p) && AllKnown(After(d, steps))
    decreases |steps|
  {
    if steps != [] {
      HashBalanceKept(d, steps[0], p);
      RemovalBalanceKept(d, steps[0], p);
      AllKnownKept(d, steps[0]);
      KeptAlong(Next(d, steps[0]), steps[1..], p);
    }
  }

  /** Main result: in every interleaving, a marker silences one event at most. The
      events silenced for a path by a hash never outnumber the markers set for it, those
      silenced as removals never outnumber the Tombstones handled for it, and an event is
      silenced by a hash only when the file holds what was sent or put in place for that
      path before. */
  lemma MarkersConserved(steps: seq<Step>, p: Rel)
    requires Runs(STARTED, steps)
    ensures var log := After(STARTED, steps).log;
            && Count(log, ModifiesSuppressed, p) <= Count(log, HashMarks, p)
            && Count(log, RemovesSuppressed, p) <= Count(log, RemovalMarks, p)
            && forall k :: 0 <= k < |log| && log[k].ModifySuppressed? ==> Known(log[..k], log[k].path, log[k].bytes)
  {
    assert Holders(map[], p) == {};
    KeptAlong(STARTED, steps, p);
  }

  // ---------------------------------------------------------------- what is silenced for certain

  /** A step of another task than `t`, on another path than `p`. */
  predicate Elsewhere(d: Daemon, step: Step, t: Tid, p: Rel)
    requires Enabled(d, step)
  {
    match step
    case DiskChanges(q, _) => q != p
    case Event(u, q, _) => u != t && q != p
    case StartSend(u, q) => u != t && q != p
    case Receive(u, q, _) => u != t && q != p
    case MarkRemoval(u, q) => u != t && q != p
    case _ => step.t != t && d.tasks[step.t].path != p
  }

  predicate RunsElsewhere(d: Daemon, steps: seq<Step>, t: Tid, p: Rel)
    decreases |steps|
  {
    steps == [] || (Enabled(d, steps[0]) && Elsewhere(d, steps[0], t, p) && RunsElsewhere(Next(d, steps[0]), steps[1..], t, p))
  }

  /** Such steps leave the file, its markers and the task alone. */
  lemma {:induction false} LeftAlone(d: Daemon, steps: seq<Step>, t: Tid, p: Rel)
    requires RunsElsewhere(d, steps, t, p)
    ensures Runs(d, steps)
    ensures var n := After(d, steps);
            && Lookup(n.files, p) == Lookup(d.files, p) && Lookup(n.lastWritten, p) == Lookup(d.lastWritten, p)
            && (p in n.lastRemoved <==> p in d.lastRemoved) && Lookup(n.tasks, t) == Lookup(d.tasks, t)
    decreases |steps|
  {
    if steps != [] {
      OneLeftAlone(d, steps[0], t, p);
      LeftAlone(Next(d, steps[0]), steps[1..], t, p);
    }
  }

  lemma OneLeftAlone(d: Daemon, step: Step, t: Tid, p: Rel)
    requires Enabled(d, step) && Elsewhere(d, step, t, p)
    ensures var n := Next(d, step);
            && Lookup(n.files, p) == Lookup(d.files, p) && Lookup(n.lastWritten, p) == Lookup(d.lastWritten, p)
            && (p in n.lastRemoved <==> p in d.lastRemoved) && Lookup(n.tasks, t) == Lookup(d.tasks, t)
  {
  }

  /** The run `steps`, and then `step`. */
  function Then(d: Daemon, steps: seq<Step>, step: Step): Option<Daemon> {
    if Runs(d, steps) && Enabled(After(d, steps), step) then Some(Next(After(d, steps), step)) else None
  }

  /** The file holds `bytes`, and there is a marker for that. */
  predicate EchoDue(d: Daemon, p: Rel, bytes: Bytes) {
    Lookup(d.files, p) == Some(bytes) && Lookup(d.lastWritten, p) == Some(Hash(bytes))
  }

  /** The file a peer removed is gone, and the removal marker is there. */
  predicate RemovalDue(d: Daemon, p: Rel) { p !in d.files && p in d.lastRemoved }

  /** A reception goes on to put its file in place and to mark it, whatever goes on at
      other paths. */
  lemma ReceptionGetsThere(d: Daemon, t: Tid, p: Rel, bytes: Bytes, placing: seq<Step>, marking: seq<Step>)
    requires Lookup(d.tasks, t) == Some(Receiving(p, bytes))
    ensures RunsElsewhere(d, placing, t, p) ==>
              && Then(d, placing, Persist(t)).Some?
              && var d1 := Then(d, placing, Persist(t)).value;
                 && Lookup(d1.files, p) == Some(bytes)
                 && (RunsElsewhere(d1, marking, t, p) ==>
                       && Then(d1, marking, MarkApplied(t)).Some?
                       && EchoDue(Then(d1, marking, MarkApplied(t)).value, p, bytes))
  {
    if RunsElsewhere(d, placing, t, p) {
      LeftAlone(d, placing, t, p);
      var d1 := Then(d, placing, Persist(t)).value;
      if RunsElsewhere(d1, marking, t, p) { LeftAlone(d1, marking, t, p); }
    }
  }

  /** A Tombstone goes on to remove the file, with its marker left behind, or, if nothing
      is unlinked, to take the marker back. */
  lemma TombstoneGetsThere(d: Daemon, t: Tid, p: Rel, fails: bool, removing: seq<Step>, unmarking: seq<Step>)
    requires t !in d.tasks
    ensures var d0 := Next(d, MarkRemoval(t, p));
            RunsElsewhere(d0, removing, t, p) ==>
              && Then(d0, removing, Unlink(t, fails)).Some?
              && var d1 := Then(d0, removing, Unlink(t, fails)).value;
                 if p in d.files && !fails then RemovalDue(d1, p)
                 else
                   RunsElsewhere(d1, unmarking, t, p) ==>
                     && Then(d1, unmarking, Unmark(t)).Some?
                     && var d2 := Then(d1, unmarking, Unmark(t)).value;
                        p !in d2.lastRemoved && Lookup(d2.files, p) == Lookup(d.files, p)
  {
    var d0 := Next(d, MarkRemoval(t, p));
    if RunsElsewhere(d0, removing, t, p) {
      LeftAlone(d0, removing, t, p);
      var d1 := Then(d0, removing, Unlink(t, fails)).value;
      if RunsElsewhere(d1, unmarking, t, p) { LeftAlone(d1, unmarking, t, p); }
    }
  }

  /** A sending goes on to send what the file holds when it is read, and to mark it. */
  lemma SendingGetsThere(d: Daemon, t: Tid, p: Rel, bytes: Bytes, reading: seq<Step>, sending: seq<Step>, marking: seq<Step>)
    requires Lookup(d.tasks, t) == Some(ToSend(p)) && Lookup(d.files, p) == Some(bytes)
    ensures RunsElsewhere(d, reading, t, p) ==>
              && Then(d, reading, ReadForSend(t)).Some?
              && var d1 := Then(d, reading, ReadForSend(t)).value;
                 RunsElsewhere(d1, sending, t, p) ==>
                   && Then(d1, sending, GoesOut(t)).Some?
                   && var d2 := Then(d1, sending, GoesOut(t)).value;
                      && d2.log == After(d1, sending).log + [SentOut(p, bytes)]
                      && (RunsElsewhere(d2, marking, t, p) ==>
                            && Then(d2, marking, MarkSent(t)).Some?
                            && EchoDue(Then(d2, marking, MarkSent(t)).value, p, bytes))
  {
    if RunsElsewhere(d, reading, t, p) {
      LeftAlone(d, reading, t, p);
      var d1 := Then(d, reading, ReadForSend(t)).value;
      if RunsElsewhere(d1, sending, t, p) {
        LeftAlone(d1, sending, t, p);
        var d2 := Then(d1, sending, GoesOut(t)).value;
        if RunsElsewhere(d2, marking, t, p) { LeftAlone(d2, marking, t, p); }
      }
    }
  }

  /** Then the first closure called for the path, undisturbed on it, takes the event for
      the echo it is, whatever goes on at other paths between its steps; it sends nothing. */
  lemma EchoSilenced(d: Daemon, u: Tid, p: Rel, bytes: Bytes, removeKind: bool,
                     before: seq<Step>, finding: seq<Step>, reading: seq<Step>)
    requires EchoDue(d, p, bytes) && u !in d.tasks
    ensures RunsElsewhere(d, before, u, p) ==>
              && Then(d, before, Event(u, p, removeKind)).Some?
              && var d1 := Then(d, before, Event(u, p, removeKind)).value;
                 RunsElsewhere(d1, finding, u, p) ==>
                   && Then(d1, finding, LookForFile(u)).Some?
                   && var d2 := Then(d1, finding, LookForFile(u)).value;
                      RunsElsewhere(d2, reading, u, p) ==>
                        && Then(d2, reading, Compare(u, true)).Some?
                        && var n := Then(d2, reading, Compare(u, true)).value;
                           n.log == After(d2, reading).log + [ModifySuppressed(p, bytes)] && u !in n.tasks
  {
    if RunsElsewhere(d, before, u, p) {
      LeftAlone(d, before, u, p);
      var d1 := Then(d, before, Event(u, p, removeKind)).value;
      if RunsElsewhere(d1, finding, u, p) {
        LeftAlone(d1, finding, u, p);
        var d2 := Then(d1, finding, LookForFile(u)).value;
        if RunsElsewhere(d2, reading, u, p) { LeftAlone(d2, reading, u, p); }
      }
    }
  }

  /** The same for a removal. */
  lemma RemovalSilenced(d: Daemon, u: Tid, p: Rel, removeKind: bool,
                        before: seq<Step>, finding: seq<Step>, again: seq<Step>, taking: seq<Step>)
    requires RemovalDue(d, p) && u !in d.tasks
    ensures RunsElsewhere(d, before, u, p) ==>
              && Then(d, before, Event(u, p, removeKind)).Some?
              && var d1 := Then(d, before, Event(u, p, removeKind)).value;
                 RunsElsewhere(d1, finding, u, p) ==>
                   && Then(d1, finding, LookForFile(u)).Some?
                   && var d2 := Then(d1, finding, LookForFile(u)).value;
                      RunsElsewhere(d2, again, u, p) ==>
                        && Then(d2, again, LookAgain(u)).Some?
                        && TakesRemoval(Then(d2, again, LookAgain(u)).value, u, p, taking)
  {
    if RunsElsewhere(d, before, u, p) {
      LeftAlone(d, before, u, p);
      var d1 := Then(d, before, Event(u, p, removeKind)).value;
      if RunsElsewhere(d1, finding, u, p) {
        LeftAlone(d1, finding, u, p);
        var d2 := Then(d1, finding, LookForFile(u)).value;
        if RunsElsewhere(d2, again, u, p) {
          LeftAlone(d2, again, u, p);
          RemovalTaken(Then(d2, again, LookAgain(u)).value, u, p, taking);
        }
      }
    }
  }

  /** The last step of the closure ends it with the event silenced. */
  predicate TakesRemoval(d: Daemon, u: Tid, p: Rel, taking: seq<Step>) {
    RunsElsewhere(d, taking, u, p) ==>
      && Then(d, taking, TakeRemoval(u)).Some?
      && var n := Then(d, taking, TakeRemoval(u)).value;
         n.log == After(d, taking).log + [RemoveSuppressed(p)] && u !in n.tasks && p !in n.lastRemoved
  }

  lemma RemovalTaken(d: Daemon, u: Tid, p: Rel, taking: seq<Step>)
    requires Lookup(d.tasks, u) == Some(Absent(p)) && p in d.lastRemoved
    ensures TakesRemoval(d, u, p, taking)
  {
    if RunsElsewhere(d, taking, u, p) { LeftAlone(d, taking, u, p); }
  }
}
