/** The peer allowlist: in memory, on disk, and what any number of threads, failed
    writes and crashes do to it. */
module AllowLists {
  import opened Prelude
  import opened AllowListFiles

  datatype Op = Add(id: PeerId, info: PeerInfo) | Remove(id: PeerId) | Save

  function Apply(c: Config, op: Op): Config {
    match op
    case Add(id, info) => Config(false, c.peers[id := info])
    case Remove(id) => c.(peers := c.peers - {id})
    case Save => c
  }

  /** The operations one after the other. */
  function Fold(c: Config, ops: seq<Op>): Config {
    if ops == [] then c else Apply(Fold(c, ops[..|ops| - 1]), ops[|ops| - 1])
  }

  /** What a start without `--allow-open-all` makes of the file. */
  function Load(disk: Option<Config>): Config {
    if disk.Some? then disk.value else STRICT_EMPTY
  }

  /** The entry an operation may have to put back. */
  function Previous(c: Config, op: Op): Option<PeerInfo> {
    if op.Save? then None else Lookup(c.peers, op.id)
  }

  /** Undoing `op` from the remembered flag and entry. */
  function Restore(c: Config, op: Op, prevOpen: bool, prevInfo: Option<PeerInfo>): Config {
    match op
    case Add(id, _) => Config(prevOpen, if prevInfo.Some? then c.peers[id := prevInfo.value] else c.peers - {id})
    case Remove(id) => if prevInfo.Some? then c.(peers := c.peers[id := prevInfo.value]) else c
    case Save => c
  }

  /** A rollback gives back exactly the state before the operation. */
  lemma RestoreUndoes(c: Config, op: Op)
    ensures Restore(Apply(c, op), op, c.openAll, Previous(c, op)) == c
  {
    if !op.Save? {
      assert (c.peers[op.id := PeerInfo(None, 0, None)]).Keys == c.peers.Keys + {op.id};
      var back := Restore(Apply(c, op), op, c.openAll, Previous(c, op)).peers;
      assert back == c.peers;
    }
  }

  // ---------------------------------------------------------------- one thread

  class AllowList {
    const codec: Codec
    var openAll: bool
    var peers: map<PeerId, PeerInfo>
    // the data directory with the file allowlist.json
    var dir: Directory

    function State(): Config
      reads this
    {
      Config(openAll, peers)
    }

    /** The list in memory is what the file holds. */
    predicate InStep()
      reads this
    {
      Lookup(dir, LIST_NAME) == Some(StoredFile(Encoded(codec, State()), OWNER_ONLY))
    }

    constructor (codec: Codec, list: Config, dir: Directory)
      ensures State() == list && this.dir == dir && this.codec == codec
    {
      this.codec := codec;
      openAll, peers := list.openAll, list.peers;
      this.dir := dir;
    }

    /** A start without `--allow-open-all`. It fails for a file it cannot read or make
        sense of; it does not fall back to a list that lets more peers in, nor fewer. */
    static method LoadOrStrictEmpty(codec: Codec, dir: Directory, readable: bool) returns (r: Result<AllowList, LoadError>)
      ensures LIST_NAME !in dir ==> r.Ok? && !r.value.openAll && r.value.peers == map[]
      ensures LIST_NAME in dir && !readable ==> r == Err(Unreadable)
      ensures LIST_NAME in dir && r.Ok? ==>
                var d := codec.fromJson(dir[LIST_NAME].bytes);
                d.Some? && d.value.version == 2 && AllParse(codec, d.value.peers) && r.value.openAll == d.value.openAll
      ensures LIST_NAME in dir && readable ==>
                ReadAs(codec, dir[LIST_NAME].bytes, if r.Ok? then Ok(r.value.State()) else Err(r.error))
      ensures r.Ok? ==> fresh(r.value) && r.value.dir == dir && r.value.codec == codec
    {
      if LIST_NAME !in dir {
        var empty := new AllowList(codec, STRICT_EMPTY, dir);
        return Ok(empty);
      }
      if !readable { return Err(Unreadable); }
      var list := FromJsonBytes(codec, dir[LIST_NAME].bytes);
      if list.Err? { return Err(list.error); }
      var loaded := new AllowList(codec, list.value, dir);
      return Ok(loaded);
    }

    method Write(bytes: Bytes, io: WriteIo) returns (ok: bool)
      modifies this`dir
      ensures ok <==> && io.dirMade && io.tempMade && TempName(io.random) !in old(dir)
                      && io.written && io.modeSet && io.persisted
      ensures Lookup(dir, LIST_NAME) == if ok then Some(StoredFile(bytes, OWNER_ONLY)) else Lookup(old(dir), LIST_NAME)
      ensures OthersKept(old(dir), dir, io.random)
    {
      var states;
      ok, dir, states := WriteAtomic(dir, bytes, io);
    }

    method PutBack(id: PeerId, prevInfo: Option<PeerInfo>)
      modifies this`peers
      ensures peers == if prevInfo.Some? then old(peers)[id := prevInfo.value] else old(peers) - {id}
    {
      match prevInfo
      case Some(info) => peers := peers[id := info];
      case None => peers := peers - {id};
    }

    method Save(serializable: bool, io: WriteIo) returns (ok: bool)
      modifies this`dir
      ensures ok <==> && serializable && io.dirMade && io.tempMade && TempName(io.random) !in old(dir)
                      && io.written && io.modeSet && io.persisted
      ensures if ok then InStep() else Lookup(dir, LIST_NAME) == Lookup(old(dir), LIST_NAME)
    {
      if !serializable { return false; }
      ok := Write(Encoded(codec, State()), io);
    }

    /** All or nothing, in memory and on disk alike. */
    method AddAndSave(id: PeerId, info: PeerInfo, serializable: bool, io: WriteIo) returns (ok: bool)
      modifies this
      ensures ok <==> && serializable && io.dirMade && io.tempMade && TempName(io.random) !in old(dir)
                      && io.written && io.modeSet && io.persisted
      ensures ok ==> !openAll && peers == old(peers)[id := info]
      ensures ok ==> forall peer: PeerId :: Allows(State(), peer) <==> peer == id || peer in old(peers)
      ensures !ok ==> State() == old(State())
      ensures if ok then InStep() else Lookup(dir, LIST_NAME) == Lookup(old(dir), LIST_NAME)
    {
      ghost var before := State();
      var prevOpen, prevInfo := openAll, Lookup(peers, id);
      peers := peers[id := info];
      openAll := false;
      RestoreUndoes(before, Add(id, info));
      if !serializable {
        openAll := prevOpen;
        PutBack(id, prevInfo);
        return false;
      }
      ok := Write(Encoded(codec, State()), io);
      if !ok {
        openAll := prevOpen;
        PutBack(id, prevInfo);
      }
    }

    /** The same for a removal, which leaves everybody else and the open mode as they were. */
    method RemoveAndSave(id: PeerId, serializable: bool, io: WriteIo) returns (ok: bool, removed: Option<PeerInfo>)
      modifies this
      ensures ok <==> && serializable && io.dirMade && io.tempMade && TempName(io.random) !in old(dir)
                      && io.written && io.modeSet && io.persisted
      ensures ok ==> openAll == old(openAll) && peers == old(peers) - {id}
      ensures ok ==> forall peer: PeerId :: Allows(State(), peer) <==> openAll || (peer != id && peer in old(peers))
      ensures !ok ==> State() == old(State())
      ensures if ok then InStep() else Lookup(dir, LIST_NAME) == Lookup(old(dir), LIST_NAME)
      ensures removed == if ok then Lookup(old(peers), id) else None
    {
      ghost var before := State();
      var prevInfo := Lookup(peers, id);
      peers := peers - {id};
      RestoreUndoes(before, Remove(id));
      if !serializable {
        if prevInfo.Some? { PutBack(id, prevInfo); }
        return false, None;
      }
      ok := Write(Encoded(codec, State()), io);
      if !ok && prevInfo.Some? { PutBack(id, prevInfo); }
      removed := if ok then prevInfo else None;
    }
  }

  // ---------------------------------------------------------------- any number of threads

  type Tid = nat

  /** Where a thread is in one operation. Between any two of these points other
      threads may run. */
  datatype Pc =
    | Waiting(op: Op)
    | Locked(op: Op)
    | Mutated(op: Op, snapshot: Config, prevOpen: bool, prevInfo: Option<PeerInfo>)
    | WriteFailed(op: Op, prevOpen: bool, prevInfo: Option<PeerInfo>)
    | Committed(op: Op, prevInfo: Option<PeerInfo>, at: nat)
    | Failed(op: Op)

  predicate InLock(pc: Pc) { !pc.Waiting? }

  /** A finished operation; `at`: its place among the committed ones. */
  datatype Return = Return(t: Tid, op: Op, at: Option<nat>, prevInfo: Option<PeerInfo>)

  datatype Machine = Machine(
    mem: Config,
    disk: Option<Config>,
    holder: Option<Tid>,
    threads: map<Tid, Pc>,
    // history of the present process: contents at its start, whether it was started
    // with --allow-open-all, operations committed and operations finished
    base: Config,
    flagged: bool,
    log: seq<Op>,
    returns_: seq<Return>)

  datatype Step =
    | Call(t: Tid, op: Op)
    | Acquire(t: Tid)
    | Mutate(t: Tid, serializable: bool)
    | Write(t: Tid, writable: bool)
    | Rollback(t: Tid)
    | Release(t: Tid)
    | CrashAndStart(allowOpenAll: bool)

  function Start(disk: Option<Config>, allowOpenAll: bool): Machine {
    var base := if allowOpenAll then OPEN_ALL else Load(disk);
    Machine(base, disk, None, map[], base, allowOpenAll, [], [])
  }

  predicate Enabled(m: Machine, step: Step) {
    match step
    case Call(t, _) => t !in m.threads
    case Acquire(t) => t in m.threads && m.threads[t].Waiting? && m.holder == None
    case Mutate(t, _) => t in m.threads && m.threads[t].Locked?
    case Write(t, _) => t in m.threads && m.threads[t].Mutated?
    case Rollback(t) => t in m.threads && m.threads[t].WriteFailed?
    case Release(t) => t in m.threads && (m.threads[t].Committed? || m.threads[t].Failed?)
    case CrashAndStart(_) => true
  }

  function At(m: Machine, t: Tid, pc: Pc): Machine { m.(threads := m.threads[t := pc]) }

  function Next(m: Machine, step: Step): Machine
    requires Enabled(m, step)
  {
    match step
    case Call(t, op) => At(m, t, Waiting(op))
    case Acquire(t) => At(m, t, Locked(m.threads[t].op)).(holder := Some(t))
    case Mutate(t, serializable) =>
      var op := m.threads[t].op;
      if serializable then
        At(m, t, Mutated(op, Apply(m.mem, op), m.mem.openAll, Previous(m.mem, op))).(mem := Apply(m.mem, op))
      else
        At(m, t, Failed(op)).(mem := Restore(Apply(m.mem, op), op, m.mem.openAll, Previous(m.mem, op)))
    case Write(t, writable) =>
      var pc := m.threads[t];
      if writable then
        At(m, t, Committed(pc.op, pc.prevInfo, |m.log|)).(disk := Some(pc.snapshot), log := m.log + [pc.op])
      else
        At(m, t, WriteFailed(pc.op, pc.prevOpen, pc.prevInfo))
    case Rollback(t) =>
      var pc := m.threads[t];
      At(m, t, Failed(pc.op)).(mem := Restore(m.mem, pc.op, pc.prevOpen, pc.prevInfo))
    case Release(t) =>
      var pc := m.threads[t];
      m.(threads := m.threads - {t}, holder := None,
         returns_ := m.returns_ + [if pc.Committed? then Return(t, pc.op, Some(pc.at), pc.prevInfo)
                                   else Return(t, pc.op, None, None)])
    case CrashAndStart(allowOpenAll) => Start(m.disk, allowOpenAll)
  }

  predicate Runs(m: Machine, steps: seq<Step>)
    decreases |steps|
  {
    steps == [] || (Enabled(m, steps[0]) && Runs(Next(m, steps[0]), steps[1..]))
  }

  function After(m: Machine, steps: seq<Step>): Machine
    requires Runs(m, steps)
    decreases |steps|
  {
    if steps == [] then m else After(Next(m, steps[0]), steps[1..])
  }

  /** What has been committed so far. */
  function Contents(m: Machine): Config { Fold(m.base, m.log) }

  /** The file is in step with this process: it was loaded, or has been written since. */
  predicate Synced(m: Machine) { !m.flagged || m.log != [] }

  ghost predicate Inv(m: Machine) {
    && (forall t :: t in m.threads && InLock(m.threads[t]) ==> m.holder == Some(t))
    && (m.holder.Some? ==> m.holder.value in m.threads && InLock(m.threads[m.holder.value]))
    && (match if m.holder.Some? then Some(m.threads[m.holder.value]) else None
        case None => m.mem == Contents(m)
        case Some(pc) => InLockInv(m, pc))
    && (Synced(m) ==> Load(m.disk) == Contents(m))
    && (forall k :: 0 <= k < |m.returns_| && m.returns_[k].at.Some? ==>
          RightlyReturned(m, m.returns_[k].op, m.returns_[k].at.value, m.returns_[k].prevInfo))
  }

  ghost predicate InLockInv(m: Machine, pc: Pc) {
    var c := Contents(m);
    match pc
    case Waiting(_) => false
    case Locked(_) => m.mem == c
    case Mutated(op, snapshot, prevOpen, prevInfo) =>
      m.mem == snapshot == Apply(c, op) && prevOpen == c.openAll && prevInfo == Previous(c, op)
    case WriteFailed(op, prevOpen, prevInfo) =>
      m.mem == Apply(c, op) && prevOpen == c.openAll && prevInfo == Previous(c, op)
    case Committed(op, prevInfo, at) => m.mem == c && RightlyReturned(m, op, at, prevInfo)
    case Failed(_) => m.mem == c
  }

  /** What an operation reports is what a sequential run of the committed operations,
      in the order of the lock, would have reported at its place. */
  ghost predicate RightlyReturned(m: Machine, op: Op, at: nat, prevInfo: Option<PeerInfo>) {
    at < |m.log| && m.log[at] == op && prevInfo == Previous(Fold(m.base, m.log[..at]), op)
  }

  lemma FoldOneMore(c: Config, ops: seq<Op>, op: Op)
    ensures Fold(c, ops + [op]) == Apply(Fold(c, ops), op)
  {
    assert (ops + [op])[..|ops + [op]| - 1] == ops;
  }

  lemma ReturnsKept(m: Machine, n: Machine)
    requires n.base == m.base && m.log <= n.log
    ensures forall op, at: nat, info :: RightlyReturned(m, op, at, info) ==> RightlyReturned(n, op, at, info)
  {
    forall op, at: nat, info | RightlyReturned(m, op, at, info) ensures RightlyReturned(n, op, at, info) {
      assert n.log[..at] == m.log[..at];
    }
  }

  /** Only the lock holder's place matters to the contents, so a step of another thread
      up to the lock changes nothing. */
  lemma LockingKept(m: Machine, step: Step)
    requires Inv(m) && Enabled(m, step) && (step.Call? || step.Acquire?)
    ensures Inv(Next(m, step))
  {
  }

  lemma MutateKept(m: Machine, step: Step)
    requires Inv(m) && Enabled(m, step) && step.Mutate?
    ensures Inv(Next(m, step))
  {
    RestoreUndoes(m.mem, m.threads[step.t].op);
  }

  lemma WriteFailsKept(m: Machine, step: Step)
    requires Inv(m) && Enabled(m, step) && step.Write? && !step.writable
    ensures Inv(Next(m, step))
  {
  }

  /** The one step that commits: the file holds what memory holds, one operation more. */
  lemma Commits(m: Machine, step: Step)
    requires Inv(m) && Enabled(m, step) && step.Write? && step.writable
    ensures var n, pc := Next(m, step), m.threads[step.t];
            && Contents(n) == Apply(Contents(m), pc.op) == m.mem
            && n.disk == Some(n.mem) && n.mem == m.mem
            && RightlyReturned(n, pc.op, |m.log|, pc.prevInfo)
  {
    FoldOneMore(m.base, m.log, m.threads[step.t].op);
    assert (m.log + [m.threads[step.t].op])[..|m.log|] == m.log;
  }

  lemma CommitKept(m: Machine, step: Step)
    requires Inv(m) && Enabled(m, step) && step.Write? && step.writable
    ensures Inv(Next(m, step))
  {
    Commits(m, step);
    ReturnsKept(m, Next(m, step));
  }

  lemma WriteKept(m: Machine, step: Step)
    requires Inv(m) && Enabled(m, step) && step.Write?
    ensures Inv(Next(m, step))
  {
    if step.writable { CommitKept(m, step); } else { WriteFailsKept(m, step); }
  }

  lemma EndingKept(m: Machine, step: Step)
    requires Inv(m) && Enabled(m, step) && (step.Rollback? || step.Release?)
    ensures Inv(Next(m, step))
  {
    if step.Rollback? { RestoreUndoes(Contents(m), m.threads[step.t].op); }
  }

  lemma InvKept(m: Machine, step: Step)
    requires Inv(m) && Enabled(m, step)
    ensures Inv(Next(m, step))
  {
    match step
    case Call(_, _) => LockingKept(m, step);
    case Acquire(_) => LockingKept(m, step);
    case Mutate(_, _) => MutateKept(m, step);
    case Write(_, _) => WriteKept(m, step);
    case CrashAndStart(_) =>
    case _ => EndingKept(m, step);
  }

  lemma {:induction false} InvAlong(m: Machine, steps: seq<Step>)
    requires Inv(m) && Runs(m, steps)
    ensures Inv(After(m, steps))
    decreases |steps|
  {
    if steps != [] {
      InvKept(m, steps[0]);
      InvAlong(Next(m, steps[0]), steps[1..]);
    }
  }

  /** Main result: for any number of threads, in every run with any failures and
      crashes, whenever the lock is free memory is the sequential fold of the committed
      operations in lock order, and so is the file once it is in step; every finished
      operation reported what it would have reported in that sequential order. */
  lemma Linearizable(disk: Option<Config>, allowOpenAll: bool, steps: seq<Step>)
    requires Runs(Start(disk, allowOpenAll), steps)
    ensures var m := After(Start(disk, allowOpenAll), steps);
            && (m.holder == None ==> m.mem == Contents(m) && (Synced(m) ==> Load(m.disk) == m.mem))
            && (forall k :: 0 <= k < |m.returns_| && m.returns_[k].at.Some? ==>
                  RightlyReturned(m, m.returns_[k].op, m.returns_[k].at.value, m.returns_[k].prevInfo))
  {
    InvAlong(Start(disk, allowOpenAll), steps);
  }

  /** A crash at any point, also in the middle of an operation, loses nothing that was
      committed and keeps nothing that was not. */
  lemma CrashSafe(disk: Option<Config>, allowOpenAll: bool, steps: seq<Step>)
    requires Runs(Start(disk, allowOpenAll), steps)
    ensures var m := After(Start(disk, allowOpenAll), steps);
            Synced(m) ==> Next(m, CrashAndStart(false)).mem == Contents(m)
  {
    InvAlong(Start(disk, allowOpenAll), steps);
  }

  // ---------------------------------------------------------------- who is in the list

  predicate Adds(op: Op, id: PeerId) { op.Add? && op.id == id }

  predicate Removes(op: Op, id: PeerId) { op.Remove? && op.id == id }

  predicate Names(op: Op, id: PeerId) { Adds(op, id) || Removes(op, id) }

  predicate NeverNamed(ops: seq<Op>, id: PeerId) { forall j :: 0 <= j < |ops| ==> !Names(ops[j], id) }

  /** `ops[k]` is the last one that names the peer. */
  predicate LastNaming(ops: seq<Op>, id: PeerId, k: nat) {
    k < |ops| && Names(ops[k], id) && forall j :: k < j < |ops| ==> !Names(ops[j], id)
  }

  /** The last operation that names a peer decides: it has the entry of an add, and none
      after a removal. */
  lemma {:induction false} LastNamingCounts(c: Config, ops: seq<Op>, id: PeerId, k: nat)
    requires LastNaming(ops, id, k)
    ensures Lookup(Fold(c, ops).peers, id) == if ops[k].Add? then Some(ops[k].info) else None
  {
    if k < |ops| - 1 { LastNamingCounts(c, ops[..|ops| - 1], id, k); }
  }

  lemma {:induction false} UnnamedStays(c: Config, ops: seq<Op>, id: PeerId)
    requires NeverNamed(ops, id)
    ensures Lookup(Fold(c, ops).peers, id) == Lookup(c.peers, id)
  {
    if ops != [] { UnnamedStays(c, ops[..|ops| - 1], id); }
  }

  /** In every run, whenever the lock is free, memory has for a peer what the last
      committed operation that names it says, and what the process started with if there
      is none. */
  lemma LastCommitCounts(disk: Option<Config>, allowOpenAll: bool, steps: seq<Step>, id: PeerId)
    requires Runs(Start(disk, allowOpenAll), steps) && After(Start(disk, allowOpenAll), steps).holder == None
    ensures var m := After(Start(disk, allowOpenAll), steps);
            && (forall k: nat :: LastNaming(m.log, id, k) ==>
                  Lookup(m.mem.peers, id) == if m.log[k].Add? then Some(m.log[k].info) else None)
            && (NeverNamed(m.log, id) ==> Lookup(m.mem.peers, id) == Lookup(m.base.peers, id))
  {
    var m := After(Start(disk, allowOpenAll), steps);
    InvAlong(Start(disk, allowOpenAll), steps);
    assert m.mem == Fold(m.base, m.log);
    forall k: nat | LastNaming(m.log, id, k)
      ensures Lookup(m.mem.peers, id) == if m.log[k].Add? then Some(m.log[k].info) else None
    {
      LastNamingCounts(m.base, m.log, id, k);
    }
    if NeverNamed(m.log, id) { UnnamedStays(m.base, m.log, id); }
  }

  predicate NobodyAdds(m: Machine, id: PeerId) { forall t :: t in m.threads ==> !Adds(m.threads[t].op, id) }

  predicate NobodyRemoves(m: Machine, id: PeerId) { forall t :: t in m.threads ==> !Removes(m.threads[t].op, id) }

  /** Not in the list, committed or on disk, and nobody is about to add it. */
  predicate Out(m: Machine, id: PeerId) {
    id !in Contents(m).peers && id !in Load(m.disk).peers && NobodyAdds(m, id)
  }

  /** In the list, committed and on disk, and nobody is about to remove it. */
  predicate In(m: Machine, id: PeerId) {
    id in Contents(m).peers && id in Load(m.disk).peers && NobodyRemoves(m, id)
  }

  /** What a step does to the committed contents and to the file. */
  predicate ContentsMove(m: Machine, step: Step)
    requires Enabled(m, step)
  {
    var n := Next(m, step);
    if step.CrashAndStart? then n.disk == m.disk && Contents(n) == if step.allowOpenAll then OPEN_ALL else Load(m.disk)
    else if step.Write? && step.writable then Contents(n) == Load(n.disk) == Apply(Contents(m), m.threads[step.t].op)
    else n.disk == m.disk && Contents(n) == Contents(m)
  }

  lemma ContentsStep(m: Machine, step: Step)
    requires Inv(m) && Enabled(m, step)
    ensures ContentsMove(m, step)
  {
    if step.Write? && step.writable { Commits(m, step); }
  }

  /** Nobody starts on another operation but by a call. */
  lemma ThreadsStep(m: Machine, step: Step)
    requires Enabled(m, step)
    ensures forall t :: t in Next(m, step).threads ==>
              || (t in m.threads && Next(m, step).threads[t].op == m.threads[t].op)
              || (step.Call? && Next(m, step).threads[t].op == step.op)
  {
  }

  lemma OutKept(m: Machine, step: Step, id: PeerId)
    requires Out(m, id) && Enabled(m, step) && !(step.Call? && Adds(step.op, id)) && ContentsMove(m, step)
    ensures Out(Next(m, step), id)
  {
    ThreadsStep(m, step);
  }

  lemma InKept(m: Machine, step: Step, id: PeerId)
    requires In(m, id) && Enabled(m, step) && !(step.Call? && Removes(step.op, id)) && ContentsMove(m, step)
    requires step != CrashAndStart(true)
    ensures In(Next(m, step), id)
  {
    ThreadsStep(m, step);
  }

  lemma OutInMemory(m: Machine, id: PeerId)
    requires Inv(m) && Out(m, id)
    ensures id !in m.mem.peers
  {
  }

  lemma InInMemory(m: Machine, id: PeerId)
    requires Inv(m) && In(m, id)
    ensures id in m.mem.peers
  {
  }

  lemma {:induction false} OutAlong(m: Machine, steps: seq<Step>, id: PeerId)
    requires Inv(m) && Out(m, id) && Runs(m, steps)
    requires forall k :: 0 <= k < |steps| ==> !(steps[k].Call? && Adds(steps[k].op, id))
    ensures Inv(After(m, steps)) && Out(After(m, steps), id)
    decreases |steps|
  {
    if steps != [] {
      InvKept(m, steps[0]);
      ContentsStep(m, steps[0]);
      OutKept(m, steps[0], id);
      OutAlong(Next(m, steps[0]), steps[1..], id);
    }
  }

  lemma {:induction false} InAlong(m: Machine, steps: seq<Step>, id: PeerId)
    requires Inv(m) && In(m, id) && Runs(m, steps)
    requires forall k :: 0 <= k < |steps| ==> !(steps[k].Call? && Removes(steps[k].op, id)) && steps[k] != CrashAndStart(true)
    ensures Inv(After(m, steps)) && In(After(m, steps), id)
    decreases |steps|
  {
    if steps != [] {
      InvKept(m, steps[0]);
      ContentsStep(m, steps[0]);
      InKept(m, steps[0], id);
      InAlong(Next(m, steps[0]), steps[1..], id);
    }
  }

  lemma {:induction false} RemovedIsOut(c: Config, ops: seq<Op>, id: PeerId, k: nat)
    requires k < |ops| && Removes(ops[k], id) && forall j :: k < j < |ops| ==> !Adds(ops[j], id)
    ensures id !in Fold(c, ops).peers
  {
    if k < |ops| - 1 { RemovedIsOut(c, ops[..|ops| - 1], id, k); }
  }

  lemma {:induction false} AddedIsIn(c: Config, ops: seq<Op>, id: PeerId, k: nat)
    requires k < |ops| && Adds(ops[k], id) && forall j :: k < j < |ops| ==> !Removes(ops[j], id)
    ensures id in Fold(c, ops).peers
  {
    if k < |ops| - 1 { AddedIsIn(c, ops[..|ops| - 1], id, k); }
  }

  /** Main result on revocation: after a committed removal a peer stays out of the list,
      at every point of every run, through failed writes, crashes and restarts of either
      kind, until somebody calls an add of it; while the list is strict it is not let in. */
  lemma RevokedStaysOut(disk: Option<Config>, allowOpenAll: bool, steps: seq<Step>, k: nat, id: PeerId, more: seq<Step>)
    requires Runs(Start(disk, allowOpenAll), steps) && Runs(After(Start(disk, allowOpenAll), steps), more)
    requires var m := After(Start(disk, allowOpenAll), steps);
             && k < |m.log| && m.log[k] == Remove(id) && (forall j :: k < j < |m.log| ==> !Adds(m.log[j], id))
             && NobodyAdds(m, id)
    requires forall i :: 0 <= i < |more| ==> !(more[i].Call? && Adds(more[i].op, id))
    ensures var n := After(After(Start(disk, allowOpenAll), steps), more);
            id !in n.mem.peers && (!n.mem.openAll ==> !Allows(n.mem, id))
  {
    var m := After(Start(disk, allowOpenAll), steps);
    InvAlong(Start(disk, allowOpenAll), steps);
    RemovedIsOut(m.base, m.log, id, k);
    OutAlong(m, more, id);
    OutInMemory(After(m, more), id);
  }

  /** And after a committed add a peer stays in, until somebody calls a removal of it or
      starts a session with `--allow-open-all`, which forgets the list. */
  lemma AddedStaysIn(disk: Option<Config>, allowOpenAll: bool, steps: seq<Step>, k: nat, id: PeerId, more: seq<Step>)
    requires Runs(Start(disk, allowOpenAll), steps) && Runs(After(Start(disk, allowOpenAll), steps), more)
    requires var m := After(Start(disk, allowOpenAll), steps);
             && k < |m.log| && Adds(m.log[k], id) && (forall j :: k < j < |m.log| ==> !Removes(m.log[j], id))
             && NobodyRemoves(m, id)
    requires forall i :: 0 <= i < |more| ==> !(more[i].Call? && Removes(more[i].op, id)) && more[i] != CrashAndStart(true)
    ensures var n := After(After(Start(disk, allowOpenAll), steps), more);
            id in n.mem.peers && Allows(n.mem, id)
  {
    var m := After(Start(disk, allowOpenAll), steps);
    InvAlong(Start(disk, allowOpenAll), steps);
    AddedIsIn(m.base, m.log, id, k);
    InAlong(m, more, id);
    InInMemory(After(m, more), id);
  }

  /** The commit is reached: an operation that nothing disturbs takes the lock, is
      committed and on disk, and lets the lock go. */
  lemma Undisturbed(m: Machine, t: Tid, op: Op)
    requires Inv(m) && m.holder == None && t !in m.threads
    ensures var steps := [Call(t, op), Acquire(t), Mutate(t, true), Write(t, true), Release(t)];
            && Runs(m, steps)
            && var n := After(m, steps);
               && n.log == m.log + [op] && n.disk == Some(n.mem) && n.mem == Contents(n)
               && n.holder == None && n.threads == m.threads && n.base == m.base
  {
    var s1 := Next(m, Call(t, op));
    var s2 := Next(s1, Acquire(t));
    var s3 := Next(s2, Mutate(t, true));
    var s4 := Next(s3, Write(t, true));
    InvAlong(m, []);
    FoldOneMore(m.base, m.log, op);
    RunOfFive(m, [Call(t, op), Acquire(t), Mutate(t, true), Write(t, true), Release(t)], s1, s2, s3, s4);
    assert Next(s4, Release(t)).threads == m.threads;
  }

  lemma RunOfFive(s0: Machine, steps: seq<Step>, s1: Machine, s2: Machine, s3: Machine, s4: Machine)
    requires |steps| == 5
    requires Enabled(s0, steps[0]) && s1 == Next(s0, steps[0])
    requires Enabled(s1, steps[1]) && s2 == Next(s1, steps[1])
    requires Enabled(s2, steps[2]) && s3 == Next(s2, steps[2])
    requires Enabled(s3, steps[3]) && s4 == Next(s3, steps[3])
    requires Enabled(s4, steps[4])
    ensures Runs(s0, steps) && After(s0, steps) == Next(s4, steps[4])
  {
    var r1, r2, r3, r4 := steps[1..], steps[2..], steps[3..], steps[4..];
    assert r1[1..] == r2 && r2[1..] == r3 && r3[1..] == r4 && r4[1..] == [];
    assert Runs(s4, r4) && After(s4, r4) == Next(s4, steps[4]);
    assert Runs(s3, r3) && After(s3, r3) == After(s4, r4);
    assert Runs(s2, r2) && After(s2, r2) == After(s3, r3);
    assert Runs(s1, r1) && After(s1, r1) == After(s2, r2);
  }

  // ---------------------------------------------------------------- strict mode

  predicate HasAdd(ops: seq<Op>) { exists k :: 0 <= k < |ops| && ops[k].Add? }

  /** Exactly an add, and nothing else, ends the open mode. */
  lemma {:induction false} OpenUntilAdd(c: Config, ops: seq<Op>)
    ensures Fold(c, ops).openAll <==> c.openAll && !HasAdd(ops)
  {
    if ops != [] {
      var less := ops[..|ops| - 1];
      OpenUntilAdd(c, less);
      assert HasAdd(ops) <==> HasAdd(less) || ops[|ops| - 1].Add? by {
        assert forall k :: 0 <= k < |less| ==> ops[k] == less[k];
      }
    }
  }

  ghost predicate Strict(m: Machine) { Inv(m) && Synced(m) && !Contents(m).openAll }

  /** Strict mode is irreversible, at every point of every run and across restarts, as
      long as nobody passes `--allow-open-all`. */
  lemma {:induction false} StaysStrict(m: Machine, steps: seq<Step>)
    requires Strict(m) && Runs(m, steps)
    requires forall k :: 0 <= k < |steps| ==> steps[k] != CrashAndStart(true)
    ensures Strict(After(m, steps)) && !After(m, steps).mem.openAll
    decreases |steps|
  {
    if steps == [] {
      StrictInMemory(m);
    } else {
      StrictStep(m, steps[0]);
      StaysStrict(Next(m, steps[0]), steps[1..]);
    }
  }

  lemma StrictInMemory(m: Machine)
    requires Strict(m)
    ensures !m.mem.openAll
  {
  }

  lemma StrictStep(m: Machine, step: Step)
    requires Strict(m) && Enabled(m, step) && step != CrashAndStart(true)
    ensures Strict(Next(m, step))
  {
    InvKept(m, step);
    ContentsStayStrict(m, step);
  }

  lemma ContentsStayStrict(m: Machine, step: Step)
    requires Synced(m) && !Contents(m).openAll && Load(m.disk) == Contents(m)
    requires Enabled(m, step) && step != CrashAndStart(true)
    ensures Synced(Next(m, step)) && !Contents(Next(m, step)).openAll
  {
    if step.Write? && step.writable {
      FoldOneMore(m.base, m.log, m.threads[step.t].op);
    }
  }

  /** One committed add is enough, whatever was done before it and with what flag. */
  lemma AddMakesStrict(m: Machine)
    requires Inv(m) && HasAdd(m.log)
    ensures Strict(m)
  {
    OpenUntilAdd(m.base, m.log);
  }

  /** Hence from the first committed add on, at every point of every run and across
      restarts without `--allow-open-all`, the list is strict. */
  lemma StrictSinceAdd(disk: Option<Config>, allowOpenAll: bool, steps: seq<Step>, more: seq<Step>)
    requires Runs(Start(disk, allowOpenAll), steps) && HasAdd(After(Start(disk, allowOpenAll), steps).log)
    requires Runs(After(Start(disk, allowOpenAll), steps), more)
    requires forall k :: 0 <= k < |more| ==> more[k] != CrashAndStart(true)
    ensures !After(After(Start(disk, allowOpenAll), steps), more).mem.openAll
  {
    InvAlong(Start(disk, allowOpenAll), steps);
    AddMakesStrict(After(Start(disk, allowOpenAll), steps));
    StaysStrict(After(Start(disk, allowOpenAll), steps), more);
  }

  /** A session with `--allow-open-all` and what the next start without it finds. The
      documented irreversibility fails exactly here: a session that commits something,
      but no add, writes the open mode to disk. */
  lemma OpenSessionLeftOpen(disk: Option<Config>, steps: seq<Step>)
    requires Runs(Start(disk, true), steps)
    requires forall k :: 0 <= k < |steps| ==> !steps[k].CrashAndStart?
    ensures var m := After(Start(disk, true), steps);
            Next(m, CrashAndStart(false)).mem.openAll
            <==> if m.log == [] then Load(disk).openAll else !HasAdd(m.log)
  {
    var m := After(Start(disk, true), steps);
    InvAlong(Start(disk, true), steps);
    SessionKeepsStart(Start(disk, true), steps);
    OpenUntilAdd(OPEN_ALL, m.log);
  }

  lemma {:induction false} SessionKeepsStart(m: Machine, steps: seq<Step>)
    requires Runs(m, steps) && forall k :: 0 <= k < |steps| ==> !steps[k].CrashAndStart?
    ensures var n := After(m, steps);
            n.base == m.base && n.flagged == m.flagged && m.log <= n.log && (n.log == m.log ==> n.disk == m.disk)
    decreases |steps|
  {
    if steps != [] {
      var n := Next(m, steps[0]);
      assert n.base == m.base && n.flagged == m.flagged && m.log <= n.log && (n.log == m.log ==> n.disk == m.disk);
      SessionKeepsStart(n, steps[1..]);
    }
  }

  /** One such session: a strict list on disk, a revoke in the open session. */
  lemma RevokeReopens(id: PeerId, info: PeerInfo)
    ensures var steps := [Call(0, Remove(id)), Acquire(0), Mutate(0, true), Write(0, true), Release(0), CrashAndStart(false)];
            var start := Start(Some(Config(false, map[id := info])), true);
            Runs(start, steps) && After(start, steps).mem == OPEN_ALL
  {
    var s0 := Start(Some(Config(false, map[id := info])), true);
    var s1 := Next(s0, Call(0, Remove(id)));
    var s2 := Next(s1, Acquire(0));
    var s3 := Next(s2, Mutate(0, true));
    var s4 := Next(s3, Write(0, true));
    var s5 := Next(s4, Release(0));
    var steps := [Call(0, Remove(id)), Acquire(0), Mutate(0, true), Write(0, true), Release(0), CrashAndStart(false)];
    assert s3.mem == OPEN_ALL by {
      assert OPEN_ALL.peers - {id} == OPEN_ALL.peers;
    }
    RunOfSix(s0, steps, s1, s2, s3, s4, s5);
  }

  lemma RunOfSix(s0: Machine, steps: seq<Step>, s1: Machine, s2: Machine, s3: Machine, s4: Machine, s5: Machine)
    requires |steps| == 6
    requires Enabled(s0, steps[0]) && s1 == Next(s0, steps[0])
    requires Enabled(s1, steps[1]) && s2 == Next(s1, steps[1])
    requires Enabled(s2, steps[2]) && s3 == Next(s2, steps[2])
    requires Enabled(s3, steps[3]) && s4 == Next(s3, steps[3])
    requires Enabled(s4, steps[4]) && s5 == Next(s4, steps[4])
    requires Enabled(s5, steps[5])
    ensures Runs(s0, steps) && After(s0, steps) == Next(s5, steps[5])
  {
    var rest := steps[1..];
    RunOfFive(s1, rest, s2, s3, s4, s5);
  }
}
