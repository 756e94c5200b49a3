/** One daemon at a time: lock file, stale-socket recovery, bind, and the order in
    which a daemon goes down, for any number of processes and crashes anywhere. */
module SingleDaemon {
  import opened Prelude

  type Pid = nat
  type Listener = nat

  datatype Pc =
    | Starting
    | Locked                   // the lock file is locked
    | SawSocket                // there is a socket file
    | Stale                    // it did not answer the probe
    | NoSocket                 // there is none (any more)
    | Checked                  // still none, at bind time
    | Bound(l: Listener)       // bound, permissions not set yet
    | Serving(l: Listener)
    | Closing(l: Listener)     // accept loop cancelled or aborted
    | Unlinked                 // done with the own socket file, lock not yet released
    | Exited

  /** `entry`: the listener the socket file leads to, alive or not. `orphans`: listeners
      whose daemon failed to unlink its socket file when it went down. */
  datatype Host = Host(
    lock: Option<Pid>,
    entry: Option<Listener>,
    live: set<Listener>,
    owner: map<Listener, Pid>,
    orphans: set<Listener>,
    procs: map<Pid, Pc>)

  const IDLE: Host := Host(None, None, {}, map[], {}, map[])

  datatype Step =
    | Spawn(p: Pid)
    | TryLock(p: Pid)
    | LookForSocket(p: Pid)
    | Probe(p: Pid, answered: bool)
    | UnlinkStale(p: Pid)
    | CheckAgain(p: Pid)
    | Bind(p: Pid, l: Listener)
    | PermissionsFail(p: Pid)
    | Serve(p: Pid)
    | Stop(p: Pid, awaited: bool)    // shutdown waits for the accept loop, a bare drop only aborts it
    | UnlinkOwn(p: Pid)
    | UnlinkOwnFails(p: Pid)         // which the drop ignores
    | ReleaseLock(p: Pid)
    | GiveUp(p: Pid)                 // any other error on the way
    | LoopEnds(l: Listener)          // an aborted accept loop is dropped in the end
    | Crash(p: Pid)

  predicate Is(h: Host, p: Pid, pc: Pc) { p in h.procs && h.procs[p] == pc }

  predicate Enabled(h: Host, step: Step) {
    match step
    case Spawn(p) => p !in h.procs
    case TryLock(p) => Is(h, p, Starting)
    case LookForSocket(p) => Is(h, p, Locked)
    // an answer needs a listener behind the socket file; silence is always possible
    case Probe(p, answered) => Is(h, p, SawSocket) && (answered ==> h.entry.Some? && h.entry.value in h.live)
    case UnlinkStale(p) => Is(h, p, Stale)
    case CheckAgain(p) => Is(h, p, NoSocket)
    case Bind(p, l) => Is(h, p, Checked) && l !in h.owner
    case PermissionsFail(p) => p in h.procs && h.procs[p].Bound?
    case Serve(p) => p in h.procs && h.procs[p].Bound?
    case Stop(p, _) => p in h.procs && h.procs[p].Serving?
    case UnlinkOwn(p) => p in h.procs && h.procs[p].Closing?
    case UnlinkOwnFails(p) => p in h.procs && h.procs[p].Closing?
    case ReleaseLock(p) => Is(h, p, Unlinked)
    case GiveUp(p) => p in h.procs && h.procs[p] in {Locked, SawSocket, Stale, NoSocket, Checked}
    case LoopEnds(l) => l in h.live && l in h.owner && forall p :: p in h.procs ==> h.procs[p] != Bound(l) && h.procs[p] != Serving(l)
    case Crash(p) => p in h.procs && !h.procs[p].Exited?
  }

  function Exit(h: Host, p: Pid): Host {
    h.(procs := h.procs[p := Exited], lock := if h.lock == Some(p) then None else h.lock)
  }

  function At(h: Host, p: Pid, pc: Pc): Host { h.(procs := h.procs[p := pc]) }

  function Next(h: Host, step: Step): Host
    requires Enabled(h, step)
  {
    match step
    case Spawn(p) => At(h, p, Starting)
    case TryLock(p) => if h.lock == None then At(h, p, Locked).(lock := Some(p)) else At(h, p, Exited)
    case LookForSocket(p) => At(h, p, if h.entry.Some? then SawSocket else NoSocket)
    case Probe(p, answered) => if answered then Exit(h, p) else At(h, p, Stale)
    case UnlinkStale(p) => At(h, p, NoSocket).(entry := None)
    case CheckAgain(p) => if h.entry.Some? then Exit(h, p) else At(h, p, Checked)
    case Bind(p, l) =>
      if h.entry.Some? then Exit(h, p)
      else At(h, p, Bound(l)).(entry := Some(l), live := h.live + {l}, owner := h.owner[l := p])
    case PermissionsFail(p) => Exit(h, p).(live := h.live - {h.procs[p].l})
    case Serve(p) => At(h, p, Serving(h.procs[p].l))
    case Stop(p, awaited) =>
      At(h, p, Closing(h.procs[p].l)).(live := if awaited then h.live - {h.procs[p].l} else h.live)
    case UnlinkOwn(p) => At(h, p, Unlinked).(entry := None)
    case UnlinkOwnFails(p) => At(h, p, Unlinked).(orphans := h.orphans + {h.procs[p].l})
    case ReleaseLock(p) => Exit(h, p)
    case GiveUp(p) => Exit(h, p)
    case LoopEnds(l) => h.(live := h.live - {l})
    case Crash(p) => Exit(h, p).(live := set l | l in h.live && !(l in h.owner && h.owner[l] == p))
  }

  predicate Runs(h: Host, steps: seq<Step>)
    decreases |steps|
  {
    steps == [] || (Enabled(h, steps[0]) && Runs(Next(h, steps[0]), steps[1..]))
  }

  function After(h: Host, steps: seq<Step>): Host
    requires Runs(h, steps)
    decreases |steps|
  {
    if steps == [] then h else After(Next(h, steps[0]), steps[1..])
  }

  predicate HasLock(pc: Pc) { !pc.Starting? && !pc.Exited? }

  predicate HasSocket(pc: Pc) { pc.Bound? || pc.Serving? || pc.Closing? }

  predicate NeedsNoSocket(pc: Pc) { pc.NoSocket? || pc.Checked? }

  ghost predicate ProcInv(h: Host, p: Pid)
    requires p in h.procs
  {
    var pc := h.procs[p];
    && (HasLock(pc) ==> h.lock == Some(p))
    && (HasSocket(pc) ==> h.entry == Some(pc.l) && pc.l in h.owner && h.owner[pc.l] == p && pc.l !in h.orphans)
    && (pc.Bound? || pc.Serving? ==> pc.l in h.live)
    && (NeedsNoSocket(pc) ==> h.entry == None)
  }

  ghost predicate Inv(h: Host) {
    && (forall p :: p in h.procs ==> ProcInv(h, p))
    && (h.lock.Some? ==> h.lock.value in h.procs && HasLock(h.procs[h.lock.value]))
    && h.live <= h.owner.Keys
    && (h.entry.Some? ==> h.entry.value in h.owner)
    // a socket file that leads to a living listener belongs to a daemon that is up, or
    // to one that failed to unlink it
    && (h.entry.Some? && h.entry.value in h.live && h.entry.value !in h.orphans ==> IsUp(h, h.entry.value))
    && (forall l :: l in h.orphans ==> WentDown(h, l))
  }

  predicate IsUp(h: Host, l: Listener)
    requires l in h.owner
  {
    var p := h.owner[l];
    p in h.procs && HasSocket(h.procs[p]) && h.procs[p].l == l
  }

  predicate WentDown(h: Host, l: Listener) {
    l in h.owner && h.owner[l] in h.procs && h.procs[h.owner[l]] in {Unlinked, Exited}
  }

  lemma OneHolder(h: Host, p: Pid, q: Pid)
    requires Inv(h) && p in h.procs && q in h.procs && HasLock(h.procs[p]) && HasLock(h.procs[q])
    ensures p == q
  {
    assert ProcInv(h, p) && ProcInv(h, q);
  }

  lemma OthersIdle(h: Host, p: Pid)
    requires Inv(h) && p in h.procs && HasLock(h.procs[p])
    ensures forall q :: q in h.procs && q != p ==> !HasLock(h.procs[q])
    ensures h.lock == Some(p)
  {
    forall q | q in h.procs && HasLock(h.procs[q]) ensures q == p { OneHolder(h, p, q); }
    assert ProcInv(h, p);
  }

  /** A process with the lock is the only one whose place says anything about the lock
      and the socket. */
  lemma IdleInv(h: Host, n: Host, q: Pid)
    requires q in h.procs && ProcInv(h, q) && !HasLock(h.procs[q])
    requires q in n.procs && n.procs[q] == h.procs[q]
    ensures ProcInv(n, q)
  {
  }

  lemma OthersKept(h: Host, n: Host, p: Pid)
    requires Inv(h) && p in h.procs && HasLock(h.procs[p]) && n.procs.Keys == h.procs.Keys
    requires forall q :: q in h.procs && q != p ==> n.procs[q] == h.procs[q]
    requires ProcInv(n, p)
    ensures forall q :: q in n.procs ==> ProcInv(n, q)
  {
    OthersIdle(h, p);
    forall q | q in n.procs ensures ProcInv(n, q) {
      if q != p { IdleInv(h, n, q); }
    }
  }

  /** Steps of a process that has no lock yet. */
  lemma ArrivalKept(h: Host, step: Step)
    requires Inv(h) && Enabled(h, step) && (step.Spawn? || step.TryLock?)
    ensures Inv(Next(h, step))
  {
    var n := Next(h, step);
    forall q | q in n.procs ensures ProcInv(n, q) { if q != step.p { assert ProcInv(h, q); } }
  }

  lemma LoopEndKept(h: Host, step: Step)
    requires Inv(h) && Enabled(h, step) && step.LoopEnds?
    ensures Inv(Next(h, step))
  {
    var n := Next(h, step);
    forall q | q in n.procs ensures ProcInv(n, q) { assert ProcInv(h, q); }
  }

  /** The lock holder looks for a socket, and gives up or goes on. */
  lemma LookKept(h: Host, step: Step)
    requires Inv(h) && Enabled(h, step) && (step.LookForSocket? || step.CheckAgain? || step.GiveUp?)
    ensures Inv(Next(h, step))
  {
    assert ProcInv(h, step.p);
    OthersKept(h, Next(h, step), step.p);
  }

  /** The lock holder probes a socket it has seen, and unlinks it. */
  lemma RecoveryKept(h: Host, step: Step)
    requires Inv(h) && Enabled(h, step) && (step.Probe? || step.UnlinkStale?)
    ensures Inv(Next(h, step))
  {
    assert ProcInv(h, step.p);
    OthersKept(h, Next(h, step), step.p);
  }

  /** The lock holder has a socket, or gets one. */
  lemma ServiceKept(h: Host, step: Step)
    requires Inv(h) && Enabled(h, step)
    requires step.Bind? || step.PermissionsFail? || step.Serve?
    ensures Inv(Next(h, step))
  {
    assert ProcInv(h, step.p);
    OthersKept(h, Next(h, step), step.p);
  }

  /** The lock holder goes down. */
  lemma ShutdownKept(h: Host, step: Step)
    requires Inv(h) && Enabled(h, step) && (step.Stop? || step.UnlinkOwn? || step.UnlinkOwnFails? || step.ReleaseLock?)
    ensures Inv(Next(h, step))
  {
    assert ProcInv(h, step.p);
    OthersKept(h, Next(h, step), step.p);
  }

  lemma CrashKept(h: Host, step: Step)
    requires Inv(h) && Enabled(h, step) && step.Crash?
    ensures Inv(Next(h, step))
  {
    var n, p := Next(h, step), step.p;
    assert ProcInv(h, p);
    if HasLock(h.procs[p]) {
      OthersKept(h, n, p);
    } else {
      NoListener(h, p);
      forall q | q in n.procs ensures ProcInv(n, q) { assert ProcInv(h, q); }
    }
  }

  /** A process without the lock owns neither the socket file nor what another serves on. */
  lemma NoListener(h: Host, p: Pid)
    requires Inv(h) && p in h.procs && !HasLock(h.procs[p])
    ensures forall q :: q in h.procs && HasSocket(h.procs[q]) ==> h.owner[h.procs[q].l] != p
    ensures h.entry.Some? && h.entry.value in h.live && h.entry.value !in h.orphans ==> h.owner[h.entry.value] != p
  {
    forall q | q in h.procs && HasSocket(h.procs[q]) ensures h.owner[h.procs[q].l] != p { assert ProcInv(h, q); }
  }

  lemma InvKept(h: Host, step: Step)
    requires Inv(h) && Enabled(h, step)
    ensures Inv(Next(h, step))
  {
    if step.Spawn? || step.TryLock? { ArrivalKept(h, step); }
    else if step.LoopEnds? { LoopEndKept(h, step); }
    else if step.Bind? || step.PermissionsFail? || step.Serve? { ServiceKept(h, step); }
    else if step.Stop? || step.UnlinkOwn? || step.UnlinkOwnFails? || step.ReleaseLock? { ShutdownKept(h, step); }
    else if step.Crash? { CrashKept(h, step); }
    else if step.Probe? || step.UnlinkStale? { RecoveryKept(h, step); }
    else { LookKept(h, step); }
  }

  lemma {:induction false} InvAlong(h: Host, steps: seq<Step>)
    requires Inv(h) && Runs(h, steps)
    ensures Inv(After(h, steps))
    decreases |steps|
  {
    if steps != [] {
      InvKept(h, steps[0]);
      InvAlong(Next(h, steps[0]), steps[1..]);
    }
  }

  /** Main result: in every run of any number of processes with crashes anywhere, at
      most one daemon serves, it holds the lock, and the socket file leads to it. */
  lemma OneServer(steps: seq<Step>, p: Pid, q: Pid)
    requires Runs(IDLE, steps)
    requires var h := After(IDLE, steps);
             p in h.procs && q in h.procs && h.procs[p].Serving? && h.procs[q].Serving?
    ensures var h := After(IDLE, steps);
            p == q && h.lock == Some(p) && h.entry == Some(h.procs[p].l) && h.procs[p].l in h.live
  {
    var h := After(IDLE, steps);
    InvAlong(IDLE, steps);
    OneHolder(h, p, q);
    assert ProcInv(h, p);
  }

  /** Whose socket file with a living listener is unlinked: one's own, or that of an
      orphan, and the latter exactly when the listener is one. */
  lemma ForeignUnlinkExactly(steps: seq<Step>, next: Step)
    requires Runs(IDLE, steps) && Enabled(After(IDLE, steps), next) && (next.UnlinkStale? || next.UnlinkOwn?)
    requires var h := After(IDLE, steps); h.entry.Some? && h.entry.value in h.live
    ensures var h := After(IDLE, steps);
            Lookup(h.owner, h.entry.value) == Some(next.p) <==> h.entry.value !in h.orphans
  {
    var h := After(IDLE, steps);
    InvAlong(IDLE, steps);
    assert ProcInv(h, next.p);
    if h.entry.value !in h.orphans {
      OneHolder(h, next.p, h.owner[h.entry.value]);
    } else {
      assert WentDown(h, h.entry.value);
    }
  }

  /** When the branch "another daemon is already listening" is taken: whoever holds the
      lock finds a dead socket, or an orphan whose accept loop has not ended yet. */
  lemma ProbeAnsweredExactly(steps: seq<Step>, p: Pid)
    requires Runs(IDLE, steps)
    ensures var h := After(IDLE, steps);
            Enabled(h, Probe(p, true))
            <==> Is(h, p, SawSocket) && h.entry.Some? && h.entry.value in h.live && h.entry.value in h.orphans
  {
    var h := After(IDLE, steps);
    InvAlong(IDLE, steps);
    if Enabled(h, Probe(p, true)) && h.entry.value !in h.orphans {
      OneHolder(h, p, h.owner[h.entry.value]);
    }
  }

  /** A run in which every daemon unlinks its socket file when it goes down, or waits for
      its accept loop before it does. */
  predicate GoesDownWell(steps: seq<Step>) {
    || (forall k :: 0 <= k < |steps| ==> !steps[k].UnlinkOwnFails?)
    || (forall k :: 0 <= k < |steps| ==> steps[k].Stop? ==> steps[k].awaited)
  }

  /** In such a run no orphan is alive. */
  lemma NoLivingOrphan(steps: seq<Step>)
    requires Runs(IDLE, steps) && GoesDownWell(steps)
    ensures var h := After(IDLE, steps); h.orphans !! h.live
  {
    if forall k :: 0 <= k < |steps| ==> !steps[k].UnlinkOwnFails? {
      NoOrphans(IDLE, steps);
    } else {
      OrphansDead(IDLE, steps);
    }
  }

  lemma {:induction false} NoOrphans(h: Host, steps: seq<Step>)
    requires Runs(h, steps) && h.orphans == {} && forall k :: 0 <= k < |steps| ==> !steps[k].UnlinkOwnFails?
    ensures After(h, steps).orphans == {}
    decreases |steps|
  {
    if steps != [] { NoOrphans(Next(h, steps[0]), steps[1..]); }
  }

  /** The accept loop of a daemon that is closing has ended. */
  ghost predicate LoopsEnded(h: Host) {
    && h.orphans !! h.live
    && forall p :: p in h.procs && h.procs[p].Closing? ==> h.procs[p].l !in h.live
  }

  lemma EndedKept(h: Host, step: Step)
    requires Inv(h) && LoopsEnded(h) && Enabled(h, step) && (step.Stop? ==> step.awaited)
    ensures LoopsEnded(Next(h, step))
  {
    var n := Next(h, step);
    if step.Bind? { OthersIdle(h, step.p); }
    forall p | p in n.procs && n.procs[p].Closing? ensures n.procs[p].l !in n.live {}
  }

  lemma {:induction false} OrphansDead(h: Host, steps: seq<Step>)
    requires Inv(h) && LoopsEnded(h) && Runs(h, steps)
    requires forall k :: 0 <= k < |steps| ==> steps[k].Stop? ==> steps[k].awaited
    ensures LoopsEnded(After(h, steps))
    decreases |steps|
  {
    if steps != [] {
      InvKept(h, steps[0]);
      EndedKept(h, steps[0]);
      OrphansDead(Next(h, steps[0]), steps[1..]);
    }
  }

  /** No process ever unlinks the socket file of another's living listener, as long as
      daemons go down well. */
  lemma NoForeignUnlink(steps: seq<Step>, next: Step)
    requires Runs(IDLE, steps) && GoesDownWell(steps)
    requires Enabled(After(IDLE, steps), next) && (next.UnlinkStale? || next.UnlinkOwn?)
    ensures var h := After(IDLE, steps);
            h.entry.Some? && h.entry.value in h.live ==> Lookup(h.owner, h.entry.value) == Some(next.p)
  {
    var h := After(IDLE, steps);
    NoLivingOrphan(steps);
    if h.entry.Some? && h.entry.value in h.live { ForeignUnlinkExactly(steps, next); }
  }

  /** And the branch "another daemon is already listening" is then never taken. */
  lemma ProbeNeverAnswered(steps: seq<Step>, p: Pid)
    requires Runs(IDLE, steps) && GoesDownWell(steps)
    ensures !Enabled(After(IDLE, steps), Probe(p, true))
  {
    NoLivingOrphan(steps);
    ProbeAnsweredExactly(steps, p);
  }

  /** A daemon that is dropped without waiting for its accept loop and fails to unlink its
      socket file, and another that starts before that loop has ended. */
  function OrphanRun(p: Pid, q: Pid): seq<Step> {
    Abandoned(p) + [Spawn(q), TryLock(q), LookForSocket(q)]
  }

  function Abandoned(p: Pid): seq<Step> { [Stop(p, false), UnlinkOwnFails(p), ReleaseLock(p)] }

  /** The socket results need their condition: from every host with a daemon that serves
      there is such a run. At its end the second daemon, which holds the lock, may be
      answered and give up, or not be answered and unlink the socket file of a living
      listener that is not its own. */
  lemma OrphanAnswers(h: Host, p: Pid, l: Listener, q: Pid)
    requires Inv(h) && Is(h, p, Serving(l)) && q !in h.procs
    ensures Runs(h, OrphanRun(p, q))
    ensures var n := After(h, OrphanRun(p, q));
            && Enabled(n, Probe(q, true)) && Enabled(n, Probe(q, false))
            && (var s := Next(n, Probe(q, false));
                Enabled(s, UnlinkStale(q)) && s.entry == Some(l) && l in s.live && Lookup(s.owner, l) == Some(p))
  {
    assert ProcInv(h, p);
    AbandonedLeaves(h, p, l);
    var down := After(h, Abandoned(p));
    LooksAtOrphan(down, q);
    RunsThen(h, Abandoned(p), [Spawn(q), TryLock(q), LookForSocket(q)]);
  }

  lemma AbandonedLeaves(h: Host, p: Pid, l: Listener)
    requires Is(h, p, Serving(l)) && h.lock == Some(p) && l in h.live
    ensures Runs(h, Abandoned(p))
    ensures var n := After(h, Abandoned(p));
            n.lock == None && n.entry == h.entry && n.live == h.live && n.owner == h.owner && n.procs.Keys == h.procs.Keys
  {
    var h1 := Next(h, Stop(p, false));
    var h2 := Next(h1, UnlinkOwnFails(p));
    assert Runs(Next(h2, ReleaseLock(p)), []);
    StepFirst(h2, ReleaseLock(p), []);
    StepFirst(h1, UnlinkOwnFails(p), [ReleaseLock(p)]);
    StepFirst(h, Stop(p, false), [UnlinkOwnFails(p), ReleaseLock(p)]);
    assert [UnlinkOwnFails(p)] + [ReleaseLock(p)] == [UnlinkOwnFails(p), ReleaseLock(p)];
    assert [ReleaseLock(p)] + [] == [ReleaseLock(p)];
    assert [Stop(p, false)] + [UnlinkOwnFails(p), ReleaseLock(p)] == Abandoned(p);
  }

  lemma LooksAtOrphan(h: Host, q: Pid)
    requires h.lock == None && h.entry.Some? && q !in h.procs
    ensures var steps := [Spawn(q), TryLock(q), LookForSocket(q)];
            Runs(h, steps)
            && After(h, steps) == At(h, q, SawSocket).(lock := Some(q))
  {
    var h1 := Next(h, Spawn(q));
    var h2 := Next(h1, TryLock(q));
    assert Next(h2, LookForSocket(q)) == At(h, q, SawSocket).(lock := Some(q));
    assert Runs(Next(h2, LookForSocket(q)), []);
    StepFirst(h2, LookForSocket(q), []);
    StepFirst(h1, TryLock(q), [LookForSocket(q)]);
    StepFirst(h, Spawn(q), [TryLock(q), LookForSocket(q)]);
    assert [TryLock(q)] + [LookForSocket(q)] == [TryLock(q), LookForSocket(q)];
    assert [LookForSocket(q)] + [] == [LookForSocket(q)];
    assert [Spawn(q)] + [TryLock(q), LookForSocket(q)] == [Spawn(q), TryLock(q), LookForSocket(q)];
  }

  lemma {:induction false} RunsThen(h: Host, a: seq<Step>, b: seq<Step>)
    requires Runs(h, a) && Runs(After(h, a), b)
    ensures Runs(h, a + b) && After(h, a + b) == After(After(h, a), b)
    decreases |a|
  {
    if a == [] {
      assert a + b == b;
    } else {
      assert (a + b)[1..] == a[1..] + b;
      RunsThen(Next(h, a[0]), a[1..], b);
    }
  }

  /** The two checks for a socket that reappeared never fire. */
  lemma SocketNeverReappears(steps: seq<Step>, p: Pid)
    requires Runs(IDLE, steps)
    requires var h := After(IDLE, steps); Is(h, p, NoSocket) || Is(h, p, Checked)
    ensures After(IDLE, steps).entry == None
  {
    InvAlong(IDLE, steps);
    assert ProcInv(After(IDLE, steps), p);
  }

  predicate StepOf(step: Step, p: Pid) { !step.LoopEnds? && step.p == p }

  /** A serving daemon is not disturbed by anything the other processes do. */
  lemma {:induction false} ServingUndisturbed(h: Host, p: Pid, l: Listener, steps: seq<Step>)
    requires Inv(h) && Is(h, p, Serving(l)) && Runs(h, steps)
    requires forall k :: 0 <= k < |steps| ==> !StepOf(steps[k], p)
    ensures var t := After(h, steps); Is(t, p, Serving(l)) && t.lock == Some(p) && t.entry == Some(l) && l in t.live
    decreases |steps|
  {
    assert ProcInv(h, p);
    if steps != [] {
      InvKept(h, steps[0]);
      ServingUndisturbed(Next(h, steps[0]), p, l, steps[1..]);
    }
  }

  /** Whatever crashes left behind, as soon as no other process is past its start the lock
      is free, and a new one that meets no I/O error and no answer gets to serve: its start from a host in state `h`. */
  function StartUp(h: Host, p: Pid, l: Listener): seq<Step> {
    [Spawn(p), TryLock(p), LookForSocket(p)]
    + (if h.entry.Some? then [Probe(p, false), UnlinkStale(p)] else [])
    + [CheckAgain(p), Bind(p, l), Serve(p)]
  }

  lemma StepFirst(h: Host, step: Step, rest: seq<Step>)
    requires Enabled(h, step) && Runs(Next(h, step), rest)
    ensures Runs(h, [step] + rest) && After(h, [step] + rest) == After(Next(h, step), rest)
  {
    assert ([step] + rest)[1..] == rest;
  }

  /** From a look that found no socket. */
  lemma LastLap(h: Host, p: Pid, l: Listener)
    requires Is(h, p, NoSocket) && h.entry == None && l !in h.owner
    ensures var s := [CheckAgain(p), Bind(p, l), Serve(p)]; Runs(h, s) && Is(After(h, s), p, Serving(l))
  {
    var h1 := Next(h, CheckAgain(p));
    var h2 := Next(h1, Bind(p, l));
    assert Runs(Next(h2, Serve(p)), []);
    StepFirst(h2, Serve(p), []);
    StepFirst(h1, Bind(p, l), [Serve(p)]);
    StepFirst(h, CheckAgain(p), [Bind(p, l), Serve(p)]);
    assert [CheckAgain(p)] + [Bind(p, l), Serve(p)] == [CheckAgain(p), Bind(p, l), Serve(p)];
    assert [Bind(p, l)] + [Serve(p)] == [Bind(p, l), Serve(p)] && [Serve(p)] + [] == [Serve(p)];
  }

  /** From a look that found a socket. */
  lemma StaleLap(h: Host, p: Pid, l: Listener)
    requires Is(h, p, SawSocket) && l !in h.owner
    ensures var s := [Probe(p, false), UnlinkStale(p)] + [CheckAgain(p), Bind(p, l), Serve(p)];
            Runs(h, s) && Is(After(h, s), p, Serving(l))
  {
    var last := [CheckAgain(p), Bind(p, l), Serve(p)];
    var h1 := Next(h, Probe(p, false));
    var h2 := Next(h1, UnlinkStale(p));
    LastLap(h2, p, l);
    StepFirst(h1, UnlinkStale(p), last);
    StepFirst(h, Probe(p, false), [UnlinkStale(p)] + last);
    assert [Probe(p, false)] + ([UnlinkStale(p)] + last) == [Probe(p, false), UnlinkStale(p)] + last;
  }

  lemma AlwaysRecovers(steps: seq<Step>, p: Pid, l: Listener)
    requires Runs(IDLE, steps)
    requires var h := After(IDLE, steps);
             (forall q :: q in h.procs ==> !HasLock(h.procs[q])) && p !in h.procs && l !in h.owner
    ensures var h := After(IDLE, steps);
            && h.lock == None && Runs(h, StartUp(h, p, l))
            && Is(After(h, StartUp(h, p, l)), p, Serving(l))
  {
    InvAlong(IDLE, steps);
    RecoversFrom(After(IDLE, steps), p, l);
  }

  lemma RecoversFrom(h: Host, p: Pid, l: Listener)
    requires h.lock == None && p !in h.procs && l !in h.owner
    ensures Runs(h, StartUp(h, p, l)) && Is(After(h, StartUp(h, p, l)), p, Serving(l))
  {
    var h1 := Next(h, Spawn(p));
    var h2 := Next(h1, TryLock(p));
    var h3 := Next(h2, LookForSocket(p));
    var last := [CheckAgain(p), Bind(p, l), Serve(p)];
    var rest := (if h.entry.Some? then [Probe(p, false), UnlinkStale(p)] else []) + last;
    if h.entry.Some? {
      StaleLap(h3, p, l);
    } else {
      LastLap(h3, p, l);
      assert rest == last;
    }
    StepFirst(h2, LookForSocket(p), rest);
    StepFirst(h1, TryLock(p), [LookForSocket(p)] + rest);
    StepFirst(h, Spawn(p), [TryLock(p)] + ([LookForSocket(p)] + rest));
    assert StartUp(h, p, l) == [Spawn(p)] + ([TryLock(p)] + ([LookForSocket(p)] + rest));
  }
}
