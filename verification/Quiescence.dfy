/** No storms: whatever the network, the failures and the order of steps do, the
    mesh does a bounded amount of work for each thing a user does, and comes to rest. */
module Quiescence {
  import opened Prelude
  import opened Nodes
  import opened Mesh

  /** Files of a node that a user wrote and whose event is still to come: the only
      ones whose event can send an Upsert. */
  function Unsent(n: Node): set<Rel> { n.dirty * n.local }

  /** `k * c`, by repeated addition: this keeps the proofs below linear. */
  function Times(k: nat, c: nat): nat { if c == 0 then 0 else k + Times(k, c - 1) }

  lemma {:induction false} TimesIsProduct(k: nat, c: nat)
    ensures Times(k, c) == k * c
  {
    if c > 0 { TimesIsProduct(k, c - 1); }
  }

  lemma {:induction false} TimesMonotone(k: nat, a: nat, b: nat)
    requires a <= b
    ensures Times(k, a) <= Times(k, b)
  {
    if a < b { TimesMonotone(k, a, b - 1); }
  }

  lemma {:induction false} TimesSum(k: nat, a: nat, b: nat)
    ensures Times(k, a + b) == Times(k, a) + Times(k, b)
  {
    if b > 0 { TimesSum(k, a, b - 1); }
  }

  // The work that an item can still cause in a mesh of `k` nodes: a Tombstone is
  // one delivery; an event may broadcast a Tombstone; a file may be unlinked and
  // leave an event; an Upsert may leave a file and an event; an unsent file may
  // broadcast an Upsert.
  function UpsertWork(k: nat): nat { 2 * k + 1 }

  function UnsentWork(k: nat): nat { Times(UpsertWork(k), k) }

  function NodeWork(n: Node, k: nat): nat {
    Times(UnsentWork(k), |Unsent(n)|) + Times(k, |n.files|) + Times(k, |n.dirty|)
  }

  function NodesWork(nodes: seq<Node>, k: nat): nat {
    if nodes == [] then 0 else NodeWork(nodes[0], k) + NodesWork(nodes[1..], k)
  }

  /** The bound on the steps left before the mesh is quiescent. */
  function Work(s: State): nat {
    var k := |s.nodes|;
    NodesWork(s.nodes, k) + Times(UpsertWork(k), |s.upserts|) + |s.tombstones|
  }

  lemma {:induction false} NodesWorkUpdate(nodes: seq<Node>, i: nat, n: Node, k: nat)
    requires i < |nodes|
    ensures NodesWork(nodes[i := n], k) == NodesWork(nodes, k) - NodeWork(nodes[i], k) + NodeWork(n, k)
  {
    var changed := nodes[i := n];
    if i == 0 {
      assert changed[1..] == nodes[1..];
    } else {
      assert changed[1..] == nodes[1..][i - 1 := n];
      NodesWorkUpdate(nodes[1..], i - 1, n, k);
    }
  }

  lemma MinusOne<T>(s: set<T>, x: T)
    ensures |s - {x}| == if x in s then |s| - 1 else |s|
  {
    if x !in s { assert s - {x} == s; }
  }

  lemma PlusOne<T>(s: set<T>, x: T)
    ensures |s + {x}| == if x in s then |s| else |s| + 1
  {
    if x in s { assert s + {x} == s; }
  }

  lemma MapPlusOne<K, V>(m: map<K, V>, k: K, v: V)
    ensures |m[k := v]| <= |m| + 1
    ensures k in m ==> |m[k := v]| == |m|
  {
    assert m[k := v].Keys == m.Keys + {k};
    PlusOne(m.Keys, k);
    assert |m[k := v].Keys| == |m[k := v]| && |m.Keys| == |m|;
  }

  lemma MapMinusOne<K, V>(m: map<K, V>, k: K)
    ensures |m - {k}| == if k in m then |m| - 1 else |m|
  {
    assert (m - {k}).Keys == m.Keys - {k};
    MinusOne(m.Keys, k);
    assert |(m - {k}).Keys| == |m - {k}| && |m.Keys| == |m|;
  }

  lemma UnsentOnly<T>(a: set<T>, b: set<T>)
    requires a <= b
    ensures |a| <= |b|
  {
    var rest := b - a;
    assert b == a + rest;
  }

  lemma UpsertWorkDelivered(n: Node, p: Rel, bytes: Bytes, from: PeerId, fate: UpsertFate, k: nat)
    requires UpsertPossible(n, p, bytes, fate)
    ensures NodeWork(ReceiveUpsert(n, p, bytes, from, fate), k) <= NodeWork(n, k) + 2 * k
  {
    var m := ReceiveUpsert(n, p, bytes, from, fate);
    UnsentOnly(Unsent(m), Unsent(n));
    TimesMonotone(UnsentWork(k), |Unsent(m)|, |Unsent(n)|);
    PlusOne(n.dirty, p);
    MapPlusOne(n.files, p, bytes);
    MapMinusOne(n.files, p);
  }

  lemma TombstoneWorkDelivered(n: Node, p: Rel, fate: TombstoneFate, k: nat)
    ensures NodeWork(ReceiveTombstone(n, p, fate), k) <= NodeWork(n, k)
  {
    var m := ReceiveTombstone(n, p, fate);
    UnsentOnly(Unsent(m), Unsent(n));
    TimesMonotone(UnsentWork(k), |Unsent(m)|, |Unsent(n)|);
    PlusOne(n.dirty, p);
    MapMinusOne(n.files, p);
  }

  lemma EventFrame(n: Node, p: Rel, removeKind: bool, sent: bool)
    ensures var m := OnEvent(n, p, removeKind, sent).0;
            m.files == n.files && m.local == n.local && m.dirty == n.dirty - {p}
  {
  }

  /** What an event does to the three counts. */
  lemma EventCounts(n: Node, p: Rel, removeKind: bool, sent: bool)
    requires Coherent(n) && p in n.dirty
    ensures var (m, out) := OnEvent(n, p, removeKind, sent);
            && m.files == n.files
            && |m.dirty| == |n.dirty| - 1
            && (out.SendUpsert? ==> p in Unsent(n) && |Unsent(m)| == |Unsent(n)| - 1)
            && |Unsent(m)| <= |Unsent(n)|
  {
    var (m, out) := OnEvent(n, p, removeKind, sent);
    EventFrame(n, p, removeKind, sent);
    Fewer(n, m, p);
    if out.SendUpsert? {
      assert p in Unsent(n);
    }
  }

  lemma Fewer(n: Node, m: Node, p: Rel)
    requires p in n.dirty && m.local == n.local && m.dirty == n.dirty - {p}
    ensures |m.dirty| == |n.dirty| - 1
    ensures |Unsent(m)| == |Unsent(n)| - if p in Unsent(n) then 1 else 0
  {
    assert Unsent(m) == Unsent(n) - {p};
    MinusOne(n.dirty, p);
    MinusOne(Unsent(n), p);
  }

  lemma EventWorkDone(n: Node, p: Rel, removeKind: bool, sent: bool, k: nat)
    requires Coherent(n) && p in n.dirty
    ensures var (m, out) := OnEvent(n, p, removeKind, sent);
            NodeWork(m, k) <= NodeWork(n, k) - k - (if out.SendUpsert? then UnsentWork(k) else 0)
  {
    var (m, out) := OnEvent(n, p, removeKind, sent);
    EventCounts(n, p, removeKind, sent);
    LighterBy(n, m, k, if out.SendUpsert? then 1 else 0);
  }

  lemma LighterBy(n: Node, m: Node, k: nat, unsent: nat)
    requires unsent <= 1 && m.files == n.files && |m.dirty| == |n.dirty| - 1
    requires |Unsent(m)| + unsent <= |Unsent(n)|
    ensures NodeWork(m, k) <= NodeWork(n, k) - k - (if unsent == 1 then UnsentWork(k) else 0)
  {
    TimesMonotone(UnsentWork(k), |Unsent(m)| + unsent, |Unsent(n)|);
  }

  lemma EventInFlight(s: State, n: nat, p: Rel, removeKind: bool, sent: bool)
    requires Enabled(s, Event(n, p, removeKind, sent))
    ensures var (m, out) := OnEvent(s.nodes[n], p, removeKind, sent);
            var t := Next(s, Event(n, p, removeKind, sent));
            && t.nodes == s.nodes[n := m]
            && |t.upserts| == |s.upserts| + (if out.SendUpsert? then |s.nodes| - 1 else 0)
            && |t.tombstones| == |s.tombstones| + (if out.SendTombstone? then |s.nodes| - 1 else 0)
  {
    BroadcastCopies(|s.nodes|, n, p, OnEvent(s.nodes[n], p, removeKind, sent).1);
  }

  lemma EventNodesWork(nodes: seq<Node>, n: nat, p: Rel, removeKind: bool, sent: bool)
    requires AllCoherent(nodes) && n < |nodes| && p in nodes[n].dirty
    ensures var (m, out) := OnEvent(nodes[n], p, removeKind, sent);
            var k := |nodes|;
            NodesWork(nodes[n := m], k) + k + (if out.SendUpsert? then UnsentWork(k) else 0) <= NodesWork(nodes, k)
  {
    EventWorkDone(nodes[n], p, removeKind, sent, |nodes|);
    NodesWorkUpdate(nodes, n, OnEvent(nodes[n], p, removeKind, sent).0, |nodes|);
  }

  lemma EventShrinks(s: State, n: nat, p: Rel, removeKind: bool, sent: bool)
    requires Coherence(s) && Enabled(s, Event(n, p, removeKind, sent))
    ensures Work(Next(s, Event(n, p, removeKind, sent))) < Work(s)
  {
    var (m, out) := OnEvent(s.nodes[n], p, removeKind, sent);
    EventInFlight(s, n, p, removeKind, sent);
    EventNodesWork(s.nodes, n, p, removeKind, sent);
    Shrunk(s, Next(s, Event(n, p, removeKind, sent)), out.SendUpsert?, out.SendTombstone?);
  }

  lemma Shrunk(s: State, t: State, up: bool, down: bool)
    requires |t.nodes| == |s.nodes| > 0 && !(up && down)
    requires var k := |s.nodes|;
             && NodesWork(t.nodes, k) + k + (if up then UnsentWork(k) else 0) <= NodesWork(s.nodes, k)
             && |t.upserts| == |s.upserts| + (if up then k - 1 else 0)
             && |t.tombstones| == |s.tombstones| + (if down then k - 1 else 0)
    ensures Work(t) < Work(s)
  {
    BroadcastPaid(|s.nodes|, |s.upserts|);
  }

  /** An unsent file weighs more than the copies of its broadcast. */
  lemma BroadcastPaid(k: nat, upserts: nat)
    requires k > 0
    ensures Times(UpsertWork(k), upserts + (k - 1)) + UpsertWork(k) == Times(UpsertWork(k), upserts) + UnsentWork(k)
  {
    TimesSum(UpsertWork(k), upserts, k - 1);
  }

  lemma UpsertShrinks(s: State, u: UpsertMsg, fate: UpsertFate)
    requires Coherence(s) && Enabled(s, DeliverUpsert(u, fate))
    ensures Work(Next(s, DeliverUpsert(u, fate))) < Work(s)
  {
    var k := |s.nodes|;
    var m := ReceiveUpsert(s.nodes[u.to], u.path, u.bytes, s.nodes[u.from].id, fate);
    NodesWorkUpdate(s.nodes, u.to, m, k);
    UpsertWorkDelivered(s.nodes[u.to], u.path, u.bytes, s.nodes[u.from].id, fate, k);
    assert |s.upserts - multiset{u}| == |s.upserts| - 1;
  }

  lemma TombstoneShrinks(s: State, t: TombstoneMsg, fate: TombstoneFate)
    requires Coherence(s) && Enabled(s, DeliverTombstone(t, fate))
    ensures Work(Next(s, DeliverTombstone(t, fate))) < Work(s)
  {
    var k := |s.nodes|;
    var m := ReceiveTombstone(s.nodes[t.to], t.path, fate);
    NodesWorkUpdate(s.nodes, t.to, m, k);
    TombstoneWorkDelivered(s.nodes[t.to], t.path, fate, k);
    assert |s.tombstones - multiset{t}| == |s.tombstones| - 1;
  }

  /** A step nobody asked for uses up work, whatever it is and however it ends. */
  lemma WorkShrinks(s: State, step: Step)
    requires Coherence(s) && Enabled(s, step) && !ByUser(step)
    ensures Work(Next(s, step)) < Work(s)
  {
    match step
    case Event(n, p, removeKind, sent) => EventShrinks(s, n, p, removeKind, sent);
    case DeliverUpsert(u, fate) => UpsertShrinks(s, u, fate);
    case DeliverTombstone(t, fate) => TombstoneShrinks(s, t, fate);
  }

  /** The work one user action can cause. */
  function ActionWork(k: nat): nat { UnsentWork(k) + 2 * k }

  lemma HeavierBy(n: Node, m: Node, k: nat)
    requires |Unsent(m)| <= |Unsent(n)| + 1 && |m.files| <= |n.files| + 1 && |m.dirty| <= |n.dirty| + 1
    ensures NodeWork(m, k) <= NodeWork(n, k) + ActionWork(k)
  {
    TimesMonotone(UnsentWork(k), |Unsent(m)|, |Unsent(n)| + 1);
    TimesMonotone(k, |m.files|, |n.files| + 1);
    TimesMonotone(k, |m.dirty|, |n.dirty| + 1);
  }

  lemma UnsentGrows(n: Node, m: Node, p: Rel)
    requires m.dirty == n.dirty + {p} && m.local <= n.local + {p}
    ensures |Unsent(m)| <= |Unsent(n)| + 1 && |m.dirty| <= |n.dirty| + 1
  {
    PlusOne(n.dirty, p);
    PlusOne(Unsent(n), p);
    UnsentOnly(Unsent(m), Unsent(n) + {p});
  }

  lemma WriteNodeWork(n: Node, p: Rel, bytes: Bytes, k: nat)
    ensures NodeWork(UserWrite(n, p, bytes), k) <= NodeWork(n, k) + ActionWork(k)
  {
    UnsentGrows(n, UserWrite(n, p, bytes), p);
    MapPlusOne(n.files, p, bytes);
    HeavierBy(n, UserWrite(n, p, bytes), k);
  }

  lemma DeleteNodeWork(n: Node, p: Rel, k: nat)
    ensures NodeWork(UserDelete(n, p), k) <= NodeWork(n, k) + ActionWork(k)
  {
    UnsentGrows(n, UserDelete(n, p), p);
    MapMinusOne(n.files, p);
    HeavierBy(n, UserDelete(n, p), k);
  }

  lemma UserWork(s: State, step: Step)
    requires Enabled(s, step) && ByUser(step)
    ensures Work(Next(s, step)) <= Work(s) + ActionWork(|s.nodes|)
  {
    var n, p, k := s.nodes[step.n], step.path, |s.nodes|;
    if step.Write? {
      WriteNodeWork(n, p, step.bytes, k);
      NodesWorkUpdate(s.nodes, step.n, UserWrite(n, p, step.bytes), k);
    } else {
      DeleteNodeWork(n, p, k);
      NodesWorkUpdate(s.nodes, step.n, UserDelete(n, p), k);
    }
  }

  function UserActions(steps: seq<Step>): nat {
    if steps == [] then 0 else (if ByUser(steps[0]) then 1 else 0) + UserActions(steps[1..])
  }

  lemma StepWork(s: State, step: Step)
    requires Coherence(s) && Enabled(s, step)
    ensures var t := Next(s, step);
            && Coherence(t) && |t.nodes| == |s.nodes|
            && if ByUser(step) then Work(t) <= Work(s) + ActionWork(|s.nodes|) else Work(t) + 1 <= Work(s)
  {
    CoherenceKept(s, step);
    if ByUser(step) { UserWork(s, step); } else { WorkShrinks(s, step); }
  }

  lemma {:induction false} CoherenceAlong(s: State, steps: seq<Step>)
    requires Coherence(s) && Runs(s, steps)
    ensures Coherence(After(s, steps)) && |After(s, steps).nodes| == |s.nodes|
    decreases |steps|
  {
    if steps != [] {
      StepWork(s, steps[0]);
      CoherenceAlong(Next(s, steps[0]), steps[1..]);
    }
  }

  lemma {:induction false} ActivityBound(s: State, steps: seq<Step>)
    requires Coherence(s) && Runs(s, steps)
    ensures Bounded(|steps|, UserActions(steps), Work(s), Work(After(s, steps)), ActionWork(|s.nodes|))
    decreases |steps|
  {
    if steps != [] {
      var t := Next(s, steps[0]);
      StepWork(s, steps[0]);
      ActivityBound(t, steps[1..]);
      assert After(s, steps) == After(t, steps[1..]);
      OneMore(|steps|, UserActions(steps[1..]), ByUser(steps[0]), Work(s), Work(t), Work(After(s, steps)), ActionWork(|s.nodes|));
    }
  }

  /** Main result: over every run, the steps users did not take are bounded by the
      work the run started with plus a constant for each user action. */
  lemma {:induction false} BoundedActivity(s: State, steps: seq<Step>)
    requires Coherence(s) && Runs(s, steps)
    ensures |steps| - UserActions(steps) + Work(After(s, steps))
            <= Work(s) + ActionWork(|s.nodes|) * UserActions(steps)
  {
    ActivityBound(s, steps);
    TimesIsProduct(ActionWork(|s.nodes|), UserActions(steps));
  }

  /** So many steps, so many of them by users, with this work before and after them. */
  predicate Bounded(steps: nat, actions: nat, before: nat, after: nat, action: nat) {
    steps - actions + after <= before + Times(action, actions)
  }

  lemma OneMore(steps: nat, actions: nat, user: bool, before: nat, between: nat, after: nat, action: nat)
    requires steps > 0 && Bounded(steps - 1, actions, between, after, action)
    requires if user then between <= before + action else between + 1 <= before
    ensures Bounded(steps, (if user then 1 else 0) + actions, before, after, action)
  {
  }

  /** A step the mesh can take by itself when it is not quiescent. */
  lemma StepLeft(s: State) returns (step: Step)
    requires Coherence(s) && !Quiescent(s)
    ensures Enabled(s, step) && !ByUser(step)
  {
    if s.upserts != multiset{} {
      var u :| u in s.upserts;
      step := DeliverUpsert(u, Ignored);
    } else if s.tombstones != multiset{} {
      var t :| t in s.tombstones;
      step := DeliverTombstone(t, TIgnored);
    } else {
      var i :| 0 <= i < |s.nodes| && s.nodes[i].dirty != {};
      var p :| p in s.nodes[i].dirty;
      step := Event(i, p, false, true);
    }
  }

  /** No deadlock: the mesh can go on by itself exactly when it is not quiescent. */
  lemma NoDeadlock(s: State)
    requires Coherence(s)
    ensures !Quiescent(s) <==> exists step :: Enabled(s, step) && !ByUser(step)
  {
    if !Quiescent(s) {
      var step := StepLeft(s);
    }
  }

  /** Once users stop, no schedule can be followed for more steps than there is work. */
  lemma EveryRunStops(s: State, run: nat -> Step)
    requires Coherence(s)
    requires forall i :: !ByUser(run(i))
    ensures !Runs(s, Prefix(run, Work(s) + 1))
  {
    var steps := Prefix(run, Work(s) + 1);
    if Runs(s, steps) {
      PrefixOf(run, Work(s) + 1);
      StopsWithoutUsers(s, steps);
    }
  }

  lemma {:induction false} StopsWithoutUsers(s: State, steps: seq<Step>)
    requires Coherence(s) && Runs(s, steps)
    requires forall k :: 0 <= k < |steps| ==> !ByUser(steps[k])
    ensures |steps| <= Work(s)
  {
    NoUserActions(steps);
    ActivityBound(s, steps);
    assert Times(ActionWork(|s.nodes|), 0) == 0;
  }

  /** The first `m` steps of an infinite schedule. */
  function Prefix(run: nat -> Step, m: nat): seq<Step> {
    if m == 0 then [] else Prefix(run, m - 1) + [run(m - 1)]
  }

  lemma {:induction false} PrefixOf(run: nat -> Step, m: nat)
    ensures |Prefix(run, m)| == m && forall i :: 0 <= i < m ==> Prefix(run, m)[i] == run(i)
  {
    if m > 0 { PrefixOf(run, m - 1); }
  }

  lemma {:induction false} NoUserActions(steps: seq<Step>)
    requires forall i :: 0 <= i < |steps| ==> !ByUser(steps[i])
    ensures UserActions(steps) == 0
  {
    if steps != [] { NoUserActions(steps[1..]); }
  }

  // ---------------------------------------------------------------- Upserts sent

  /** The closure calls in a run that broadcast an Upsert. */
  function UpsertsSent(s: State, steps: seq<Step>): nat
    requires Runs(s, steps)
    decreases |steps|
  {
    if steps == [] then 0
    else (if SendsUpsert(s, steps[0]) then 1 else 0) + UpsertsSent(Next(s, steps[0]), steps[1..])
  }

  function Writes(steps: seq<Step>): nat {
    if steps == [] then 0 else (if steps[0].Write? then 1 else 0) + Writes(steps[1..])
  }

  function UnsentIn(nodes: seq<Node>): nat {
    if nodes == [] then 0 else |Unsent(nodes[0])| + UnsentIn(nodes[1..])
  }

  lemma {:induction false} UnsentUpdate(nodes: seq<Node>, i: nat, n: Node)
    requires i < |nodes|
    ensures UnsentIn(nodes[i := n]) == UnsentIn(nodes) - |Unsent(nodes[i])| + |Unsent(n)|
  {
    var changed := nodes[i := n];
    if i == 0 {
      assert changed[1..] == nodes[1..];
    } else {
      assert changed[1..] == nodes[1..][i - 1 := n];
      UnsentUpdate(nodes[1..], i - 1, n);
    }
  }

  predicate SendsUpsert(s: State, step: Step)
    requires Enabled(s, step)
  {
    step.Event? && OnEvent(s.nodes[step.n], step.path, step.removeKind, step.sent).1.SendUpsert?
  }

  /** The node a step changes. */
  function Target(step: Step): nat {
    match step
    case Write(n, _, _) => n
    case Delete(n, _) => n
    case Event(n, _, _, _) => n
    case DeliverUpsert(u, _) => u.to
    case DeliverTombstone(t, _) => t.to
  }

  lemma UnsentAtTarget(s: State, step: Step)
    requires Coherence(s) && Enabled(s, step)
    ensures |Unsent(Next(s, step).nodes[Target(step)])| + (if SendsUpsert(s, step) then 1 else 0)
            <= |Unsent(s.nodes[Target(step)])| + (if step.Write? then 1 else 0)
  {
    var n := s.nodes[Target(step)];
    var m := Next(s, step).nodes[Target(step)];
    match step
    case Write(_, p, _) =>
      assert Unsent(m) == Unsent(n) + {p};
      PlusOne(Unsent(n), p);
    case Event(_, p, removeKind, sent) =>
      EventCounts(n, p, removeKind, sent);
    case _ =>
      UnsentOnly(Unsent(m), Unsent(n));
  }

  /** What one step does to the number of unsent files. */
  lemma UnsentMoves(s: State, step: Step)
    requires Coherence(s) && Enabled(s, step)
    ensures UnsentIn(Next(s, step).nodes) + (if SendsUpsert(s, step) then 1 else 0)
            <= UnsentIn(s.nodes) + (if step.Write? then 1 else 0)
  {
    UnsentAtTarget(s, step);
    UnsentUpdate(s.nodes, Target(step), Next(s, step).nodes[Target(step)]);
  }

  /** Main result: no received file is ever sent on as if it had been edited. In
      every run the Upserts broadcast are at most the files unsent at its start
      plus the user writes in it. */
  lemma {:induction false} NoUpsertAmplification(s: State, steps: seq<Step>)
    requires Coherence(s) && Runs(s, steps)
    ensures UpsertsSent(s, steps) + UnsentIn(After(s, steps).nodes) <= UnsentIn(s.nodes) + Writes(steps)
    decreases |steps|
  {
    if steps != [] {
      UnsentMoves(s, steps[0]);
      CoherenceKept(s, steps[0]);
      NoUpsertAmplification(Next(s, steps[0]), steps[1..]);
    }
  }

  /** Daemons that have been started, with any files and markers, before anything happens. */
  predicate JustStarted(s: State) {
    && s.upserts == multiset{} && s.tombstones == multiset{}
    && forall i :: 0 <= i < |s.nodes| ==> s.nodes[i].dirty == {} && s.nodes[i].local == {}
  }

  /** From there on nothing is ever sent but for a write: the Upserts of any run are at
      most the writes of users in it; and when users have stopped the mesh comes to rest. */
  lemma FromTheStart(s: State, steps: seq<Step>, run: nat -> Step)
    requires JustStarted(s) && Runs(s, steps) && forall i :: !ByUser(run(i))
    ensures UpsertsSent(s, steps) <= Writes(steps)
    ensures !Runs(After(s, steps), Prefix(run, Work(After(s, steps)) + 1))
    ensures !Quiescent(After(s, steps)) <==> exists step :: Enabled(After(s, steps), step) && !ByUser(step)
  {
    NothingUnsent(s.nodes);
    NoUpsertAmplification(s, steps);
    CoherenceAlong(s, steps);
    EveryRunStops(After(s, steps), run);
    NoDeadlock(After(s, steps));
  }

  lemma {:induction false} NothingUnsent(nodes: seq<Node>)
    requires forall i :: 0 <= i < |nodes| ==> nodes[i].dirty == {}
    ensures UnsentIn(nodes) == 0
  {
    if nodes != [] { NothingUnsent(nodes[1..]); }
  }
}
