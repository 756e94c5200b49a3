/** Any number of users write one path at once, in a mesh of any size. What each node ends
    with is decided by the order in which it takes in the updates that go out. */
module ManyWriters {
  import opened Prelude
  import opened Nodes
  import opened Mesh
  import opened LoneWriter
  import opened ConcurrentWrites
  import Quiescence

  /** A node at the path, without backups. */
  datatype View = View(file: Option<Bytes>, marker: Option<Hash>, dirty: bool)

  function ViewOf(n: Node, p: Rel): View {
    View(Lookup(n.files, p), Lookup(n.lastWritten, p), p in n.dirty)
  }

  /** What has been done with the path at a node: whether its user wrote, whether its
      update went out, whose updates it took in, and whether an event is to come. */
  datatype Progress = Progress(wrote: bool, sent: bool, taken: seq<nat>, awaits: bool)

  const NOTHING_DONE: Progress := Progress(false, false, [], false)

  function AfterDeed(g: Progress, step: Step): Progress {
    if ByUser(step) then g.(wrote := true, awaits := true)
    else if step.DeliverUpsert? then g.(taken := g.taken + [step.u.from], awaits := true)
    else g.(sent := g.sent || g.taken == [], awaits := false)
  }

  function Last(taken: seq<nat>): nat
    requires taken != []
  {
    taken[|taken| - 1]
  }

  function ContentOf(v: seq<Bytes>, j: nat): Bytes { if j < |v| then v[j] else [] }

  /** What a node `i` knows about the path, by what it knew before and by its progress. */
  function ViewAt(before: View, v: seq<Bytes>, i: nat, g: Progress): View {
    if g.taken != [] then
      var bytes := ContentOf(v, Last(g.taken));
      View(Some(bytes), if g.awaits then Some(Hash(bytes)) else None, g.awaits)
    else if g.wrote then
      View(Some(ContentOf(v, i)), if g.sent then Some(Hash(ContentOf(v, i))) else before.marker, g.awaits)
    else before
  }

  /** The update of `j` is on its way to `i`. */
  predicate InFlight(gs: seq<Progress>, j: nat, i: nat) {
    j < |gs| && i < |gs| && j != i && gs[j].sent && j !in gs[i].taken
  }

  function Letter(j: nat, i: nat, p: Rel, v: seq<Bytes>): UpsertMsg { UpsertMsg(i, j, p, ContentOf(v, j)) }

  ghost predicate LettersAre(s: State, p: Rel, v: seq<Bytes>, gs: seq<Progress>) {
    && (forall t :: t in s.tombstones ==> t.path != p)
    && (forall u :: u in s.upserts && u.path == p ==>
          s.upserts[u] == 1 && u == Letter(u.from, u.to, p, v) && InFlight(gs, u.from, u.to))
    && (forall j, i :: InFlight(gs, j, i) ==> Letter(j, i, p, v) in s.upserts)
  }

  predicate Distinct(taken: seq<nat>) {
    forall k, m :: 0 <= k < m < |taken| ==> taken[k] != taken[m]
  }

  predicate ProgressFits(gs: seq<Progress>, i: nat)
    requires i < |gs|
  {
    var g := gs[i];
    && (g.sent ==> g.wrote)
    && (g.taken == [] ==> (g.awaits <==> g.wrote && !g.sent))
    && Distinct(g.taken)
    && (forall j :: j in g.taken ==> j < |gs| && j != i && gs[j].sent)
  }

  predicate AllFit(gs: seq<Progress>) {
    forall i :: 0 <= i < |gs| ==> ProgressFits(gs, i)
  }

  ghost predicate Spread(b: State, s: State, p: Rel, v: seq<Bytes>, gs: seq<Progress>) {
    && |s.nodes| == |gs| == |b.nodes|
    && (forall i :: 0 <= i < |gs| ==> ViewOf(s.nodes[i], p) == ViewAt(ViewOf(b.nodes[i], p), v, i, gs[i]))
    && AllFit(gs) && LettersAre(s, p, v, gs)
  }

  /** The writes are small enough to be sent, and noticed. */
  predicate Sendable(b: State, p: Rel, v: seq<Bytes>, writers: set<nat>) {
    forall w :: w in writers ==>
      w < |b.nodes| && w < |v| && |v[w]| <= MAX_FILE_SIZE && Noticed(b, w, p, v[w])
  }

  function Start(n: nat): (gs: seq<Progress>)
    ensures |gs| == n && forall i :: 0 <= i < n ==> gs[i] == NOTHING_DONE
  {
    seq(n, _ => NOTHING_DONE)
  }

  lemma SpreadStarts(b: State, p: Rel, v: seq<Bytes>)
    requires QuietAt(b, p)
    ensures Spread(b, b, p, v, Start(|b.nodes|))
  {
  }

  // ---------------------------------------------------------------- one step

  lemma SpreadElsewhere(b: State, s: State, t: State, p: Rel, v: seq<Bytes>, gs: seq<Progress>)
    requires Spread(b, s, p, v, gs) && SameAt(s, t, p, "")
    ensures Spread(b, t, p, v, gs)
  {
    forall u: UpsertMsg | u.path == p ensures u in t.upserts <==> u in s.upserts {
      assert t.upserts[u] == s.upserts[u];
    }
    forall d: TombstoneMsg | d.path == p ensures d in t.tombstones <==> d in s.tombstones {
      assert t.tombstones[d] == s.tombstones[d];
    }
    forall i | 0 <= i < |gs| ensures ViewOf(t.nodes[i], p) == ViewOf(s.nodes[i], p) {
      assert SlotOf(t.nodes[i], p, "") == SlotOf(s.nodes[i], p, "");
    }
  }

  /** Only node `i` has changed, and its view is that of its new progress. */
  ghost predicate OnlyMoves(b: State, s: State, t: State, p: Rel, v: seq<Bytes>, i: nat, g: Progress)
    requires |b.nodes| == |s.nodes| && i < |s.nodes|
  {
    && |t.nodes| == |s.nodes|
    && (forall k :: 0 <= k < |s.nodes| && k != i ==> t.nodes[k] == s.nodes[k])
    && ViewOf(t.nodes[i], p) == ViewAt(ViewOf(b.nodes[i], p), v, i, g)
  }

  lemma OneMoved(b: State, s: State, t: State, p: Rel, v: seq<Bytes>, gs: seq<Progress>, i: nat, g: Progress)
    requires Spread(b, s, p, v, gs) && i < |gs| && OnlyMoves(b, s, t, p, v, i, g)
    requires AllFit(gs[i := g]) && LettersAre(t, p, v, gs[i := g])
    ensures Spread(b, t, p, v, gs[i := g])
  {
    forall k | 0 <= k < |gs|
      ensures ViewOf(t.nodes[k], p) == ViewAt(ViewOf(b.nodes[k], p), v, k, gs[i := g][k])
    {
    }
  }

  /** A step whose node sends more, or takes in more from senders, leaves the others fit. */
  lemma OthersFit(gs: seq<Progress>, i: nat, g: Progress)
    requires i < |gs| && AllFit(gs)
    requires gs[i].sent ==> g.sent
    requires ProgressFits(gs[i := g], i)
    ensures AllFit(gs[i := g])
  {
    var next := gs[i := g];
    forall k | 0 <= k < |next| ensures ProgressFits(next, k) {
      if k != i { assert ProgressFits(gs, k); }
    }
  }

  lemma WriteMoves(b: State, s: State, p: Rel, v: seq<Bytes>, gs: seq<Progress>, i: nat)
    requires Spread(b, s, p, v, gs) && i < |gs| && i < |v| && !gs[i].wrote && gs[i].taken == []
    ensures var step := Write(i, p, v[i]);
            Spread(b, Next(s, step), p, v, gs[i := AfterDeed(gs[i], step)])
  {
    var step := Write(i, p, v[i]);
    var t, g := Next(s, step), AfterDeed(gs[i], step);
    assert ProgressFits(gs, i);
    OthersFit(gs, i, g);
    SameFlights(s, t, p, v, gs, i, g);
    OneMoved(b, s, t, p, v, gs, i, g);
  }

  /** What is in flight depends on what was sent and taken in alone. */
  lemma SameFlights(s: State, t: State, p: Rel, v: seq<Bytes>, gs: seq<Progress>, i: nat, g: Progress)
    requires LettersAre(s, p, v, gs) && i < |gs| && g.sent == gs[i].sent && g.taken == gs[i].taken
    requires t.upserts == s.upserts && t.tombstones == s.tombstones
    ensures LettersAre(t, p, v, gs[i := g])
  {
    forall j: nat, k: nat ensures InFlight(gs[i := g], j, k) <==> InFlight(gs, j, k) {}
  }

  /** A node is dirty at the path exactly when its progress says that an event is to come. */
  lemma ViewTells(b: State, s: State, p: Rel, v: seq<Bytes>, gs: seq<Progress>, i: nat)
    requires QuietAt(b, p) && Spread(b, s, p, v, gs) && i < |gs|
    ensures p in s.nodes[i].dirty <==> gs[i].awaits
    ensures gs[i].taken != [] || gs[i].wrote ==>
              Lookup(s.nodes[i].files, p) == Some(ContentOf(v, if gs[i].taken != [] then Last(gs[i].taken) else i))
  {
    assert ProgressFits(gs, i);
    assert ViewOf(s.nodes[i], p) == ViewAt(ViewOf(b.nodes[i], p), v, i, gs[i]);
    assert !ViewOf(b.nodes[i], p).dirty;
  }

  /** The event of an own write that nothing has overtaken. */
  lemma SendMoves(b: State, s: State, p: Rel, v: seq<Bytes>, gs: seq<Progress>, writers: set<nat>, i: nat)
    requires QuietAt(b, p) && Sendable(b, p, v, writers) && Spread(b, s, p, v, gs) && i in writers && i < |gs|
    requires gs[i].taken == [] && Enabled(s, Event(i, p, false, true))
    ensures var step := Event(i, p, false, true);
            Spread(b, Next(s, step), p, v, gs[i := AfterDeed(gs[i], step)])
  {
    var step := Event(i, p, false, true);
    var t, g := Next(s, step), AfterDeed(gs[i], step);
    ViewTells(b, s, p, v, gs, i);
    assert ProgressFits(gs, i);
    assert ViewOf(s.nodes[i], p) == View(Some(v[i]), Lookup(b.nodes[i].lastWritten, p), true);
    ViewSent(s.nodes[i], p);
    OthersFit(gs, i, g);
    SenderLetters(s, t, p, v, gs, i, g);
    OneMoved(b, s, t, p, v, gs, i, g);
  }

  lemma ViewSent(n: Node, p: Rel)
    requires p in n.files && |n.files[p]| <= MAX_FILE_SIZE && Lookup(n.lastWritten, p) != Some(Hash(n.files[p]))
    ensures var (m, out) := OnEvent(n, p, false, true);
            out == SendUpsert(n.files[p]) && ViewOf(m, p) == View(Some(n.files[p]), Some(Hash(n.files[p])), false)
  {
  }

  lemma SenderLetters(s: State, t: State, p: Rel, v: seq<Bytes>, gs: seq<Progress>, i: nat, g: Progress)
    requires |s.nodes| == |gs| && i < |gs| && LettersAre(s, p, v, gs) && !gs[i].sent
    requires AllFit(gs)
    requires g.sent && g.taken == gs[i].taken
    requires t.tombstones == s.tombstones && t.upserts == s.upserts + UpsertCopies(|gs|, i, p, ContentOf(v, i))
    ensures LettersAre(t, p, v, gs[i := g])
  {
    var next := gs[i := g];
    forall j: nat, k: nat ensures InFlight(next, j, k) <==> InFlight(gs, j, k) || (j == i && k < |gs| && k != i) {
      FlightsOfNewSender(gs, i, g, j, k);
    }
    forall u | u in t.upserts && u.path == p
      ensures t.upserts[u] == 1 && u == Letter(u.from, u.to, p, v) && InFlight(next, u.from, u.to)
    {
      NewSendersLetter(s, t, p, v, gs, i, u);
    }
    forall j: nat, k: nat | InFlight(next, j, k) ensures Letter(j, k, p, v) in t.upserts {
      if j == i { NewSendersCopy(s, t, p, v, gs, i, k); }
    }
  }

  lemma NewSendersCopy(s: State, t: State, p: Rel, v: seq<Bytes>, gs: seq<Progress>, i: nat, k: nat)
    requires k < |gs| && k != i && t.upserts == s.upserts + UpsertCopies(|gs|, i, p, ContentOf(v, i))
    ensures Letter(i, k, p, v) in t.upserts
  {
    UpsertCopyAt(|gs|, i, p, ContentOf(v, i), Letter(i, k, p, v));
  }

  lemma NewSendersLetter(s: State, t: State, p: Rel, v: seq<Bytes>, gs: seq<Progress>, i: nat, u: UpsertMsg)
    requires i < |gs| && LettersAre(s, p, v, gs) && !gs[i].sent && u in t.upserts && u.path == p
    requires t.upserts == s.upserts + UpsertCopies(|gs|, i, p, ContentOf(v, i))
    ensures t.upserts[u] == 1 && u == Letter(u.from, u.to, p, v)
    ensures InFlight(gs, u.from, u.to) || (u.from == i && u.to < |gs| && u.to != i)
  {
    UpsertCopyAt(|gs|, i, p, ContentOf(v, i), u);
    if u in s.upserts {
      assert u.from != i;
    }
  }

  lemma FlightsOfNewSender(gs: seq<Progress>, i: nat, g: Progress, j: nat, k: nat)
    requires i < |gs| && !gs[i].sent && g.sent && g.taken == gs[i].taken
    requires AllFit(gs)
    ensures InFlight(gs[i := g], j, k) <==> InFlight(gs, j, k) || (j == i && k < |gs| && k != i)
  {
    if k < |gs| { assert ProgressFits(gs, k); }
  }

  /** The event of an update taken in. */
  lemma AbsorbMoves(b: State, s: State, p: Rel, v: seq<Bytes>, gs: seq<Progress>, i: nat)
    requires QuietAt(b, p) && Spread(b, s, p, v, gs) && i < |gs|
    requires gs[i].taken != [] && Enabled(s, Event(i, p, false, true))
    ensures var step := Event(i, p, false, true);
            Spread(b, Next(s, step), p, v, gs[i := AfterDeed(gs[i], step)])
  {
    var step := Event(i, p, false, true);
    var t, g := Next(s, step), AfterDeed(gs[i], step);
    ViewTells(b, s, p, v, gs, i);
    assert ProgressFits(gs, i);
    ViewAbsorbed(s.nodes[i], p);
    OthersFit(gs, i, g);
    SameFlights(s, t, p, v, gs, i, g);
    OneMoved(b, s, t, p, v, gs, i, g);
  }

  lemma ViewAbsorbed(n: Node, p: Rel)
    requires p in n.files && Lookup(n.lastWritten, p) == Some(Hash(n.files[p]))
    ensures var (m, out) := OnEvent(n, p, false, true);
            out == Nothing && ViewOf(m, p) == View(Some(n.files[p]), None, false)
  {
  }

  lemma DeliveryMoves(b: State, s: State, p: Rel, v: seq<Bytes>, gs: seq<Progress>, u: UpsertMsg)
    requires Spread(b, s, p, v, gs) && u.path == p && Enabled(s, DeliverUpsert(u, Applied(true)))
    ensures var step := DeliverUpsert(u, Applied(true));
            u.to < |gs| && Spread(b, Next(s, step), p, v, gs[u.to := AfterDeed(gs[u.to], step)])
  {
    var step := DeliverUpsert(u, Applied(true));
    var i := u.to;
    var t, g := Next(s, step), AfterDeed(gs[i], step);
    assert s.upserts[u] == 1 && u == Letter(u.from, i, p, v) && InFlight(gs, u.from, i);
    assert ProgressFits(gs, i);
    TakenFits(gs, i, u.from, g);
    OthersFit(gs, i, g);
    ReceiverLetters(s, t, p, v, gs, u, g);
    assert Last(g.taken) == u.from;
    OneMoved(b, s, t, p, v, gs, i, g);
  }

  lemma TakenFits(gs: seq<Progress>, i: nat, j: nat, g: Progress)
    requires i < |gs| && ProgressFits(gs, i) && InFlight(gs, j, i)
    requires g == gs[i].(taken := gs[i].taken + [j], awaits := true)
    ensures ProgressFits(gs[i := g], i)
  {
  }

  lemma ReceiverLetters(s: State, t: State, p: Rel, v: seq<Bytes>, gs: seq<Progress>, u: UpsertMsg, g: Progress)
    requires LettersAre(s, p, v, gs) && u in s.upserts && u.path == p && u.to < |gs|
    requires g.sent == gs[u.to].sent && g.taken == gs[u.to].taken + [u.from]
    requires t.tombstones == s.tombstones && t.upserts == s.upserts - multiset{u}
    ensures LettersAre(t, p, v, gs[u.to := g])
  {
    var next := gs[u.to := g];
    forall j: nat, k: nat ensures InFlight(next, j, k) <==> InFlight(gs, j, k) && !(j == u.from && k == u.to) {}
    assert s.upserts[u] == 1 && u !in t.upserts;
    forall m | m in t.upserts && m.path == p
      ensures t.upserts[m] == 1 && m == Letter(m.from, m.to, p, v) && InFlight(next, m.from, m.to)
    {
      assert m != u && m in s.upserts;
    }
    forall j: nat, k: nat | InFlight(next, j, k) ensures Letter(j, k, p, v) in t.upserts {
      assert Letter(j, k, p, v) != u && t.upserts[Letter(j, k, p, v)] == s.upserts[Letter(j, k, p, v)];
    }
  }

  // ---------------------------------------------------------------- runs

  /** No user does anything with `p` at node `i`. */
  predicate NoWrite(steps: seq<Step>, p: Rel, i: nat) {
    forall k :: 0 <= k < |steps| ==> !(Concerns(steps[k], p, i) && ByUser(steps[k]))
  }

  /** The writers write once, before they take in anything; nobody else writes. */
  predicate WritesOnce(steps: seq<Step>, p: Rel, v: seq<Bytes>, writers: set<nat>, gs: seq<Progress>, i: nat)
    requires i < |gs|
  {
    if i in writers then OneWrite(steps, p, i, ContentOf(v, i), gs[i].wrote) && (!gs[i].wrote ==> gs[i].taken == [])
    else NoWrite(steps, p, i) && !gs[i].wrote
  }

  predicate AllWriteOnce(steps: seq<Step>, p: Rel, v: seq<Bytes>, writers: set<nat>, gs: seq<Progress>) {
    forall i :: 0 <= i < |gs| ==> WritesOnce(steps, p, v, writers, gs, i)
  }

  function AfterStep(gs: seq<Progress>, step: Step, p: Rel): (next: seq<Progress>)
    ensures |next| == |gs|
  {
    var i := Quiescence.Target(step);
    if PathOf(step) == p && i < |gs| then gs[i := AfterDeed(gs[i], step)] else gs
  }

  lemma WritesOnceNext(steps: seq<Step>, p: Rel, v: seq<Bytes>, writers: set<nat>, gs: seq<Progress>, i: nat)
    requires steps != [] && i < |gs| && WritesOnce(steps, p, v, writers, gs, i)
    ensures WritesOnce(steps[1..], p, v, writers, AfterStep(gs, steps[0], p), i)
    ensures Concerns(steps[0], p, i) ==>
              if ByUser(steps[0]) then i in writers && !gs[i].wrote && gs[i].taken == [] && steps[0] == Write(i, p, ContentOf(v, i))
              else i in writers ==> gs[i].wrote
  {
    if i !in writers {
      assert !(Concerns(steps[0], p, i) && ByUser(steps[0]));
      forall k | 0 <= k < |steps[1..]| ensures !(Concerns(steps[1..][k], p, i) && ByUser(steps[1..][k])) {
        assert steps[1..][k] == steps[k + 1];
      }
    }
  }

  lemma SpreadStep(b: State, s: State, p: Rel, v: seq<Bytes>, writers: set<nat>, gs: seq<Progress>, steps: seq<Step>)
    requires QuietAt(b, p) && Sendable(b, p, v, writers) && Spread(b, s, p, v, gs)
    requires steps != [] && AllWriteOnce(steps, p, v, writers, gs)
    requires Enabled(s, steps[0]) && NoFailureAt(s, steps[0], p)
    ensures Spread(b, Next(s, steps[0]), p, v, AfterStep(gs, steps[0], p))
  {
    var step := steps[0];
    var i := Quiescence.Target(step);
    if PathOf(step) != p {
      OtherPathsSame(s, step, p, "");
      SpreadElsewhere(b, s, Next(s, step), p, v, gs);
    } else if i < |gs| {
      assert WritesOnce(steps, p, v, writers, gs, i);
      WritesOnceNext(steps, p, v, writers, gs, i);
      OwnStep(b, s, p, v, writers, gs, step, i);
    }
  }

  lemma OwnStep(b: State, s: State, p: Rel, v: seq<Bytes>, writers: set<nat>, gs: seq<Progress>, step: Step, i: nat)
    requires QuietAt(b, p) && Sendable(b, p, v, writers) && Spread(b, s, p, v, gs)
    requires Enabled(s, step) && NoFailureAt(s, step, p) && Concerns(step, p, i) && i < |gs|
    requires if ByUser(step) then i in writers && !gs[i].wrote && gs[i].taken == [] && step == Write(i, p, ContentOf(v, i))
             else i !in writers ==> !gs[i].wrote
    ensures Spread(b, Next(s, step), p, v, gs[i := AfterDeed(gs[i], step)])
  {
    match step
    case Write(_, _, _) => WriteMoves(b, s, p, v, gs, i);
    case Event(_, _, removeKind, _) =>
      ViewTells(b, s, p, v, gs, i);
      assert ProgressFits(gs, i);
      if gs[i].taken == [] { SendMoves(b, s, p, v, gs, writers, i); } else { AbsorbMoves(b, s, p, v, gs, i); }
    case DeliverUpsert(u, _) => DeliveryMoves(b, s, p, v, gs, u);
    case _ =>
  }

  function AfterSteps(gs: seq<Progress>, steps: seq<Step>, p: Rel): (end: seq<Progress>)
    ensures |end| == |gs|
    decreases |steps|
  {
    if steps == [] then gs else AfterSteps(AfterStep(gs, steps[0], p), steps[1..], p)
  }

  lemma {:induction false} SpreadAlong(b: State, s: State, p: Rel, v: seq<Bytes>, writers: set<nat>, gs: seq<Progress>, steps: seq<Step>)
    requires QuietAt(b, p) && Sendable(b, p, v, writers) && Spread(b, s, p, v, gs)
    requires AllWriteOnce(steps, p, v, writers, gs) && Runs(s, steps) && NoFailureRun(s, steps, p)
    ensures Spread(b, After(s, steps), p, v, AfterSteps(gs, steps, p))
    decreases |steps|
  {
    if steps != [] {
      SpreadStep(b, s, p, v, writers, gs, steps);
      forall i | 0 <= i < |gs| ensures WritesOnce(steps[1..], p, v, writers, AfterStep(gs, steps[0], p), i) {
        assert WritesOnce(steps, p, v, writers, gs, i);
        WritesOnceNext(steps, p, v, writers, gs, i);
      }
      SpreadAlong(b, Next(s, steps[0]), p, v, writers, AfterStep(gs, steps[0], p), steps[1..]);
    }
  }

  /** Whose updates of `p` node `i` takes in, in that order. */
  function TakenBy(steps: seq<Step>, p: Rel, i: nat): seq<nat> {
    if steps == [] then []
    else if Concerns(steps[0], p, i) && steps[0].DeliverUpsert? then [steps[0].u.from] + TakenBy(steps[1..], p, i)
    else TakenBy(steps[1..], p, i)
  }

  lemma {:induction false} TakenAlong(gs: seq<Progress>, steps: seq<Step>, p: Rel, i: nat)
    requires i < |gs|
    ensures AfterSteps(gs, steps, p)[i].taken == gs[i].taken + TakenBy(steps, p, i)
    decreases |steps|
  {
    if steps != [] {
      var next := AfterStep(gs, steps[0], p);
      TakenAlong(next, steps[1..], p, i);
      if Concerns(steps[0], p, i) && steps[0].DeliverUpsert? {
        assert next[i].taken == gs[i].taken + [steps[0].u.from];
        Regroup(gs[i].taken, [steps[0].u.from], TakenBy(steps[1..], p, i));
      }
    }
  }

  lemma Regroup(a: seq<nat>, b: seq<nat>, c: seq<nat>)
    ensures (a + b) + c == a + (b + c)
  {
  }

  /** A writer's update has gone out exactly if nothing was taken in first, or the event of
      the write is still to come. */
  lemma {:induction false} SentAlong(gs: seq<Progress>, steps: seq<Step>, p: Rel, i: nat, bytes: Bytes)
    requires i < |gs| && OneWrite(steps, p, i, bytes, gs[i].wrote) && (!gs[i].wrote ==> gs[i].taken == [] && !gs[i].sent)
    ensures var e := AfterSteps(gs, steps, p)[i];
            && e.wrote
            && if gs[i].taken == [] && !gs[i].sent then
                 if TakenInFirst(steps, p, i) then !e.sent && e.taken != [] else e.sent || e.taken == []
               else e.sent == gs[i].sent
    decreases |steps|
  {
    if steps != [] {
      TakenAlong(AfterStep(gs, steps[0], p), steps[1..], p, i);
      SentAlong(AfterStep(gs, steps[0], p), steps[1..], p, i, bytes);
    }
  }

  lemma {:induction false} NeverWrote(gs: seq<Progress>, steps: seq<Step>, p: Rel, i: nat)
    requires i < |gs| && NoWrite(steps, p, i) && !gs[i].wrote
    ensures !AfterSteps(gs, steps, p)[i].wrote
    decreases |steps|
  {
    if steps != [] {
      assert !(Concerns(steps[0], p, i) && ByUser(steps[0]));
      forall k | 0 <= k < |steps[1..]| ensures !(Concerns(steps[1..][k], p, i) && ByUser(steps[1..][k])) {
        assert steps[1..][k] == steps[k + 1];
      }
      NeverWrote(AfterStep(gs, steps[0], p), steps[1..], p, i);
    }
  }

  // ---------------------------------------------------------------- the end

  /** A run from `b` in which each writer writes its content before it takes in an update,
      and nothing else is done to `p` and nothing fails on it. */
  ghost predicate ManyRun(b: State, steps: seq<Step>, p: Rel, v: seq<Bytes>, writers: set<nat>) {
    && Runs(b, steps) && NoFailureRun(b, steps, p)
    && forall i :: 0 <= i < |b.nodes| ==>
         if i in writers then OneWrite(steps, p, i, ContentOf(v, i), false) else NoWrite(steps, p, i)
  }

  /** A writer whose update goes out: none comes in before the event of its write. */
  predicate Sends(steps: seq<Step>, p: Rel, writers: set<nat>, j: nat) {
    j in writers && !TakenInFirst(steps, p, j)
  }

  /** The node whose content node `i` ends with: the last it took in, or its own. */
  function HeldFrom(steps: seq<Step>, p: Rel, i: nat): nat {
    if TakenBy(steps, p, i) == [] then i else Last(TakenBy(steps, p, i))
  }

  lemma RunSpreads(b: State, p: Rel, v: seq<Bytes>, writers: set<nat>, steps: seq<Step>)
    requires QuietAt(b, p) && Sendable(b, p, v, writers) && ManyRun(b, steps, p, v, writers)
    ensures Spread(b, After(b, steps), p, v, AfterSteps(Start(|b.nodes|), steps, p))
    ensures AllWriteOnce(steps, p, v, writers, Start(|b.nodes|))
  {
    SpreadStarts(b, p, v);
    assert AllWriteOnce(steps, p, v, writers, Start(|b.nodes|));
    SpreadAlong(b, b, p, v, writers, Start(|b.nodes|), steps);
  }

  lemma EndQuiet(b: State, p: Rel, v: seq<Bytes>, writers: set<nat>, steps: seq<Step>, i: nat)
    requires QuietAt(b, p) && Sendable(b, p, v, writers) && ManyRun(b, steps, p, v, writers)
    requires QuietAt(After(b, steps), p) && i < |b.nodes|
    ensures var end := AfterSteps(Start(|b.nodes|), steps, p); ProgressFits(end, i) && !end[i].awaits
    ensures WritesOnce(steps, p, v, writers, Start(|b.nodes|), i)
  {
    RunSpreads(b, p, v, writers, steps);
    ViewTells(b, After(b, steps), p, v, AfterSteps(Start(|b.nodes|), steps, p), i);
    assert WritesOnce(steps, p, v, writers, Start(|b.nodes|), i);
  }

  lemma EndSent(steps: seq<Step>, p: Rel, v: seq<Bytes>, writers: set<nat>, n: nat, i: nat)
    requires i < n && WritesOnce(steps, p, v, writers, Start(n), i)
    requires var end := AfterSteps(Start(n), steps, p); ProgressFits(end, i) && !end[i].awaits
    ensures var g := AfterSteps(Start(n), steps, p)[i];
            (g.wrote <==> i in writers) && (g.sent <==> Sends(steps, p, writers, i))
  {
    if i in writers {
      SentAlong(Start(n), steps, p, i, ContentOf(v, i));
    } else {
      NeverWrote(Start(n), steps, p, i);
    }
  }

  /** At a quiet path: progress is as the run says, and nothing is in flight. */
  lemma EndProgress(b: State, p: Rel, v: seq<Bytes>, writers: set<nat>, steps: seq<Step>, i: nat)
    requires QuietAt(b, p) && Sendable(b, p, v, writers) && ManyRun(b, steps, p, v, writers)
    requires QuietAt(After(b, steps), p) && i < |b.nodes|
    ensures var g := AfterSteps(Start(|b.nodes|), steps, p)[i];
            && g.taken == TakenBy(steps, p, i)
            && (g.wrote <==> i in writers)
            && (g.sent <==> Sends(steps, p, writers, i))
            && !g.awaits
  {
    EndQuiet(b, p, v, writers, steps, i);
    EndSent(steps, p, v, writers, |b.nodes|, i);
    TakenAlong(Start(|b.nodes|), steps, p, i);
    assert [] + TakenBy(steps, p, i) == TakenBy(steps, p, i);
  }

  /** Nothing is in flight any more. */
  lemma AllArrived(b: State, t: State, p: Rel, v: seq<Bytes>, end: seq<Progress>, j: nat, i: nat)
    requires Spread(b, t, p, v, end) && QuietAt(t, p)
    ensures !InFlight(end, j, i)
  {
    assert InFlight(end, j, i) ==> Letter(j, i, p, v) in t.upserts;
  }

  lemma TakenFromSenders(b: State, p: Rel, v: seq<Bytes>, writers: set<nat>, steps: seq<Step>, i: nat, j: nat)
    requires QuietAt(b, p) && Sendable(b, p, v, writers) && ManyRun(b, steps, p, v, writers)
    requires QuietAt(After(b, steps), p) && i < |b.nodes|
    ensures j in TakenBy(steps, p, i) <==> j != i && Sends(steps, p, writers, j)
  {
    var end := AfterSteps(Start(|b.nodes|), steps, p);
    RunSpreads(b, p, v, writers, steps);
    EndProgress(b, p, v, writers, steps, i);
    assert ProgressFits(end, i);
    if j < |b.nodes| {
      EndProgress(b, p, v, writers, steps, j);
      AllArrived(b, After(b, steps), p, v, end, j, i);
    }
  }

  /** Main result: in a mesh of any size, any users write `p` at any times, each before it
      takes in an update; on `p` nothing else is done and nothing fails, on other paths
      anything goes. When `p` is quiet again, each node has taken in exactly the updates
      of the other writers that sent one, each once, and holds the content of the last,
      or its own if there is none. */
  lemma EachHoldsLast(b: State, p: Rel, v: seq<Bytes>, writers: set<nat>, steps: seq<Step>, i: nat)
    requires QuietAt(b, p) && Sendable(b, p, v, writers) && ManyRun(b, steps, p, v, writers)
    requires QuietAt(After(b, steps), p) && i < |b.nodes|
    ensures |After(b, steps).nodes| == |b.nodes|
    ensures Distinct(TakenBy(steps, p, i))
    ensures forall j: nat :: j in TakenBy(steps, p, i) <==> j != i && Sends(steps, p, writers, j)
    ensures i in writers || TakenBy(steps, p, i) != [] ==>
              Lookup(After(b, steps).nodes[i].files, p) == Some(ContentOf(v, HeldFrom(steps, p, i)))
  {
    var end := AfterSteps(Start(|b.nodes|), steps, p);
    RunSpreads(b, p, v, writers, steps);
    EndProgress(b, p, v, writers, steps, i);
    ViewTells(b, After(b, steps), p, v, end, i);
    assert ProgressFits(end, i);
    forall j: nat ensures j in TakenBy(steps, p, i) <==> j != i && Sends(steps, p, writers, j) {
      TakenFromSenders(b, p, v, writers, steps, i, j);
    }
  }

  /** Somebody's update goes out. */
  lemma SomebodySends(b: State, p: Rel, v: seq<Bytes>, writers: set<nat>, steps: seq<Step>, w: nat) returns (j: nat)
    requires QuietAt(b, p) && Sendable(b, p, v, writers) && ManyRun(b, steps, p, v, writers)
    requires QuietAt(After(b, steps), p) && w in writers
    ensures Sends(steps, p, writers, j)
  {
    EndProgress(b, p, v, writers, steps, w);
    EachHoldsLast(b, p, v, writers, steps, w);
    var end := AfterSteps(Start(|b.nodes|), steps, p);
    RunSpreads(b, p, v, writers, steps);
    assert ProgressFits(end, w);
    j := if Sends(steps, p, writers, w) then w else Last(TakenBy(steps, p, w));
    assert !Sends(steps, p, writers, w) ==> TakenBy(steps, p, w) != [] && j in TakenBy(steps, p, w);
  }

  /** All nodes hold the same file at `p`. */
  ghost predicate AllAgree(t: State, p: Rel) {
    forall i, k :: 0 <= i < |t.nodes| && 0 <= k < |t.nodes| ==> Lookup(t.nodes[i].files, p) == Lookup(t.nodes[k].files, p)
  }

  lemma HoldsFromSender(b: State, p: Rel, v: seq<Bytes>, writers: set<nat>, steps: seq<Step>, i: nat)
    requires QuietAt(b, p) && Sendable(b, p, v, writers) && ManyRun(b, steps, p, v, writers) && writers != {}
    requires QuietAt(After(b, steps), p) && i < |b.nodes|
    ensures |After(b, steps).nodes| == |b.nodes|
    ensures var h := HeldFrom(steps, p, i);
            && Sends(steps, p, writers, h)
            && Lookup(After(b, steps).nodes[i].files, p) == Some(ContentOf(v, h))
            && (h == i <==> forall j: nat :: Sends(steps, p, writers, j) ==> j == i)
  {
    EachHoldsLast(b, p, v, writers, steps, i);
    var w :| w in writers;
    var j := SomebodySends(b, p, v, writers, steps, w);
    var taken := TakenBy(steps, p, i);
    if taken == [] {
      assert j !in taken;
    } else {
      assert Last(taken) in taken;
    }
  }

  ghost predicate OnlySender(steps: seq<Step>, p: Rel, writers: set<nat>, s: nat) {
    Sends(steps, p, writers, s) && forall j: nat :: Sends(steps, p, writers, j) ==> j == s
  }

  /** If one update only goes out, all agree on it. */
  lemma OneSenderAgrees(b: State, p: Rel, v: seq<Bytes>, writers: set<nat>, steps: seq<Step>, s: nat)
    requires QuietAt(b, p) && Sendable(b, p, v, writers) && ManyRun(b, steps, p, v, writers)
    requires QuietAt(After(b, steps), p) && OnlySender(steps, p, writers, s)
    ensures forall i :: 0 <= i < |After(b, steps).nodes| ==> Lookup(After(b, steps).nodes[i].files, p) == Some(ContentOf(v, s))
    ensures AllAgree(After(b, steps), p)
  {
    RunSpreads(b, p, v, writers, steps);
    forall i | 0 <= i < |b.nodes| ensures Lookup(After(b, steps).nodes[i].files, p) == Some(ContentOf(v, s)) {
      HoldsFromSender(b, p, v, writers, steps, i);
    }
  }

  /** When the writers write different things, all nodes agree in the end if and only if
      one update only went out: all writers but one were overtaken. */
  lemma DifferentWritesAgree(b: State, p: Rel, v: seq<Bytes>, writers: set<nat>, steps: seq<Step>)
    requires QuietAt(b, p) && Sendable(b, p, v, writers) && ManyRun(b, steps, p, v, writers) && writers != {}
    requires QuietAt(After(b, steps), p)
    requires forall a, c :: a in writers && c in writers && ContentOf(v, a) == ContentOf(v, c) ==> a == c
    ensures AllAgree(After(b, steps), p)
            <==> exists s: nat :: OnlySender(steps, p, writers, s)
  {
    var w :| w in writers;
    var s := SomebodySends(b, p, v, writers, steps, w);
    HoldsFromSender(b, p, v, writers, steps, s);
    var h := HeldFrom(steps, p, s);
    HoldsFromSender(b, p, v, writers, steps, h);
    if AllAgree(After(b, steps), p) {
      assert Lookup(After(b, steps).nodes[s].files, p) == Lookup(After(b, steps).nodes[h].files, p);
      assert HeldFrom(steps, p, h) == h;
      assert OnlySender(steps, p, writers, h);
    }
    if one: nat :| OnlySender(steps, p, writers, one) {
      OneSenderAgrees(b, p, v, writers, steps, one);
    }
  }

  /** When two writers both send, each of them ends with what the other wrote. */
  lemma EachOthers(b: State, p: Rel, v: seq<Bytes>, a: nat, c: nat, steps: seq<Step>)
    requires QuietAt(b, p) && Sendable(b, p, v, {a, c}) && ManyRun(b, steps, p, v, {a, c}) && a != c
    requires QuietAt(After(b, steps), p) && Sends(steps, p, {a, c}, a) && Sends(steps, p, {a, c}, c)
    ensures a < |After(b, steps).nodes| && Lookup(After(b, steps).nodes[a].files, p) == Some(v[c])
  {
    HoldsFromSender(b, p, v, {a, c}, steps, a);
  }

  lemma OneOfTwo(b: State, p: Rel, v: seq<Bytes>, a: nat, c: nat, steps: seq<Step>, i: nat)
    requires QuietAt(b, p) && Sendable(b, p, v, {a, c}) && ManyRun(b, steps, p, v, {a, c})
    requires QuietAt(After(b, steps), p) && i < |After(b, steps).nodes|
    ensures Lookup(After(b, steps).nodes[i].files, p) in {Some(v[a]), Some(v[c])}
  {
    RunSpreads(b, p, v, {a, c}, steps);
    HoldsFromSender(b, p, v, {a, c}, steps, i);
  }

  lemma BothSend(b: State, p: Rel, v: seq<Bytes>, a: nat, c: nat, steps: seq<Step>)
    requires QuietAt(b, p) && Sendable(b, p, v, {a, c}) && ManyRun(b, steps, p, v, {a, c}) && a != c
    requires QuietAt(After(b, steps), p) && Sends(steps, p, {a, c}, a) && Sends(steps, p, {a, c}, c)
    ensures AllAgree(After(b, steps), p) <==> v[a] == v[c]
  {
    var t := After(b, steps);
    if v[a] == v[c] {
      forall i | 0 <= i < |t.nodes| ensures Lookup(t.nodes[i].files, p) == Some(v[a]) {
        OneOfTwo(b, p, v, a, c, steps, i);
      }
    } else {
      EachOthers(b, p, v, a, c, steps);
      assert {a, c} == {c, a};
      EachOthers(b, p, v, c, a, steps);
    }
  }

  /** Two writers in a mesh of any size: all nodes agree if and only if both wrote the same
      or one of the two took in the other's update before the event of its own write. The
      other nodes make no difference. */
  lemma {:induction false} TwoWritersAgree(b: State, p: Rel, v: seq<Bytes>, a: nat, c: nat, steps: seq<Step>)
    requires QuietAt(b, p) && Sendable(b, p, v, {a, c}) && ManyRun(b, steps, p, v, {a, c}) && a != c
    requires QuietAt(After(b, steps), p)
    ensures AllAgree(After(b, steps), p)
            <==> v[a] == v[c] || TakenInFirst(steps, p, a) || TakenInFirst(steps, p, c)
  {
    if !TakenInFirst(steps, p, a) && !TakenInFirst(steps, p, c) {
      BothSend(b, p, v, a, c, steps);
    } else {
      var s := SomebodySends(b, p, v, {a, c}, steps, a);
      OneSenderAgrees(b, p, v, {a, c}, steps, s);
    }
  }

  // ---------------------------------------------------------------- it comes to rest

  /** Once all have written, no run without failures on `p` is stuck before the mesh is at
      rest, nor goes on for ever. */
  lemma {:induction false} ManyWritersSettle(b: State, p: Rel, v: seq<Bytes>, writers: set<nat>, steps: seq<Step>, more: seq<Step>)
    requires QuietAt(b, p) && Sendable(b, p, v, writers) && ManyRun(b, steps, p, v, writers) && Coherence(b)
    requires Runs(After(b, steps), more) && ReliableRun(After(b, steps), more, p)
    requires forall k :: 0 <= k < |more| ==> !ByUser(more[k])
    ensures |more| <= Quiescence.Work(After(b, steps))
    ensures CanGoOn(After(After(b, steps), more), p) <==> !Quiescent(After(After(b, steps), more))
  {
    var s := After(b, steps);
    Quiescence.CoherenceAlong(b, steps);
    RunSpreads(b, p, v, writers, steps);
    WrittenByNow(b, p, v, writers, steps, more);
    NoFailures(s, more, p);
    Settles(b, s, p, v, writers, AfterSteps(Start(|b.nodes|), steps, p), more);
  }

  lemma Settles(b: State, s: State, p: Rel, v: seq<Bytes>, writers: set<nat>, gs: seq<Progress>, more: seq<Step>)
    requires QuietAt(b, p) && Sendable(b, p, v, writers) && Spread(b, s, p, v, gs) && Coherence(s)
    requires AllWriteOnce(more, p, v, writers, gs) && Runs(s, more) && NoFailureRun(s, more, p)
    requires forall k :: 0 <= k < |more| ==> !ByUser(more[k])
    ensures |more| <= Quiescence.Work(s)
    ensures CanGoOn(After(s, more), p) <==> !Quiescent(After(s, more))
  {
    Quiescence.CoherenceAlong(s, more);
    Quiescence.StopsWithoutUsers(s, more);
    StaysAcceptable(b, s, p, v, writers, gs, more);
    GoesOnExactly(After(s, more), p);
  }

  lemma StaysAcceptable(b: State, s: State, p: Rel, v: seq<Bytes>, writers: set<nat>, gs: seq<Progress>, more: seq<Step>)
    requires QuietAt(b, p) && Sendable(b, p, v, writers) && Spread(b, s, p, v, gs)
    requires AllWriteOnce(more, p, v, writers, gs) && Runs(s, more) && NoFailureRun(s, more, p)
    ensures Acceptable(After(s, more), p)
  {
    SpreadAlong(b, s, p, v, writers, gs, more);
    OnlyWritersSend(p, v, writers, gs, more);
    LettersAcceptable(b, After(s, more), p, v, writers, AfterSteps(gs, more, p));
  }

  lemma OnlyWritersSend(p: Rel, v: seq<Bytes>, writers: set<nat>, gs: seq<Progress>, more: seq<Step>)
    requires AllWriteOnce(more, p, v, writers, gs) && AllFit(AfterSteps(gs, more, p))
    ensures forall i :: 0 <= i < |gs| && AfterSteps(gs, more, p)[i].sent ==> i in writers
  {
    forall i | 0 <= i < |gs| && AfterSteps(gs, more, p)[i].sent ensures i in writers {
      assert WritesOnce(more, p, v, writers, gs, i) && ProgressFits(AfterSteps(gs, more, p), i);
      if i !in writers { NeverWrote(gs, more, p, i); }
    }
  }

  lemma {:induction false} NoFailures(s: State, steps: seq<Step>, p: Rel)
    requires Runs(s, steps) && ReliableRun(s, steps, p)
    ensures NoFailureRun(s, steps, p)
    decreases |steps|
  {
    if steps != [] { NoFailures(Next(s, steps[0]), steps[1..], p); }
  }

  lemma {:induction false} NoUserWrites(steps: seq<Step>, p: Rel, i: nat, bytes: Bytes)
    requires forall k :: 0 <= k < |steps| ==> !ByUser(steps[k])
    ensures OneWrite(steps, p, i, bytes, true) && NoWrite(steps, p, i)
    decreases |steps|
  {
    if steps != [] { NoUserWrites(steps[1..], p, i, bytes); }
  }

  lemma WrittenByNow(b: State, p: Rel, v: seq<Bytes>, writers: set<nat>, steps: seq<Step>, more: seq<Step>)
    requires QuietAt(b, p) && Sendable(b, p, v, writers) && ManyRun(b, steps, p, v, writers)
    requires forall k :: 0 <= k < |more| ==> !ByUser(more[k])
    ensures AllWriteOnce(more, p, v, writers, AfterSteps(Start(|b.nodes|), steps, p))
  {
    var gs := Start(|b.nodes|);
    RunSpreads(b, p, v, writers, steps);
    forall i | 0 <= i < |gs| ensures WritesOnce(more, p, v, writers, AfterSteps(gs, steps, p), i) {
      assert WritesOnce(steps, p, v, writers, gs, i);
      NoUserWrites(more, p, i, ContentOf(v, i));
      if i in writers { SentAlong(gs, steps, p, i, ContentOf(v, i)); } else { NeverWrote(gs, steps, p, i); }
    }
  }

  lemma LettersAcceptable(b: State, s: State, p: Rel, v: seq<Bytes>, writers: set<nat>, gs: seq<Progress>)
    requires Sendable(b, p, v, writers) && Spread(b, s, p, v, gs)
    requires forall i :: 0 <= i < |gs| && gs[i].sent ==> i in writers
    ensures Acceptable(s, p)
  {
    forall u | u in s.upserts && u.path == p ensures |u.bytes| <= MAX_FILE_SIZE {
      assert InFlight(gs, u.from, u.to) && u.from in writers;
    }
  }
}
