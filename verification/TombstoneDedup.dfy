/** The time window that thins out repeated Tombstones for one path. */
module TombstoneDedup {
  import opened Prelude
  import opened Nodes

  /** Two seconds, in milliseconds. */
  const TOMBSTONE_DEDUP_TTL: nat := 2000

  /** Elapsed time; none if the clock reading `now` is the earlier one. */
  function Since(now: nat, then_: nat): nat { if now < then_ then 0 else now - then_ }

  predicate Admits(times: map<Rel, nat>, p: Rel, now: nat) {
    p in times ==> Since(now, times[p]) >= TOMBSTONE_DEDUP_TTL
  }

  function Admit(times: map<Rel, nat>, p: Rel, now: nat): map<Rel, nat> {
    if Admits(times, p, now) then times[p := now] else times
  }

  /** A caller that read the clock at `now`; callers are listed in the order in which
      they got the lock, which need not be the order of their readings. */
  datatype Call = Call(path: Rel, now: nat)

  /** The instants at which a Tombstone for `p` was let through. */
  function Admitted(times: map<Rel, nat>, calls: seq<Call>, p: Rel): seq<nat>
    decreases |calls|
  {
    if calls == [] then []
    else
      var c := calls[0];
      (if c.path == p && Admits(times, c.path, c.now) then [c.now] else [])
      + Admitted(Admit(times, c.path, c.now), calls[1..], p)
  }

  /** From `from` on, each instant at least a window after the one before. */
  predicate Spaced(instants: seq<nat>, from: nat) {
    instants == [] || (from <= instants[0] && Spaced(instants[1..], instants[0] + TOMBSTONE_DEDUP_TTL))
  }

  lemma {:induction false} AdmittedSpaced(times: map<Rel, nat>, calls: seq<Call>, p: Rel)
    ensures Spaced(Admitted(times, calls, p), if p in times then times[p] + TOMBSTONE_DEDUP_TTL else 0)
    decreases |calls|
  {
    if calls != [] {
      var c := calls[0];
      var later := Admitted(Admit(times, c.path, c.now), calls[1..], p);
      AdmittedSpaced(Admit(times, c.path, c.now), calls[1..], p);
      if c.path == p && Admits(times, p, c.now) {
        SpacedCons(c.now, later, if p in times then times[p] + TOMBSTONE_DEDUP_TTL else 0);
      } else {
        assert [] + later == later;
      }
    }
  }

  lemma SpacedCons(first: nat, later: seq<nat>, from: nat)
    requires from <= first && Spaced(later, first + TOMBSTONE_DEDUP_TTL)
    ensures Spaced([first] + later, from)
  {
    assert ([first] + later)[1..] == later;
  }

  lemma {:induction false} SpacedPairwise(instants: seq<nat>, from: nat, i: nat, j: nat)
    requires Spaced(instants, from) && i < j < |instants|
    ensures from <= instants[i] && instants[i] + TOMBSTONE_DEDUP_TTL <= instants[j]
  {
    var next := instants[0] + TOMBSTONE_DEDUP_TTL;
    if i > 0 {
      SpacedPairwise(instants[1..], next, i - 1, j - 1);
    } else {
      SpacedAfter(instants[1..], next, j - 1);
    }
  }

  lemma {:induction false} SpacedAfter(instants: seq<nat>, from: nat, j: nat)
    requires Spaced(instants, from) && j < |instants|
    ensures from <= instants[j]
  {
    if j > 0 { SpacedAfter(instants[1..], instants[0] + TOMBSTONE_DEDUP_TTL, j - 1); }
  }

  /** Main result: in any interleaving of callers, whatever their clock readings, the
      instants let through for one path increase by at least the window. */
  lemma TombstonesSpaced(times: map<Rel, nat>, calls: seq<Call>, p: Rel)
    ensures var a := Admitted(times, calls, p);
            forall i, j :: 0 <= i < j < |a| ==> a[i] + TOMBSTONE_DEDUP_TTL <= a[j]
  {
    var a := Admitted(times, calls, p);
    AdmittedSpaced(times, calls, p);
    forall i, j | 0 <= i < j < |a| ensures a[i] + TOMBSTONE_DEDUP_TTL <= a[j] {
      SpacedPairwise(a, if p in times then times[p] + TOMBSTONE_DEDUP_TTL else 0, i, j);
    }
  }

  function TimesAfter(times: map<Rel, nat>, calls: seq<Call>): map<Rel, nat>
    decreases |calls|
  {
    if calls == [] then times else TimesAfter(Admit(times, calls[0].path, calls[0].now), calls[1..])
  }

  /** The instants let through for `p`, after the one remembered at first. */
  function History(times: map<Rel, nat>, admitted: seq<nat>, p: Rel): seq<nat> {
    (if p in times then [times[p]] else []) + admitted
  }

  /** What is remembered is the last instant let through. */
  lemma {:induction false} RememberedIsLast(times: map<Rel, nat>, calls: seq<Call>, p: Rel)
    ensures var h, after := History(times, Admitted(times, calls, p), p), TimesAfter(times, calls);
            if h == [] then p !in after else Lookup(after, p) == Some(h[|h| - 1])
    decreases |calls|
  {
    if calls != [] {
      var next := Admit(times, calls[0].path, calls[0].now);
      RememberedIsLast(next, calls[1..], p);
      SameLast(times, next, calls[0], Admitted(next, calls[1..], p), p);
    }
  }

  lemma SameLast(times: map<Rel, nat>, next: map<Rel, nat>, c: Call, later: seq<nat>, p: Rel)
    requires next == Admit(times, c.path, c.now)
    ensures var h := History(times, (if c.path == p && Admits(times, c.path, c.now) then [c.now] else []) + later, p);
            var k := History(next, later, p);
            if k == [] then h == [] else h != [] && h[|h| - 1] == k[|k| - 1]
  {
  }

  lemma Assoc(a: seq<nat>, b: seq<nat>, c: seq<nat>)
    ensures a + (b + c) == (a + b) + c
  {
  }

  lemma {:induction false} AdmittedOneMore(times: map<Rel, nat>, calls: seq<Call>, p: Rel, now: nat)
    ensures Admitted(times, calls + [Call(p, now)], p)
            == Admitted(times, calls, p) + if Admits(TimesAfter(times, calls), p, now) then [now] else []
    decreases |calls|
  {
    var last := [Call(p, now)];
    if calls == [] {
      assert calls + last == last && last[1..] == [];
    } else {
      assert (calls + last)[1..] == calls[1..] + last;
      var c := calls[0];
      var next := Admit(times, c.path, c.now);
      AdmittedOneMore(next, calls[1..], p, now);
      Assoc(if c.path == p && Admits(times, c.path, c.now) then [c.now] else [], Admitted(next, calls[1..], p),
            if Admits(TimesAfter(times, calls), p, now) then [now] else []);
    }
  }

  /** Nothing is dropped without cause: a call is let through exactly when it is
      outside the window of the last one let through for its path. */
  lemma OnlyRepeatsDropped(times: map<Rel, nat>, calls: seq<Call>, p: Rel, now: nat)
    ensures var h := History(times, Admitted(times, calls, p), p);
            Admitted(times, calls + [Call(p, now)], p)
            == Admitted(times, calls, p)
               + if h == [] || h[|h| - 1] + TOMBSTONE_DEDUP_TTL <= now then [now] else []
  {
    RememberedIsLast(times, calls, p);
    AdmittedOneMore(times, calls, p, now);
  }
}
