/** How daemons come to share a folder secret: invite, accept, restart, with accepts
    that fail or crash half-way. */
module GroupFormation {
  import opened Prelude

  type Secret = nat

  /** An endpoint address; `route` stands for relay and direct addresses. */
  datatype Addr = Addr(id: PeerId, route: nat)

  datatype Ticket = Ticket(addr: Addr, secret: Secret)

  datatype Status = Uninitialized | InitializedButNotSubscribed | Active

  /** Files, and below them the state of the running process. `sender`: the gossip
      topic the process is subscribed to, as the secret it was derived from. */
  datatype State = State(
    secret: Option<Secret>,
    allowed: set<PeerId>,
    bootstrap: seq<Addr>,
    up: bool,
    status: Status,
    sender: Option<Secret>)

  predicate RestartRequired(s: State) { s.status.InitializedButNotSubscribed? }

  // ---------------------------------------------------------------- one daemon

  predicate UniqueIds(peers: seq<Addr>) {
    forall i, j :: 0 <= i < j < |peers| ==> peers[i].id != peers[j].id
  }

  function AddOrReplaced(peers: seq<Addr>, a: Addr): seq<Addr> {
    if peers == [] then [a]
    else if peers[0].id == a.id then [a] + peers[1..]
    else [peers[0]] + AddOrReplaced(peers[1..], a)
  }

  /** The new address is in; no other id is lost or changed; ids stay unique. */
  lemma {:induction false} AddOrReplacedIs(peers: seq<Addr>, a: Addr)
    requires UniqueIds(peers)
    ensures var r := AddOrReplaced(peers, a);
            && UniqueIds(r)
            && forall b :: b in r <==> b == a || (b in peers && b.id != a.id)
  {
    if peers != [] {
      assert peers == [peers[0]] + peers[1..];
      if peers[0].id == a.id {
        assert forall b :: b in peers[1..] ==> b.id != a.id;
      } else {
        AddOrReplacedIs(peers[1..], a);
        var rest := AddOrReplaced(peers[1..], a);
        forall i | 0 <= i < |rest| ensures rest[i].id != peers[0].id {
          assert rest[i] in rest;
        }
      }
    }
  }

  /** It is where its id was or else at the end, and no other entry is moved. */
  lemma {:induction false} AddOrReplacedAt(peers: seq<Addr>, a: Addr)
    requires UniqueIds(peers)
    ensures var r := AddOrReplaced(peers, a);
            && |r| == (if exists i :: 0 <= i < |peers| && peers[i].id == a.id then |peers| else |peers| + 1)
            && (forall i :: 0 <= i < |peers| ==> r[i] == if peers[i].id == a.id then a else peers[i])
            && (|r| > |peers| ==> r[|peers|] == a)
  {
    if i: nat :| i < |peers| && peers[i].id == a.id {
      ReachesMatch(peers, i, 0, a);
      assert AddOrReplaced(peers, a) == peers[i := a];
      assert forall j :: 0 <= j < |peers| && j != i ==> peers[j].id != peers[i].id;
    } else {
      ReachesMatch(peers, |peers|, 0, a);
      assert AddOrReplaced(peers, a) == peers + [a];
    }
  }

  /** The search stops at the first entry with the id, `i`, or at the end. */
  lemma {:induction false} ReachesMatch(peers: seq<Addr>, i: nat, k: nat, a: Addr)
    requires k <= i <= |peers| && (i < |peers| ==> peers[i].id == a.id)
    requires forall j :: k <= j < i ==> peers[j].id != a.id
    ensures Ahead(peers, k, a) == if i < |peers| then peers[i := a] else peers + [a]
    ensures k == 0 ==> Ahead(peers, k, a) == AddOrReplaced(peers, a)
    decreases i - k
  {
    SearchStarts(peers, a);
    if k == i {
      StoppedAt(peers, i, a);
    } else {
      PassedOver(peers, k, a);
      ReachesMatch(peers, i, k + 1, a);
    }
  }

  /** The list when the search has passed over `i` entries. */
  function Ahead(peers: seq<Addr>, i: nat, a: Addr): seq<Addr>
    requires i <= |peers|
  {
    peers[..i] + AddOrReplaced(peers[i..], a)
  }

  lemma SearchStarts(peers: seq<Addr>, a: Addr)
    ensures Ahead(peers, 0, a) == AddOrReplaced(peers, a)
  {
    assert peers[0..] == peers;
  }

  lemma PassedOver(peers: seq<Addr>, i: nat, a: Addr)
    requires i < |peers| && peers[i].id != a.id
    ensures Ahead(peers, i, a) == Ahead(peers, i + 1, a)
  {
    var rest := AddOrReplaced(peers[i + 1..], a);
    assert peers[i..][1..] == peers[i + 1..];
    assert AddOrReplaced(peers[i..], a) == [peers[i]] + rest;
    Regrouped(peers[..i], peers[i], rest);
    assert peers[..i + 1] == peers[..i] + [peers[i]];
  }

  lemma Regrouped(before: seq<Addr>, x: Addr, after: seq<Addr>)
    ensures before + ([x] + after) == (before + [x]) + after
  {
  }

  lemma StoppedAt(peers: seq<Addr>, i: nat, a: Addr)
    requires i <= |peers| && (i < |peers| ==> peers[i].id == a.id)
    ensures Ahead(peers, i, a) == if i < |peers| then peers[i := a] else peers + [a]
  {
    if i < |peers| {
      assert peers[i..][1..] == peers[i + 1..];
      assert peers[i := a] == peers[..i] + ([a] + peers[i + 1..]);
    } else {
      assert peers[..i] == peers && peers[i..] == [];
    }
  }

  /** Adopting a secret: kept if there is one. */
  function Adopt(s: State, secret: Secret): State {
    if s.secret.Some? then s
    else s.(secret := Some(secret), status := InitializedButNotSubscribed, sender := None)
  }

  /** How far an accept gets; an error at a stage leaves the stages before it done. */
  datatype Reached = Nothing | Adopted | InAllowList | InBootstrap

  function Accepted(s: State, t: Ticket, reached: Reached): State {
    if reached.Nothing? || (s.secret.Some? && s.secret.value != t.secret) then s
    else
      var a := Adopt(s, t.secret);
      if reached.Adopted? then a
      else
        var b := a.(allowed := a.allowed + {t.addr.id});
        if reached.InAllowList? then b else b.(bootstrap := AddOrReplaced(b.bootstrap, t.addr))
  }

  function Started(s: State): State {
    s.(up := true, status := if s.secret.Some? then Active else Uninitialized, sender := s.secret)
  }

  class Daemon {
    const id: PeerId
    var secret: Option<Secret>
    var allowed: set<PeerId>
    var bootstrap: seq<Addr>
    var status: Status
    var sender: Option<Secret>

    function Now(): State
      reads this
    {
      State(secret, allowed, bootstrap, true, status, sender)
    }

    /** A start: what the files say decides whether the topic is joined. */
    constructor (id: PeerId, secret: Option<Secret>, allowed: set<PeerId>, bootstrap: seq<Addr>)
      ensures this.id == id && this.secret == secret && this.allowed == allowed && this.bootstrap == bootstrap
      ensures sender == secret && status == if secret.Some? then Active else Uninitialized
      ensures Now() == Started(State(secret, allowed, bootstrap, false, Uninitialized, None))
    {
      this.id, this.secret, this.allowed, this.bootstrap := id, secret, allowed, bootstrap;
      sender := secret;
      status := if secret.Some? then Active else Uninitialized;
    }

    method EnterInitializedButNotSubscribed()
      modifies this`status, this`sender
      ensures status == InitializedButNotSubscribed && sender == None
    {
      status, sender := InitializedButNotSubscribed, None;
    }

    /** `sync.invite`; `random` is the random secret generated if there is none.
        `readable`: the file of the secret can be read or is not there; `encodes`: the
        ticket can be serialized. A secret that was stored stays, ticket or not. */
    method Invite(random: Secret, route: nat, readable: bool, persistable: bool, encodes: bool)
        returns (r: Result<(Ticket, bool), string>)
      modifies this
      ensures r.Ok? <==> readable && (old(secret).Some? || persistable) && encodes
      ensures secret == if old(secret).None? && readable && persistable then Some(random) else old(secret)
      ensures allowed == old(allowed) && bootstrap == old(bootstrap)
      ensures if secret == old(secret) then status == old(status) && sender == old(sender)
              else status == InitializedButNotSubscribed && sender == None
      ensures Now() == if readable && (old(secret).Some? || persistable) then Adopt(old(Now()), random) else old(Now())
      ensures r.Ok? ==> secret == Some(r.value.0.secret) && r.value.0.addr == Addr(id, route)
      ensures r.Ok? ==> (r.value.1 <==> status == InitializedButNotSubscribed)
    {
      if !readable { return Err("read folder secret"); }
      var s: Secret;
      match secret {
        case Some(existing) => s := existing;
        case None =>
          if !persistable { return Err("persist folder secret"); }
          s := random;
          secret := Some(s);
          EnterInitializedButNotSubscribed();
      }
      if !encodes { return Err("serialize ticket"); }
      return Ok((Ticket(Addr(id, route), s), status.InitializedButNotSubscribed?));
    }

    /** `sync.accept-invite`; `decoded`: what the text of the ticket decodes to, if it does. */
    method AcceptInvite(decoded: Option<Ticket>, readable: bool, secretPersists: bool, allowlistSaves: bool, bootstrapSaves: bool)
        returns (r: Result<bool, string>, reached: Reached)
      modifies this
      ensures reached ==
              if decoded.None? || !readable || old(secret) !in {None, Some(decoded.value.secret)}
                 || (old(secret).None? && !secretPersists) then Reached.Nothing
              else if !allowlistSaves then Adopted
              else if !bootstrapSaves then InAllowList else InBootstrap
      ensures secret == if old(secret).None? && !reached.Nothing? then Some(decoded.value.secret) else old(secret)
      ensures if secret == old(secret) then status == old(status) && sender == old(sender)
              else status == InitializedButNotSubscribed && sender == None
      ensures allowed == if reached.InAllowList? || reached.InBootstrap? then old(allowed) + {decoded.value.addr.id} else old(allowed)
      ensures bootstrap == if reached.InBootstrap? then AddOrReplaced(old(bootstrap), decoded.value.addr) else old(bootstrap)
      ensures r.Ok? ==> reached.InBootstrap? && (r.value <==> status == InitializedButNotSubscribed)
      ensures Now() == if decoded.Some? then Accepted(old(Now()), decoded.value, reached) else old(Now())
      ensures r.Ok? <==> decoded.Some? && readable && old(secret) in {None, Some(decoded.value.secret)}
                         && (old(secret).Some? || secretPersists) && allowlistSaves && bootstrapSaves
    {
      if decoded.None? { return Err("decode ticket"), Reached.Nothing; }
      if !readable { return Err("read folder secret"), Reached.Nothing; }
      var t := decoded.value;
      match secret {
        case None =>
          if !secretPersists { return Err("persist folder secret"), Reached.Nothing; }
          secret := Some(t.secret);
          EnterInitializedButNotSubscribed();
        case Some(existing) =>
          if existing != t.secret {
            return Err("already initialized with a different folder secret"), Reached.Nothing;
          }
      }
      if !allowlistSaves { return Err("save allowlist"), Adopted; }
      allowed := allowed + {t.addr.id};
      if !bootstrapSaves { return Err("persist inviter address"), InAllowList; }
      AddOrReplace(t.addr);
      return Ok(status.InitializedButNotSubscribed?), InBootstrap;
    }

    /** `bootstrap_peers::add_or_replace`: the first entry with the id is replaced in
        place, otherwise the address is appended. */
    method AddOrReplace(a: Addr)
      modifies this`bootstrap
      ensures bootstrap == AddOrReplaced(old(bootstrap), a)
    {
      var i := 0;
      SearchStarts(bootstrap, a);
      while i < |bootstrap| && bootstrap[i].id != a.id
        invariant 0 <= i <= |bootstrap| && bootstrap == old(bootstrap)
        invariant Ahead(bootstrap, i, a) == AddOrReplaced(bootstrap, a)
      {
        PassedOver(bootstrap, i, a);
        i := i + 1;
      }
      StoppedAt(bootstrap, i, a);
      if i < |bootstrap| {
        bootstrap := bootstrap[i := a];
      } else {
        bootstrap := bootstrap + [a];
      }
    }
  }

  // ---------------------------------------------------------------- the network

  /** `tickets`: issued so far, passed around out of band. `used`: secrets generated so
      far. `founder`: who generated the secret a daemon holds. */
  datatype Net = Net(
    daemons: map<PeerId, State>,
    tickets: set<Ticket>,
    used: set<Secret>,
    founder: map<PeerId, PeerId>)

  datatype Step =
    // `stored`: the secret is there or gets there; `issued`: a ticket comes out as well
    | DoInvite(n: PeerId, random: Secret, route: nat, stored: bool, issued: bool)
    | DoAccept(n: PeerId, t: Ticket, reached: Reached)
    | DoAllow(n: PeerId, peer: PeerId)
    | DoRevoke(n: PeerId, peer: PeerId)
    | Restart(n: PeerId)
    | GoDown(n: PeerId)             // a crash or a stop, at any point

  predicate Enabled(net: Net, step: Step) {
    && step.n in net.daemons
    && (!step.Restart? ==> net.daemons[step.n].up)
    && (step.DoInvite? ==> step.random !in net.used)
    && (step.DoAccept? ==> step.t in net.tickets)
  }

  function With(net: Net, n: PeerId, s: State): Net { net.(daemons := net.daemons[n := s]) }

  function Next(net: Net, step: Step): Net
    requires Enabled(net, step)
  {
    var s := net.daemons[step.n];
    match step
    case DoInvite(n, random, route, stored, issued) =>
      if !stored then net
      else
        var a := Adopt(s, random);
        With(net, n, a).(
          tickets := if issued then net.tickets + {Ticket(Addr(n, route), a.secret.value)} else net.tickets,
          used := if s.secret.None? then net.used + {random} else net.used,
          founder := if s.secret.None? then net.founder[n := n] else net.founder)
    case DoAccept(n, t, reached) =>
      var a := Accepted(s, t, reached);
      With(net, n, a).(
        founder := if s.secret.None? && a.secret.Some? && t.addr.id in net.founder
                   then net.founder[n := net.founder[t.addr.id]] else net.founder)
    case DoAllow(n, peer) => With(net, n, s.(allowed := s.allowed + {peer}))
    case DoRevoke(n, peer) => With(net, n, s.(allowed := s.allowed - {peer}))
    case Restart(n) => With(net, n, Started(s))
    case GoDown(n) => With(net, n, s.(up := false))
  }

  predicate Runs(net: Net, steps: seq<Step>)
    decreases |steps|
  {
    steps == [] || (Enabled(net, steps[0]) && Runs(Next(net, steps[0]), steps[1..]))
  }

  function After(net: Net, steps: seq<Step>): Net
    requires Runs(net, steps)
    decreases |steps|
  {
    if steps == [] then net else After(Next(net, steps[0]), steps[1..])
  }

  /** Daemons that have never run. */
  predicate Untouched(net: Net) {
    && net.tickets == {} && net.used == {} && net.founder == map[]
    && forall n :: n in net.daemons ==> net.daemons[n] == State(None, {}, [], false, Uninitialized, None)
  }

  predicate DaemonInv(s: State) {
    && (s.up ==> (s.status.Uninitialized? <==> s.secret.None?) && (s.status.Active? <==> s.sender.Some?))
    && (s.up && s.sender.Some? ==> s.sender == s.secret)
    && UniqueIds(s.bootstrap)
    && (s.bootstrap != [] ==> s.secret.Some?)
  }

  predicate HasSecret(net: Net, n: PeerId, secret: Secret) {
    n in net.daemons && net.daemons[n].secret == Some(secret)
  }

  ghost predicate Inv(net: Net) {
    && (forall n :: n in net.daemons ==> DaemonInv(net.daemons[n]))
    && (forall t :: t in net.tickets ==> HasSecret(net, t.addr.id, t.secret))
    && (forall n, a :: n in net.daemons && a in net.daemons[n].bootstrap ==>
          net.daemons[n].secret.Some? && HasSecret(net, a.id, net.daemons[n].secret.value))
    && Founders(net)
  }

  predicate IsFounder(net: Net, f: PeerId) { f in net.daemons && Lookup(net.founder, f) == Some(f) }

  /** Every holder of a secret has it from one founder, and no two founders share one. */
  ghost predicate Founders(net: Net) { Attributed(net) && Unshared(net) }

  ghost predicate Attributed(net: Net) {
    && (forall n :: n in net.founder <==> n in net.daemons && net.daemons[n].secret.Some?)
    && (forall n :: n in net.founder ==>
          var f := net.founder[n];
          f in net.founder && net.founder[f] == f && net.daemons[f].secret == net.daemons[n].secret)
    && (forall n :: n in net.founder ==> net.daemons[n].secret.value in net.used)
  }

  ghost predicate Unshared(net: Net) {
    forall f, g :: IsFounder(net, f) && IsFounder(net, g) && net.daemons[f].secret == net.daemons[g].secret ==> f == g
  }

  lemma FounderHolds(net: Net, f: PeerId)
    requires Founders(net) && IsFounder(net, f)
    ensures f in net.founder && net.daemons[f].secret.Some? && net.daemons[f].secret.value in net.used
  {
  }

  /** Secrets are written once: nobody's secret changes or goes away. */
  ghost predicate SecretsKept(before: Net, after: Net) {
    && before.daemons.Keys == after.daemons.Keys
    && forall n :: n in before.daemons && before.daemons[n].secret.Some? ==>
         after.daemons[n].secret == before.daemons[n].secret
  }

  lemma SecretWrittenOnce(net: Net, step: Step)
    requires Enabled(net, step)
    ensures SecretsKept(net, Next(net, step))
  {
  }

  lemma AcceptedDaemon(s: State, t: Ticket, reached: Reached)
    requires DaemonInv(s) && s.up
    ensures var a := Accepted(s, t, reached);
            && DaemonInv(a) && a.up
            && (s.secret.Some? ==> a.secret == s.secret && a.status == s.status && a.sender == s.sender)
            && (a.secret in {s.secret, Some(t.secret)})
            && (forall b :: b in a.bootstrap ==> b in s.bootstrap || (b == t.addr && a.secret == Some(t.secret)))
  {
    AddOrReplacedIs(s.bootstrap, t.addr);
  }

  lemma FoundersSame(net: Net, n: PeerId, s: State)
    requires Founders(net) && n in net.daemons && s.secret == net.daemons[n].secret
    ensures Founders(With(net, n, s))
  {
    var next := With(net, n, s);
    assert Attributed(next);
    SameFounders(net, next);
  }

  /** The same founders with the same secrets are as unshared as before. */
  lemma SameFounders(net: Net, next: Net)
    requires Unshared(net)
    requires forall f :: IsFounder(next, f) ==> IsFounder(net, f) && next.daemons[f].secret == net.daemons[f].secret
    ensures Unshared(next)
  {
  }

  lemma FoundedNew(net: Net, n: PeerId, s: State, random: Secret)
    requires Founders(net) && n in net.daemons && net.daemons[n].secret.None?
    requires random !in net.used && s.secret == Some(random)
    ensures Founders(With(net, n, s).(used := net.used + {random}, founder := net.founder[n := n]))
  {
    var next := With(net, n, s).(used := net.used + {random}, founder := net.founder[n := n]);
    FoundedAttributed(net, n, s, random);
    forall f | IsFounder(next, f) && f != n
      ensures IsFounder(net, f) && next.daemons[f].secret == net.daemons[f].secret != Some(random)
    {
      assert IsFounder(net, f);
      FounderHolds(net, f);
    }
  }

  lemma FoundedAttributed(net: Net, n: PeerId, s: State, random: Secret)
    requires Attributed(net) && n in net.daemons && net.daemons[n].secret.None? && s.secret == Some(random)
    ensures Attributed(With(net, n, s).(used := net.used + {random}, founder := net.founder[n := n]))
  {
  }

  lemma JoinedExisting(net: Net, n: PeerId, s: State, issuer: PeerId)
    requires Founders(net) && n in net.daemons && net.daemons[n].secret.None?
    requires issuer in net.founder && s.secret == net.daemons[issuer].secret
    ensures Founders(With(net, n, s).(founder := net.founder[n := net.founder[issuer]]))
  {
    var next := With(net, n, s).(founder := net.founder[n := net.founder[issuer]]);
    JoinedAttributed(net, n, s, issuer);
    SameFounders(net, next);
  }

  lemma JoinedAttributed(net: Net, n: PeerId, s: State, issuer: PeerId)
    requires Attributed(net) && n in net.daemons && net.daemons[n].secret.None?
    requires issuer in net.founder && s.secret == net.daemons[issuer].secret
    ensures Attributed(With(net, n, s).(founder := net.founder[n := net.founder[issuer]]))
  {
  }

  lemma FoundersInvite(net: Net, step: Step)
    requires Inv(net) && Enabled(net, step) && step.DoInvite?
    ensures Founders(Next(net, step))
  {
    var n, s, random := step.n, net.daemons[step.n], step.random;
    if s.secret.None? && step.stored {
      FoundedNew(net, n, Adopt(s, random), random);
      TicketsDoNotMatter(With(net, n, Adopt(s, random)).(used := net.used + {random}, founder := net.founder[n := n]),
                         Next(net, step));
    } else if step.stored {
      FoundersSame(net, n, s);
      TicketsDoNotMatter(With(net, n, s), Next(net, step));
    }
  }

  lemma TicketsDoNotMatter(a: Net, b: Net)
    requires Founders(a) && b == a.(tickets := b.tickets)
    ensures Founders(b)
  {
    forall f | IsFounder(b, f) ensures IsFounder(a, f) {}
  }

  lemma FoundersAccept(net: Net, step: Step)
    requires Inv(net) && Enabled(net, step) && step.DoAccept?
    ensures Founders(Next(net, step))
  {
    var n, s := step.n, net.daemons[step.n];
    var a := Accepted(s, step.t, step.reached);
    AcceptedDaemon(s, step.t, step.reached);
    if s.secret.None? && a.secret.Some? {
      assert HasSecret(net, step.t.addr.id, step.t.secret);
      JoinedExisting(net, n, a, step.t.addr.id);
    } else {
      FoundersSame(net, n, a);
    }
  }

  lemma FoundersKept(net: Net, step: Step)
    requires Inv(net) && Enabled(net, step)
    ensures Founders(Next(net, step))
  {
    match step
    case DoInvite(_, _, _, _, _) => FoundersInvite(net, step);
    case DoAccept(_, _, _) => FoundersAccept(net, step);
    case _ => FoundersSame(net, step.n, Next(net, step).daemons[step.n]);
  }

  lemma DaemonsKept(net: Net, step: Step)
    requires Inv(net) && Enabled(net, step)
    ensures forall n :: n in Next(net, step).daemons ==> DaemonInv(Next(net, step).daemons[n])
  {
    if step.DoAccept? {
      AcceptedDaemon(net.daemons[step.n], step.t, step.reached);
    }
  }

  lemma TicketsKept(net: Net, step: Step, t: Ticket)
    requires Inv(net) && Enabled(net, step) && t in Next(net, step).tickets
    ensures HasSecret(Next(net, step), t.addr.id, t.secret)
  {
    SecretWrittenOnce(net, step);
    assert t in net.tickets ==> HasSecret(net, t.addr.id, t.secret);
  }

  lemma BootstrapKept(net: Net, step: Step, n: PeerId, a: Addr)
    requires Inv(net) && Enabled(net, step)
    requires n in Next(net, step).daemons && a in Next(net, step).daemons[n].bootstrap
    ensures var next := Next(net, step);
            next.daemons[n].secret.Some? && HasSecret(next, a.id, next.daemons[n].secret.value)
  {
    SecretWrittenOnce(net, step);
    if a in net.daemons[n].bootstrap {
      assert HasSecret(net, a.id, net.daemons[n].secret.value);
    } else {
      AcceptedDaemon(net.daemons[n], step.t, step.reached);
      assert HasSecret(net, step.t.addr.id, step.t.secret);
    }
  }

  lemma InvKept(net: Net, step: Step)
    requires Inv(net) && Enabled(net, step)
    ensures Inv(Next(net, step))
  {
    var next := Next(net, step);
    DaemonsKept(net, step);
    FoundersKept(net, step);
    forall t | t in next.tickets ensures HasSecret(next, t.addr.id, t.secret) {
      TicketsKept(net, step, t);
    }
    forall n, a | n in next.daemons && a in next.daemons[n].bootstrap
      ensures next.daemons[n].secret.Some? && HasSecret(next, a.id, next.daemons[n].secret.value)
    {
      BootstrapKept(net, step, n, a);
    }
  }

  lemma {:induction false} InvAlong(net: Net, steps: seq<Step>)
    requires Inv(net) && Runs(net, steps)
    ensures Inv(After(net, steps)) && SecretsKept(net, After(net, steps))
    decreases |steps|
  {
    if steps != [] {
      InvKept(net, steps[0]);
      SecretWrittenOnce(net, steps[0]);
      InvAlong(Next(net, steps[0]), steps[1..]);
    }
  }

  // ---------------------------------------------------------------- who is allowed, and who is known

  /** The step puts `peer` on the allowlist of `n`. */
  predicate LetsIn(net: Net, step: Step, n: PeerId, peer: PeerId)
    requires n in net.daemons
  {
    && step.n == n
    && match step
       case DoAllow(_, p) => p == peer
       case DoAccept(_, t, reached) =>
         && t.addr.id == peer && reached in {InAllowList, InBootstrap}
         && net.daemons[n].secret in {None, Some(t.secret)}
       case _ => false
  }

  lemma AllowedStep(net: Net, step: Step, n: PeerId, peer: PeerId)
    requires Enabled(net, step) && n in net.daemons
    ensures n in Next(net, step).daemons
    ensures peer in Next(net, step).daemons[n].allowed
            <==> step != DoRevoke(n, peer) && (peer in net.daemons[n].allowed || LetsIn(net, step, n, peer))
  {
  }

  /** A run, up to its step `k` and one further. */
  lemma {:induction false} RunUpTo(net: Net, steps: seq<Step>, k: nat)
    requires Runs(net, steps) && k <= |steps|
    ensures Runs(net, steps[..k]) && After(net, steps[..k]).daemons.Keys == net.daemons.Keys
    ensures k < |steps| ==> && Enabled(After(net, steps[..k]), steps[k])
                            && Runs(net, steps[..k + 1])
                            && After(net, steps[..k + 1]) == Next(After(net, steps[..k]), steps[k])
    decreases k
  {
    if k > 0 {
      RunUpTo(Next(net, steps[0]), steps[1..], k - 1);
      assert steps[..k][1..] == steps[1..][..k - 1];
      if k < |steps| { assert steps[..k + 1][1..] == steps[1..][..k]; }
    } else if steps != [] {
      assert steps[..1][1..] == [] && steps[..0] == [];
    }
  }

  /** `peer` was on the list at first and has not been revoked before step `m`, or a step
      let it in after which it has not. */
  ghost predicate NotRevokedSince(net: Net, steps: seq<Step>, n: PeerId, peer: PeerId, m: nat)
    requires n in net.daemons && m <= |steps|
  {
    || (peer in net.daemons[n].allowed && forall j :: 0 <= j < m ==> steps[j] != DoRevoke(n, peer))
    || exists k: nat :: k < m && LetInAt(net, steps, n, peer, k) && forall j :: k < j < m ==> steps[j] != DoRevoke(n, peer)
  }

  ghost predicate LetInAt(net: Net, steps: seq<Step>, n: PeerId, peer: PeerId, k: nat)
    requires k < |steps|
  {
    Runs(net, steps[..k]) && n in After(net, steps[..k]).daemons && LetsIn(After(net, steps[..k]), steps[k], n, peer)
  }

  /** Main result on the allowlist, over every run, with accepts that fail half-way,
      crashes and restarts: a peer is on it exactly if it was at first and has not been
      revoked, or was let in by an `allow` of it or by an accept of its ticket, and has not
      been revoked since. Nobody else's operation takes it off. */
  lemma {:induction false} AllowedExactly(net: Net, steps: seq<Step>, n: PeerId, peer: PeerId, m: nat)
    requires Runs(net, steps) && n in net.daemons && m <= |steps|
    ensures Runs(net, steps[..m]) && n in After(net, steps[..m]).daemons
    ensures peer in After(net, steps[..m]).daemons[n].allowed <==> NotRevokedSince(net, steps, n, peer, m)
    decreases m
  {
    RunUpTo(net, steps, m);
    if m > 0 {
      AllowedExactly(net, steps, n, peer, m - 1);
      RunUpTo(net, steps, m - 1);
      AllowedStep(After(net, steps[..m - 1]), steps[m - 1], n, peer);
      OneStepLater(net, steps, n, peer, m - 1);
    }
  }

  lemma OneStepLater(net: Net, steps: seq<Step>, n: PeerId, peer: PeerId, m: nat)
    requires n in net.daemons && m < |steps| && Runs(net, steps[..m]) && n in After(net, steps[..m]).daemons
    ensures NotRevokedSince(net, steps, n, peer, m + 1)
            <==> steps[m] != DoRevoke(n, peer)
                 && (NotRevokedSince(net, steps, n, peer, m) || LetsIn(After(net, steps[..m]), steps[m], n, peer))
  {
    if steps[m] == DoRevoke(n, peer) {
      assert !LetInAt(net, steps, n, peer, m);
    } else {
      assert LetInAt(net, steps, n, peer, m) <==> LetsIn(After(net, steps[..m]), steps[m], n, peer);
    }
  }

  predicate KnowsId(peers: seq<Addr>, id: PeerId) { exists a :: a in peers && a.id == id }

  lemma KnownStep(net: Net, step: Step, n: PeerId, id: PeerId)
    requires Inv(net) && Enabled(net, step) && n in net.daemons && KnowsId(net.daemons[n].bootstrap, id)
    ensures n in Next(net, step).daemons && KnowsId(Next(net, step).daemons[n].bootstrap, id)
  {
    var a :| a in net.daemons[n].bootstrap && a.id == id;
    if step.DoAccept? && step.n == n {
      AddOrReplacedIs(net.daemons[n].bootstrap, step.t.addr);
      assert (if step.t.addr.id == id then step.t.addr else a) in AddOrReplaced(net.daemons[n].bootstrap, step.t.addr);
    }
  }

  /** Whom a daemon can bootstrap from it never forgets. */
  lemma {:induction false} KnownForever(net: Net, steps: seq<Step>, n: PeerId, id: PeerId)
    requires Inv(net) && Runs(net, steps) && n in net.daemons && KnowsId(net.daemons[n].bootstrap, id)
    ensures n in After(net, steps).daemons && KnowsId(After(net, steps).daemons[n].bootstrap, id)
    decreases |steps|
  {
    if steps != [] {
      InvKept(net, steps[0]);
      KnownStep(net, steps[0], n, id);
      KnownForever(Next(net, steps[0]), steps[1..], n, id);
    }
  }

  // ---------------------------------------------------------------- groups

  /** `path` goes along bootstrap entries, in either direction. */
  predicate Linked(net: Net, path: seq<PeerId>) {
    && (forall k :: 0 <= k < |path| ==> path[k] in net.daemons)
    && forall k :: 0 <= k < |path| - 1 ==> Edge(net, path[k], path[k + 1]) || Edge(net, path[k + 1], path[k])
  }

  predicate Edge(net: Net, n: PeerId, m: PeerId)
    requires n in net.daemons
  {
    exists k :: 0 <= k < |net.daemons[n].bootstrap| && net.daemons[n].bootstrap[k].id == m
  }

  lemma EdgeShares(net: Net, n: PeerId, m: PeerId)
    requires Inv(net) && n in net.daemons && Edge(net, n, m)
    ensures m in net.daemons && net.daemons[n].secret.Some? && net.daemons[m].secret == net.daemons[n].secret
  {
    var k :| 0 <= k < |net.daemons[n].bootstrap| && net.daemons[n].bootstrap[k].id == m;
    assert net.daemons[n].bootstrap[k] in net.daemons[n].bootstrap;
  }

  lemma {:induction false} LinkedShare(net: Net, path: seq<PeerId>)
    requires Inv(net) && Linked(net, path) && |path| > 1
    ensures net.daemons[path[0]].secret.Some?
    ensures net.daemons[path[|path| - 1]].secret == net.daemons[path[0]].secret
    decreases |path|
  {
    if Edge(net, path[0], path[1]) { EdgeShares(net, path[0], path[1]); } else { EdgeShares(net, path[1], path[0]); }
    if |path| > 2 {
      LinkedShare(net, path[1..]);
    }
  }

  /** Main result: over every run, with any failures: tickets carry their issuer's
      present secret; daemons connected by bootstrap entries hold one secret, and those
      that are active are on one topic; bootstrap lists have unique ids. */
  lemma OneGroupPerComponent(net: Net, steps: seq<Step>, path: seq<PeerId>)
    requires Untouched(net) && Runs(net, steps) && Linked(After(net, steps), path) && |path| > 1
    ensures var after := After(net, steps);
            var a, b := after.daemons[path[0]], after.daemons[path[|path| - 1]];
            && a.secret.Some? && b.secret == a.secret
            && (a.up && b.up && a.status.Active? && b.status.Active? ==> a.sender == b.sender == a.secret)
            && (forall t :: t in after.tickets ==> HasSecret(after, t.addr.id, t.secret))
            && (forall n :: n in after.daemons ==> UniqueIds(after.daemons[n].bootstrap))
  {
    InvAlong(net, steps);
    LinkedShare(After(net, steps), path);
    var after := After(net, steps);
    assert DaemonInv(after.daemons[path[0]]) && DaemonInv(after.daemons[path[|path| - 1]]);
  }

  /** Groups do not mix: two daemons hold the same secret exactly when it comes from
      the same founder. */
  lemma SameSecretSameFounder(net: Net, steps: seq<Step>, n: PeerId, m: PeerId)
    requires Untouched(net) && Runs(net, steps)
    requires var after := After(net, steps).daemons;
             n in after && m in after && after[n].secret.Some? && after[m].secret.Some?
    ensures var after := After(net, steps);
            && n in after.founder && m in after.founder
            && (after.daemons[n].secret == after.daemons[m].secret <==> after.founder[n] == after.founder[m])
  {
    InvAlong(net, steps);
    var after := After(net, steps);
    assert IsFounder(after, after.founder[n]) && IsFounder(after, after.founder[m]);
  }

  /** What a running daemon reports is true: uninitialized exactly without a stored
      secret; a restart is asked for exactly while a stored secret is not subscribed. */
  lemma StatusTells(net: Net, steps: seq<Step>, n: PeerId)
    requires Untouched(net) && Runs(net, steps)
    requires n in After(net, steps).daemons && After(net, steps).daemons[n].up
    ensures var s := After(net, steps).daemons[n];
            && (s.status.Uninitialized? <==> s.secret.None?)
            && (RestartRequired(s) <==> s.secret.Some? && s.sender != s.secret)
            && (s.status.Active? <==> s.sender.Some? && s.sender == s.secret)
  {
    InvAlong(net, steps);
    assert DaemonInv(After(net, steps).daemons[n]);
  }

  lemma SenderStep(net: Net, step: Step, n: PeerId)
    requires Enabled(net, step) && n in net.daemons && net.daemons[n].up && DaemonInv(net.daemons[n])
    requires net.daemons[n].sender.Some? && !(step.n == n && (step.Restart? || step.GoDown?))
    ensures var s := Next(net, step).daemons;
            n in s && s[n].up && s[n].sender == net.daemons[n].sender
  {
  }

  /** A subscribed daemon stays subscribed to its topic whatever is invited or accepted. */
  lemma {:induction false} SenderKept(net: Net, steps: seq<Step>, n: PeerId)
    requires Inv(net) && Runs(net, steps) && n in net.daemons && net.daemons[n].up && net.daemons[n].sender.Some?
    requires forall k :: 0 <= k < |steps| ==> !(steps[k].n == n && (steps[k].Restart? || steps[k].GoDown?))
    ensures var s := After(net, steps).daemons;
            n in s && s[n].up && s[n].sender == net.daemons[n].sender && s[n].status.Active?
    decreases |steps|
  {
    assert DaemonInv(net.daemons[n]);
    if steps != [] {
      InvKept(net, steps[0]);
      SenderStep(net, steps[0], n);
      SenderKept(Next(net, steps[0]), steps[1..], n);
    }
  }

  /** The documented flow brings two daemons together: invite and restart at `a`, accept
      and restart at `b`, allow at `a`. Both end active on one topic, each allows the
      other, and `b` bootstraps from `a`. */
  lemma BilateralFlow(net: Net, a: PeerId, b: PeerId, random: Secret, route: nat)
    requires Inv(net) && a in net.daemons && b in net.daemons && a != b
    requires net.daemons[a].up && net.daemons[b].up && net.daemons[b].secret.None? && random !in net.used
    ensures var invited := Next(net, DoInvite(a, random, route, true, true));
            var t := Ticket(Addr(a, route), invited.daemons[a].secret.value);
            && t in invited.tickets
            && var accepted := Next(Next(invited, Restart(a)), DoAccept(b, t, InBootstrap));
               var end := Next(Next(accepted, Restart(b)), DoAllow(a, b));
               && end.daemons[a].status.Active? && end.daemons[b].status.Active?
               && end.daemons[a].sender == end.daemons[b].sender == Some(t.secret)
               && b in end.daemons[a].allowed && a in end.daemons[b].allowed
               && Addr(a, route) in end.daemons[b].bootstrap
               && RestartRequired(accepted.daemons[b])
  {
    assert DaemonInv(net.daemons[b]);
    AddOrReplacedIs(net.daemons[b].bootstrap, Addr(a, route));
  }
}
