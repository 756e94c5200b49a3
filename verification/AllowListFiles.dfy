/** The allowlist file: what is written, what a start makes of it, and how it is replaced. */
module AllowListFiles {
  import opened Prelude

  datatype PeerInfo = PeerInfo(alias: Option<string>, addedAt: int, lastSeenAt: Option<int>)

  /** The contents of an allowlist; `openAll`: every peer is let in. */
  datatype Config = Config(openAll: bool, peers: map<PeerId, PeerInfo>)

  const STRICT_EMPTY: Config := Config(false, map[])
  const OPEN_ALL: Config := Config(true, map[])

  predicate Allows(c: Config, id: PeerId) { c.openAll || id in c.peers }

  const SCHEMA_VERSION: int := 2

  /** The JSON object in the file. Its keys are texts of peer ids, or should be. */
  datatype Document = Document(version: int, openAll: bool, peers: map<string, PeerInfo>)

  /** The foreign encodings: the JSON text of a document, and the parsing of an id. */
  datatype Codec = Codec(
    toJson: Document -> Bytes,
    fromJson: Bytes -> Option<Document>,
    parseId: string -> Option<PeerId>)

  ghost predicate Invertible(c: Codec) {
    && (forall d :: c.fromJson(c.toJson(d)) == Some(d))
    && (forall id: PeerId :: c.parseId(id) == Some(id))
  }

  function Snapshot(list: Config): Document {
    Document(SCHEMA_VERSION, list.openAll, map id | id in list.peers :: id := list.peers[id])
  }

  function Encoded(c: Codec, list: Config): Bytes { c.toJson(Snapshot(list)) }

  datatype LoadError = Unreadable | BadJson | WrongVersion(version: int) | BadPeerId(key: string)

  predicate AllParse(c: Codec, peers: map<string, PeerInfo>) {
    forall k :: k in peers ==> c.parseId(k).Some?
  }

  /** `ids` has the id of each key, with the entry of one of the keys that denote it. */
  ghost predicate TakenFrom(c: Codec, peers: map<string, PeerInfo>, ids: map<PeerId, PeerInfo>) {
    && (forall k :: k in peers && c.parseId(k).Some? ==> c.parseId(k).value in ids)
    && (forall id :: id in ids ==> exists k :: k in peers && c.parseId(k) == Some(id) && peers[k] == ids[id])
  }

  /** What a start may make of a document: exactly one thing, unless two keys denote one id. */
  ghost predicate ReadAs(c: Codec, bytes: Bytes, r: Result<Config, LoadError>) {
    var d := c.fromJson(bytes);
    if d.None? then r == Err(BadJson)
    else if d.value.version != SCHEMA_VERSION then r == Err(WrongVersion(d.value.version))
    else if !AllParse(c, d.value.peers) then
      r.Err? && r.error.BadPeerId? && r.error.key in d.value.peers && c.parseId(r.error.key).None?
    else r.Ok? && r.value.openAll == d.value.openAll && TakenFrom(c, d.value.peers, r.value.peers)
  }

  /** `from_json_bytes`: the entries are taken over in the arbitrary order of a hash map. */
  method FromJsonBytes(c: Codec, bytes: Bytes) returns (r: Result<Config, LoadError>)
    ensures r.Ok? <==> && c.fromJson(bytes).Some? && c.fromJson(bytes).value.version == 2
                       && forall k :: k in c.fromJson(bytes).value.peers ==> c.parseId(k).Some?
    ensures r.Ok? ==> r.value.openAll == c.fromJson(bytes).value.openAll
    ensures ReadAs(c, bytes, r)
  {
    var d := c.fromJson(bytes);
    if d.None? { return Err(BadJson); }
    if d.value.version != SCHEMA_VERSION { return Err(WrongVersion(d.value.version)); }
    var peers := d.value.peers;
    var ids: map<PeerId, PeerInfo> := map[];
    var left := peers.Keys;
    while left != {}
      invariant left <= peers.Keys
      invariant forall k :: k in peers && k !in left ==> c.parseId(k).Some?
      invariant TakenFrom(c, map k | k in peers && k !in left :: peers[k], ids)
      decreases |left|
    {
      var k :| k in left;
      var id := c.parseId(k);
      if id.None? { return Err(BadPeerId(k)); }
      OneMoreTaken(c, peers, left, ids, k, id.value);
      ids := ids[id.value := peers[k]];
      left := left - {k};
    }
    assert (map k | k in peers && k !in left :: peers[k]) == peers;
    return Ok(Config(d.value.openAll, ids));
  }

  lemma OneMoreTaken(c: Codec, peers: map<string, PeerInfo>, left: set<string>, ids: map<PeerId, PeerInfo>, k: string, id: PeerId)
    requires k in left && left <= peers.Keys && c.parseId(k) == Some(id)
    requires TakenFrom(c, map j | j in peers && j !in left :: peers[j], ids)
    ensures TakenFrom(c, map j | j in peers && j !in left - {k} :: peers[j], ids[id := peers[k]])
  {
    var before := map j | j in peers && j !in left :: peers[j];
    var after := map j | j in peers && j !in left - {k} :: peers[j];
    var more := ids[id := peers[k]];
    forall i | i in more ensures exists j :: j in after && c.parseId(j) == Some(i) && after[j] == more[i] {
      if i == id {
        assert k in after;
      } else {
        var j :| j in before && c.parseId(j) == Some(i) && before[j] == ids[i];
        assert j in after;
      }
    }
    forall j | j in after && c.parseId(j).Some? ensures c.parseId(j).value in more {
      if j != k { assert j in before; }
    }
  }

  /** Round trip: what was written is read back, and nothing else can be. */
  lemma ReadsBack(c: Codec, list: Config, r: Result<Config, LoadError>)
    requires Invertible(c)
    ensures ReadAs(c, Encoded(c, list), r) <==> r == Ok(list)
  {
    var d := Snapshot(list);
    assert c.fromJson(Encoded(c, list)) == Some(d);
    SnapshotParses(c, list);
    if r.Ok? && TakenFrom(c, d.peers, r.value.peers) {
      OnlyItself(c, list, r.value.peers);
    }
    assert TakenFrom(c, d.peers, list.peers) by {
      forall id | id in list.peers ensures exists k :: k in d.peers && c.parseId(k) == Some(id) && d.peers[k] == list.peers[id] {
        assert c.parseId(id) == Some(id);
      }
    }
  }

  lemma SnapshotParses(c: Codec, list: Config)
    requires Invertible(c)
    ensures forall k :: k in Snapshot(list).peers ==> |k| == 64 && c.parseId(k) == Some(k)
  {
  }

  lemma OnlyItself(c: Codec, list: Config, ids: map<PeerId, PeerInfo>)
    requires Invertible(c) && TakenFrom(c, Snapshot(list).peers, ids)
    ensures ids == list.peers
  {
    SnapshotParses(c, list);
    forall id | id in list.peers ensures id in ids {
      assert c.parseId(id) == Some(id);
    }
    forall id | id in ids ensures id in list.peers && ids[id] == list.peers[id] {
      var k :| k in Snapshot(list).peers && c.parseId(k) == Some(id) && Snapshot(list).peers[k] == ids[id];
    }
  }

  // ---------------------------------------------------------------- the directory

  datatype StoredFile = StoredFile(bytes: Bytes, mode: nat)

  /** The files of the data directory, by name. */
  type Directory = map<string, StoredFile>

  const LIST_NAME: string := "allowlist.json"

  /** Read and write for the owner, 600 in octal. */
  const OWNER_ONLY: nat := 384

  function TempName(random: string): string { ".allowlist." + random + ".tmp" }

  /** What the environment does to one write. */
  datatype WriteIo = WriteIo(
    dirMade: bool,
    tempMade: bool,
    tempMode: nat,
    written: bool,
    partial: Bytes,
    modeSet: bool,
    persisted: bool,
    tempDropped: bool,
    random: string)

  /** `dir` has the list file it had in `before`, or the new one. */
  predicate OldOrNew(before: Directory, dir: Directory, bytes: Bytes) {
    Lookup(dir, LIST_NAME) in {Lookup(before, LIST_NAME), Some(StoredFile(bytes, OWNER_ONLY))}
  }

  predicate AllOldOrNew(before: Directory, states: seq<Directory>, bytes: Bytes) {
    forall k :: 0 <= k < |states| ==> OldOrNew(before, states[k], bytes)
  }

  /** Nothing but the list file and a new temporary file differs. */
  ghost predicate OthersKept(before: Directory, after: Directory, random: string) {
    forall name :: name != LIST_NAME && (name == TempName(random) ==> name in before) ==>
      Lookup(after, name) == Lookup(before, name)
  }

  /** `write_atomic_0o600`. `states`: the directory after each change to it, as a crash
      would leave it. */
  method WriteAtomic(dir: Directory, bytes: Bytes, io: WriteIo) returns (ok: bool, after: Directory, states: seq<Directory>)
    ensures ok <==> && io.dirMade && io.tempMade && TempName(io.random) !in dir
                    && io.written && io.modeSet && io.persisted
    ensures Lookup(after, LIST_NAME) == if ok then Some(StoredFile(bytes, OWNER_ONLY)) else Lookup(dir, LIST_NAME)
    ensures OthersKept(dir, after, io.random) && (ok ==> TempName(io.random) !in after)
    ensures AllOldOrNew(dir, states, bytes)
    ensures after == if states == [] then dir else states[|states| - 1]
  {
    after, states := dir, [];
    var temp := TempName(io.random);
    if !io.dirMade || !io.tempMade || temp in dir { return false, after, states; }
    assert temp != LIST_NAME;
    after := dir[temp := StoredFile([], io.tempMode)];
    states := states + [after];
    after := after[temp := after[temp].(bytes := if io.written then bytes else io.partial)];
    states := states + [after];
    ok := io.written && io.modeSet;
    if ok {
      after := after[temp := after[temp].(mode := OWNER_ONLY)];
      states := states + [after];
      ok := io.persisted;
    }
    if ok {
      after := (after - {temp})[LIST_NAME := after[temp]];
      states := states + [after];
    } else if io.tempDropped {
      after := after - {temp};
      states := states + [after];
    }
  }
}
