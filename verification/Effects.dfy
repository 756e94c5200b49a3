/** What the system calls made for a received file do to the file system, given a
    target the walk in `SafePaths` has accepted. */
module Effects {
  import opened Prelude
  import opened RelPaths
  import opened FileSystem

  /** The file a path holds, if it is one. */
  function FileAt(fs: FS, p: Path): Option<Bytes> {
    if p in fs && fs[p].File? then Some(fs[p].bytes) else None
  }

  /** Calls on `abs` and on its siblings are literal, and the directories that exist
      on the way to it are directories. */
  ghost predicate Ready(fs: FS, root: Path, abs: Path) {
    && WellFormed(fs) && PlainNames(abs) && NoLinksAbove(fs, abs)
    && Under(root, abs) && root in fs && fs[root].Dir?
    && forall i :: |root| <= i < |abs| && abs[..i] in fs ==> fs[abs[..i]].Dir?
  }

  /** A neighbour of `abs`, or `abs` itself. */
  predicate Sibling(abs: Path, p: Path) {
    abs != [] && p != [] && Parent(p) == Parent(abs) && PlainName(p[|p| - 1])
  }

  lemma SamePrefixes(abs: Path, p: Path, i: nat)
    requires Sibling(abs, p) && i < |p|
    ensures |p| == |abs| && p[..i] == abs[..i]
  {
    SameLength(abs, p);
    assert p[..i] == Parent(p)[..i] && abs[..i] == Parent(abs)[..i];
  }

  lemma SiblingPlain(abs: Path, p: Path)
    requires Sibling(abs, p) && PlainNames(abs)
    ensures PlainNames(p)
  {
    SameLength(abs, p);
    forall k | 0 <= k < |p| ensures PlainName(p[k]) {
      if k < |p| - 1 { assert p[k] == Parent(p)[k] == Parent(abs)[k] == abs[k]; }
    }
  }

  lemma SiblingUnder(root: Path, abs: Path, p: Path)
    requires Sibling(abs, p) && Under(root, abs)
    ensures Under(root, p)
  {
    SamePrefixes(abs, p, |root|);
    assert p[..|root|] == root;
  }

  lemma SiblingIsReady(fs: FS, root: Path, abs: Path, p: Path)
    requires Ready(fs, root, abs) && Sibling(abs, p)
    ensures Ready(fs, root, p)
  {
    SameLength(abs, p);
    SiblingPlain(abs, p);
    SiblingUnder(root, abs, p);
    forall i | 0 <= i < |p| ensures p[..i] == abs[..i] { SamePrefixes(abs, p, i); }
  }

  lemma SiblingReady(fs: FS, root: Path, abs: Path, p: Path)
    requires Ready(fs, root, abs) && Sibling(abs, p)
    ensures Ready(fs, root, p)
    ensures p in fs ==> Lstat(fs, p) == Found(p)
    ensures p !in fs && Parent(p) in fs ==> Lstat(fs, p) == Missing(p)
    ensures p !in fs && Parent(p) !in fs ==> Lstat(fs, p) in {NoParent, NotDir}
  {
    SiblingIsReady(fs, root, abs, p);
    if Parent(p) in fs { ParentIsDir(fs, root, p); }
    LstatLiteral(fs, p);
  }

  /** Changes beside `abs` or deeper do not matter to the lookups on the way to it. */
  lemma ReadyKept(fs: FS, root: Path, abs: Path, after: FS)
    requires Ready(fs, root, abs) && WellFormed(after)
    requires forall p :: |p| < |abs| ==> Lookup(after, p) == Lookup(fs, p)
    ensures Ready(after, root, abs)
  {
    forall i | 0 <= i < |abs| ensures Lookup(after, abs[..i]) == Lookup(fs, abs[..i]) {
      assert |abs[..i]| < |abs|;
    }
    assert Lookup(after, root) == Lookup(fs, root);
  }

  lemma SameDirectory(fs: FS, abs: Path, from: Path, to: Path)
    requires WellFormed(fs) && Sibling(abs, from) && Sibling(abs, to) && from in fs
    ensures Parent(to) in fs
  {
  }

  lemma RenameLiteral(fs: FS, from: Path, to: Path)
    requires Lstat(fs, from) == Found(from) && from in fs && !fs[from].Dir? && from != to
    requires Lstat(fs, to) == if to in fs then Found(to) else Missing(to)
    ensures Rename(fs, from, to)
            == if to in fs && fs[to].Dir? then Err(IsDirectory) else Ok((fs - {from})[to := fs[from]])
  {
  }

  lemma MovedReady(fs: FS, root: Path, abs: Path, from: Path, to: Path)
    requires Ready(fs, root, abs) && Sibling(abs, from) && Sibling(abs, to) && from != to
    requires from in fs && !fs[from].Dir? && (to in fs ==> !fs[to].Dir?)
    ensures Ready((fs - {from})[to := fs[from]], root, abs)
  {
    var dropped := fs - {from};
    var moved := dropped[to := fs[from]];
    DropKeepsTree(fs, from);
    SameDirectory(fs, abs, from, to);
    assert Parent(to) != from && Parent(to) in dropped;
    PutKeepsTree(dropped, to, fs[from]);
    assert |from| == |abs| && |to| == |abs|;
    ReadyKept(fs, root, abs, moved);
  }

  /** A rename beside the target: done literally, and refused only onto a directory. */
  lemma RenameBeside(fs: FS, root: Path, abs: Path, from: Path, to: Path)
    requires Ready(fs, root, abs) && Sibling(abs, from) && Sibling(abs, to) && from != to
    requires from in fs && !fs[from].Dir?
    ensures match Rename(fs, from, to)
            case Err(_) => to in fs && fs[to].Dir?
            case Ok(after) => !(to in fs && fs[to].Dir?) && after == (fs - {from})[to := fs[from]] && Ready(after, root, abs)
  {
    SiblingReady(fs, root, abs, from);
    SiblingReady(fs, root, abs, to);
    SameDirectory(fs, abs, from, to);
    RenameLiteral(fs, from, to);
    if to !in fs || !fs[to].Dir? {
      MovedReady(fs, root, abs, from, to);
    }
  }

  /** What a literal lookup makes of `unlink` and of `open` with O_CREAT | O_EXCL. */
  lemma UnlinkLiteral(fs: FS, p: Path)
    requires if p in fs then Lstat(fs, p) == Found(p) else Lstat(fs, p) in {Missing(p), NoParent}
    ensures p in fs ==> Unlink(fs, p) == if fs[p].Dir? then Err(IsDirectory) else Ok(fs - {p})
    ensures p !in fs ==> Unlink(fs, p) == Err(NotFound)
  {
  }

  lemma CreateLiteral(fs: FS, p: Path, bytes: Bytes)
    requires Lstat(fs, p) == if p in fs then Found(p) else Missing(p)
    ensures CreateFile(fs, p, bytes) == if p in fs then Err(Exists) else Ok(fs[p := File(bytes)])
  {
  }

  lemma DroppedReady(fs: FS, root: Path, abs: Path, p: Path)
    requires Ready(fs, root, abs) && |p| == |abs| && p in fs && !fs[p].Dir?
    ensures Ready(fs - {p}, root, abs)
  {
    DropKeepsTree(fs, p);
    ReadyKept(fs, root, abs, fs - {p});
  }

  lemma AddedReady(fs: FS, root: Path, abs: Path, p: Path, bytes: Bytes)
    requires Ready(fs, root, abs) && |p| == |abs| && p !in fs && Parent(p) in fs && fs[Parent(p)].Dir?
    ensures Ready(fs[p := File(bytes)], root, abs)
  {
    PutKeepsTree(fs, p, File(bytes));
    ReadyKept(fs, root, abs, fs[p := File(bytes)]);
  }

  lemma SameLength(abs: Path, p: Path)
    requires Sibling(abs, p)
    ensures |p| == |abs|
  {
    assert |Parent(p)| == |Parent(abs)|;
  }

  /** All that exists above a path that is ready is a directory. */
  lemma SiblingMissing(fs: FS, root: Path, p: Path)
    requires Ready(fs, root, p) && p !in fs
    ensures Lstat(fs, p) in {Missing(p), NoParent}
  {
    forall i | 0 <= i < |p| && p[..i] in fs ensures fs[p[..i]].Dir? {
      if i < |root| { DirAbove(fs, root, i); assert p[..i] == root[..i]; }
    }
    LstatMissing(fs, p);
  }

  /** What is above a directory is a directory. */
  lemma DirAbove(fs: FS, dir: Path, i: nat)
    requires WellFormed(fs) && dir in fs && i < |dir|
    ensures dir[..i] in fs && fs[dir[..i]].Dir?
  {
    if dir[..i] !in fs || !fs[dir[..i]].Dir? { NothingBelow(fs, dir, i); }
  }

  lemma UnlinkBeside(fs: FS, root: Path, abs: Path, p: Path)
    requires Ready(fs, root, abs) && Sibling(abs, p)
    ensures p in fs && !fs[p].Dir? ==> Unlink(fs, p) == Ok(fs - {p}) && Ready(fs - {p}, root, abs)
    ensures p in fs && fs[p].Dir? ==> Unlink(fs, p) == Err(IsDirectory)
    ensures p !in fs ==> Unlink(fs, p) == Err(NotFound)
  {
    SiblingReady(fs, root, abs, p);
    if p !in fs { SiblingMissing(fs, root, p); }
    UnlinkLiteral(fs, p);
    SameLength(abs, p);
    if p in fs && !fs[p].Dir? {
      DroppedReady(fs, root, abs, p);
    }
  }

  lemma CreateBeside(fs: FS, root: Path, abs: Path, p: Path, bytes: Bytes)
    requires Ready(fs, root, abs) && Sibling(abs, p) && Parent(abs) in fs
    ensures match CreateFile(fs, p, bytes)
            case Err(_) => p in fs
            case Ok(after) => p !in fs && after == fs[p := File(bytes)] && Ready(after, root, abs)
  {
    SiblingReady(fs, root, abs, p);
    CreateLiteral(fs, p, bytes);
    SameLength(abs, p);
    if p !in fs {
      ParentIsDir(fs, root, abs);
      AddedReady(fs, root, abs, p, bytes);
    }
  }

  lemma ParentIsDir(fs: FS, root: Path, abs: Path)
    requires Ready(fs, root, abs) && abs != [] && Parent(abs) in fs
    ensures fs[Parent(abs)].Dir?
  {
    assert |root| <= |abs| - 1;
  }

  /** `after` has what `before` has and, besides, directories on the way to `abs`. */
  ghost predicate Grown(root: Path, abs: Path, before: FS, after: FS) {
    && (forall p :: p in before ==> p in after && after[p] == before[p])
    && (forall p :: p in after && p !in before ==> after[p].Dir? && Under(root, p) && p < abs)
  }

  lemma GrownTransitive(root: Path, abs: Path, a: FS, b: FS, c: FS)
    requires Grown(root, abs, a, b) && Grown(root, abs, b, c)
    ensures Grown(root, abs, a, c)
  {
    forall p | p in c && p !in a ensures c[p].Dir? && Under(root, p) && p < abs {
      assert p in b ==> c[p] == b[p];
    }
  }

  lemma OneDirMade(fs: FS, root: Path, abs: Path, k: nat)
    requires Ready(fs, root, abs) && 0 < k < |abs| && Mkdir(fs, abs[..k]).Ok?
    ensures var made := Mkdir(fs, abs[..k]).value;
            Ready(made, root, abs) && Grown(root, abs, fs, made) && abs[..k] in made
  {
    PrefixReady(fs, root, abs, k);
    assert Parent(abs[..k]) == abs[..k - 1];
    PutKeepsTree(fs, abs[..k], Dir);
    BelowRoot(fs, root, abs, k);
    DirAddedReady(fs, root, abs, k);
  }

  /** `create_dir_all` on the way to the target: only directories, only inside. */
  lemma {:induction false} DirsMade(fs: FS, root: Path, abs: Path, k: nat, refused: set<Path>)
    requires Ready(fs, root, abs) && k < |abs|
    ensures var after := CreateDirAll(fs, abs, |abs| - 1, k, refused).0;
            Ready(after, root, abs) && Grown(root, abs, fs, after)
    decreases |abs| - k
  {
    if k < |abs| - 1 {
      match Mkdir(fs, abs[..k + 1])
      case Ok(made) =>
        OneDirMade(fs, root, abs, k + 1);
        if abs[..k + 1] !in refused {
          DirsMade(made, root, abs, k + 1, refused);
          GrownTransitive(root, abs, fs, made, CreateDirAll(made, abs, |abs| - 1, k + 1, refused).0);
        }
      case Err(e) =>
        if e.Exists? { DirsMade(fs, root, abs, k + 1, refused); }
    }
  }

  /** All of them are there when it succeeds, which it does unless `mkdir` is refused. */
  lemma {:induction false} AllDirsMade(fs: FS, root: Path, abs: Path, k: nat, refused: set<Path>)
    requires Ready(fs, root, abs) && k < |abs| && abs[..k] in fs
    ensures var (after, ok) := CreateDirAll(fs, abs, |abs| - 1, k, refused);
            && (ok ==> abs[..|abs| - 1] in after)
            && (refused == {} ==> ok)
    decreases |abs| - k
  {
    if k < |abs| - 1 {
      PrefixReady(fs, root, abs, k + 1);
      match Mkdir(fs, abs[..k + 1])
      case Ok(made) =>
        OneDirMade(fs, root, abs, k + 1);
        if abs[..k + 1] !in refused { AllDirsMade(made, root, abs, k + 1, refused); }
      case Err(e) =>
        if e.Exists? { AllDirsMade(fs, root, abs, k + 1, refused); }
    }
  }

  /** A missing ancestor of the target lies strictly below the root. */
  lemma BelowRoot(fs: FS, root: Path, abs: Path, k: nat)
    requires Ready(fs, root, abs) && k < |abs| && abs[..k] !in fs
    ensures Under(root, abs[..k])
  {
    if k <= |root| {
      assert abs[..|root|] == root;
      if k < |root| {
        NothingBelow(fs, abs, k);
      }
      assert false;
    }
    assert root <= abs[..k];
  }

  lemma RootIsPrefix(root: Path, abs: Path)
    requires root <= abs
    ensures abs[..|root|] == root
  {
  }

  lemma PrefixReady(fs: FS, root: Path, abs: Path, k: nat)
    requires Ready(fs, root, abs) && 0 < k < |abs|
    ensures abs[..k] in fs ==> Lstat(fs, abs[..k]) == Found(abs[..k])
    ensures Mkdir(fs, abs[..k]).Ok? <==> abs[..k] !in fs && abs[..k - 1] in fs
    ensures Mkdir(fs, abs[..k]).Ok? ==> Mkdir(fs, abs[..k]).value == fs[abs[..k] := Dir] && fs[abs[..k - 1]].Dir?
    ensures Mkdir(fs, abs[..k]) == Err(Exists) <==> abs[..k] in fs
  {
    var p := abs[..k];
    forall i | 0 <= i < |p| ensures p[..i] == abs[..i] {}
    assert Parent(p) == abs[..k - 1];
    LstatLiteral(fs, p);
    if abs[..k - 1] in fs && !fs[abs[..k - 1]].Dir? {
      NothingBelow(fs, abs, k - 1);
      RootIsPrefix(root, abs);
      assert false;
    }
  }

  lemma DirAddedReady(fs: FS, root: Path, abs: Path, k: nat)
    requires Ready(fs, root, abs) && 0 < k < |abs| && abs[..k] !in fs && WellFormed(fs[abs[..k] := Dir])
    ensures Ready(fs[abs[..k] := Dir], root, abs)
  {
  }

  /** `after` differs from `before` only at the siblings `mine` of the target and by
      new directories on the way to it. */
  ghost predicate Kept(root: Path, abs: Path, mine: set<Path>, before: FS, after: FS) {
    && Ready(after, root, abs)
    && (forall p :: p !in mine && p in before ==> Lookup(after, p) == Lookup(before, p))
    && (forall p :: p !in mine && p !in before && p in after ==> after[p].Dir? && Under(root, p) && p < abs)
  }

  lemma KeptTransitive(root: Path, abs: Path, mine: set<Path>, a: FS, b: FS, c: FS)
    requires Kept(root, abs, mine, a, b) && Kept(root, abs, mine, b, c)
    ensures Kept(root, abs, mine, a, c)
  {
    forall p | p !in mine && p in a ensures Lookup(c, p) == Lookup(a, p) {
      assert Lookup(b, p) == Lookup(a, p);
    }
    forall p | p !in mine && p !in a && p in c ensures c[p].Dir? && Under(root, p) && p < abs {
      assert p in b ==> Lookup(c, p) == Lookup(b, p);
    }
  }

  lemma KeptFiles(root: Path, abs: Path, mine: set<Path>, before: FS, after: FS)
    requires Kept(root, abs, mine, before, after)
    ensures forall p :: p !in mine ==> FileAt(after, p) == FileAt(before, p)
  {
    forall p | p !in mine ensures FileAt(after, p) == FileAt(before, p) {
      assert p in before ==> Lookup(after, p) == Lookup(before, p);
    }
  }

  lemma KeptInside(root: Path, abs: Path, mine: set<Path>, before: FS, after: FS)
    requires Kept(root, abs, mine, before, after) && forall p :: p in mine ==> Under(root, p)
    ensures OnlyInside(root, before, after)
  {
    forall p | !Under(root, p) ensures Lookup(after, p) == Lookup(before, p) {
      assert p !in mine;
    }
  }

  lemma GrownKept(root: Path, abs: Path, mine: set<Path>, before: FS, after: FS)
    requires Ready(after, root, abs) && Grown(root, abs, before, after)
    requires forall p :: p in mine ==> !(p < abs)
    ensures Kept(root, abs, mine, before, after)
    ensures forall p :: p in mine ==> Lookup(after, p) == Lookup(before, p)
  {
  }

  lemma KeptWider(root: Path, abs: Path, mine: set<Path>, more: set<Path>, before: FS, after: FS)
    requires Kept(root, abs, mine, before, after) && mine <= more
    requires forall p :: p in more ==> |p| == |abs|
    ensures Kept(root, abs, more, before, after)
  {
  }

  lemma SiblingsChanged(root: Path, abs: Path, mine: set<Path>, before: FS, after: FS)
    requires Ready(after, root, abs)
    requires forall p :: p !in mine ==> Lookup(after, p) == Lookup(before, p)
    ensures Kept(root, abs, mine, before, after)
  {
    forall p | p !in mine && p !in before ensures p !in after {
      assert Lookup(after, p) == Lookup(before, p);
    }
  }
}
