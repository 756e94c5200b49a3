/** A POSIX file system with symbolic links: path lookup by the kernel's rules and
    the system calls the daemon makes. */
module FileSystem {
  import opened Prelude
  import opened RelPaths

  /** An absolute path, by components. */
  type Path = seq<string>

  datatype Entry =
    | Dir
    | File(bytes: Bytes)
    | Symlink(absolute: bool, target: Path)

  type FS = map<Path, Entry>

  /** Symbolic links followed in one lookup before it fails with ELOOP. */
  const MAX_LINKS: nat := 40

  function Parent(p: Path): Path
    requires p != []
  {
    p[..|p| - 1]
  }

  ghost predicate WellFormed(fs: FS) {
    && [] in fs && fs[[]].Dir?
    && forall p :: p in fs && p != [] ==> Parent(p) in fs && fs[Parent(p)].Dir?
  }

  datatype Walk =
    | Found(path: Path)      // an entry
    | Missing(path: Path)    // no entry, in a directory that exists
    | NoParent               // no entry, and not even a directory for it
    | NotDir                 // a file where a directory is needed
    | TooManyLinks

  /** The kernel's walk over `todo` from the directory `cur`: links on the way are
      followed; the last component's only if `follow`. */
  function WalkFrom(fs: FS, cur: Path, todo: Path, follow: bool, links: nat): Walk
    decreases links, |todo|
  {
    if todo == [] then Found(cur)
    else if todo[0] == "." then WalkFrom(fs, cur, todo[1..], follow, links)
    else if todo[0] == ".." then WalkFrom(fs, if cur == [] then [] else Parent(cur), todo[1..], follow, links)
    else
      var next := cur + [todo[0]];
      if next !in fs then if |todo| == 1 then Missing(next) else NoParent
      else
        match fs[next]
        case Dir => WalkFrom(fs, next, todo[1..], follow, links)
        case File(_) => if |todo| == 1 then Found(next) else NotDir
        case Symlink(absolute, target) =>
          if |todo| == 1 && !follow then Found(next)
          else if links == 0 then TooManyLinks
          else WalkFrom(fs, if absolute then [] else cur, target + todo[1..], follow, links - 1)
  }

  /** `lstat`: the entry a path names, a final link not followed. */
  function Lstat(fs: FS, p: Path): Walk { WalkFrom(fs, [], p, false, MAX_LINKS) }

  /** `stat`: the entry a path leads to. */
  function Stat(fs: FS, p: Path): Walk { WalkFrom(fs, [], p, true, MAX_LINKS) }

  function ReadFile(fs: FS, p: Path): Option<Bytes> {
    match Stat(fs, p)
    case Found(q) => if q in fs && fs[q].File? then Some(fs[q].bytes) else None
    case _ => None
  }

  datatype Errno = NotFound | IsDirectory | Exists | Other

  /** `rename` of something that is not a directory. */
  function Rename(fs: FS, from: Path, to: Path): Result<FS, Errno> {
    match (Lstat(fs, from), Lstat(fs, to))
    case (Found(a), Found(b)) =>
      if a !in fs || b !in fs || fs[a].Dir? || fs[b].Dir? then Err(IsDirectory)
      else if a == b then Ok(fs) else Ok((fs - {a})[b := fs[a]])
    case (Found(a), Missing(b)) =>
      if a !in fs || fs[a].Dir? then Err(IsDirectory) else Ok((fs - {a})[b := fs[a]])
    case (Missing(_), _) => Err(NotFound)
    case (NoParent, _) => Err(NotFound)
    case _ => Err(Other)
  }

  function Unlink(fs: FS, p: Path): Result<FS, Errno> {
    match Lstat(fs, p)
    case Found(q) => if q !in fs || fs[q].Dir? then Err(IsDirectory) else Ok(fs - {q})
    case Missing(_) => Err(NotFound)
    case NoParent => Err(NotFound)
    case _ => Err(Other)
  }

  /** `open` with O_CREAT | O_EXCL. */
  function CreateFile(fs: FS, p: Path, bytes: Bytes): Result<FS, Errno> {
    match Lstat(fs, p)
    case Found(_) => Err(Exists)
    case Missing(q) => Ok(fs[q := File(bytes)])
    case _ => Err(Other)
  }

  function Mkdir(fs: FS, p: Path): Result<FS, Errno> {
    match Lstat(fs, p)
    case Found(_) => Err(Exists)
    case Missing(q) => Ok(fs[q := Dir])
    case _ => Err(Other)
  }

  /** `create_dir_all` on `p[..n]`, from its first `k` components on: what exists is
      left, what is missing is made. `refused` are paths where `mkdir` fails. */
  function CreateDirAll(fs: FS, p: Path, n: nat, k: nat, refused: set<Path>): (FS, bool)
    requires k <= n <= |p|
    decreases n - k
  {
    if k == n then (fs, true)
    else
      match Mkdir(fs, p[..k + 1])
      case Ok(made) => if p[..k + 1] in refused then (fs, false) else CreateDirAll(made, p, n, k + 1, refused)
      case Err(e) => if e.Exists? then CreateDirAll(fs, p, n, k + 1, refused) else (fs, false)
  }

  // ---------------------------------------------------------------- literal lookups

  /** No component of `p` above the last one is a link. */
  ghost predicate NoLinksAbove(fs: FS, p: Path) {
    forall i :: 0 <= i < |p| && p[..i] in fs ==> !fs[p[..i]].Symlink?
  }

  /** Without links on the way a lookup is literal: it finds the path itself. */
  lemma WalkLiteral(fs: FS, p: Path, k: nat, follow: bool, links: nat)
    requires WellFormed(fs) && PlainNames(p) && NoLinksAbove(fs, p)
    requires k <= |p| && p[..k] in fs && fs[p[..k]].Dir?
    requires follow && p in fs ==> !fs[p].Symlink?
    ensures p in fs ==> WalkFrom(fs, p[..k], p[k..], follow, links) == Found(p)
    ensures p !in fs ==>
              if p != [] && Parent(p) in fs && fs[Parent(p)].Dir? then
                WalkFrom(fs, p[..k], p[k..], follow, links) == Missing(p)
              else
                WalkFrom(fs, p[..k], p[k..], follow, links) in {NoParent, NotDir}
  {
    assert p[..|p|] == p;
    if p in fs {
      WalkFound(fs, p, k, follow, links);
    } else {
      WalkAbsent(fs, p, k, follow, links);
    }
  }

  lemma NextName(p: Path, k: nat)
    requires k < |p|
    ensures p[..k] + [p[k..][0]] == p[..k + 1] && p[k..][1..] == p[k + 1..] && p[..|p|] == p
    ensures Parent(p) == p[..|p| - 1]
  {
  }

  lemma {:induction false} WalkFound(fs: FS, p: Path, k: nat, follow: bool, links: nat)
    requires WellFormed(fs) && PlainNames(p) && NoLinksAbove(fs, p) && p in fs
    requires k <= |p| && p[..k] in fs && fs[p[..k]].Dir?
    requires follow ==> !fs[p].Symlink?
    ensures WalkFrom(fs, p[..k], p[k..], follow, links) == Found(p)
    decreases |p| - k
  {
    if k == |p| {
      assert p[..k] == p;
    } else {
      NextName(p, k);
      assert PlainName(p[k]);
      if k + 1 < |p| {
        if p[..k + 1] !in fs || !fs[p[..k + 1]].Dir? { NothingBelow(fs, p, k + 1); }
        WalkFound(fs, p, k + 1, follow, links);
      } else if fs[p].Dir? {
        WalkFound(fs, p, k + 1, follow, links);
      }
    }
  }

  lemma {:induction false} WalkAbsent(fs: FS, p: Path, k: nat, follow: bool, links: nat)
    requires WellFormed(fs) && PlainNames(p) && NoLinksAbove(fs, p) && p !in fs
    requires k < |p| && p[..k] in fs && fs[p[..k]].Dir?
    ensures WalkFrom(fs, p[..k], p[k..], follow, links)
            in if Parent(p) in fs && fs[Parent(p)].Dir? then {Missing(p)} else {NoParent, NotDir}
    decreases |p| - k
  {
    NextName(p, k);
    assert PlainName(p[k]);
    if k + 1 < |p| {
      if p[..k + 1] in fs && fs[p[..k + 1]].Dir? {
        WalkAbsent(fs, p, k + 1, follow, links);
      } else {
        NothingBelow(fs, p, k + 1);
      }
    }
  }

  /** Below something that is not a directory there is nothing. */
  lemma {:induction false} NothingBelow(fs: FS, p: Path, k: nat)
    requires WellFormed(fs) && k <= |p| && (p[..k] !in fs || !fs[p[..k]].Dir?)
    ensures forall j :: k < j <= |p| ==> p[..j] !in fs
    ensures k < |p| ==> p !in fs && (Parent(p) in fs ==> !fs[Parent(p)].Dir?)
  {
    forall j | k < j <= |p|
      ensures p[..j] !in fs
    {
      NotBelow(fs, p, k, j);
    }
    if k < |p| {
      assert p == p[..|p|];
    }
  }

  lemma {:induction false} NotBelow(fs: FS, p: Path, k: nat, j: nat)
    requires WellFormed(fs) && k < j <= |p| && (p[..k] !in fs || !fs[p[..k]].Dir?)
    ensures p[..j] !in fs
    decreases j
  {
    assert Parent(p[..j]) == p[..j - 1];
    if j > k + 1 { NotBelow(fs, p, k, j - 1); }
  }

  lemma LstatLiteral(fs: FS, p: Path)
    requires WellFormed(fs) && PlainNames(p) && NoLinksAbove(fs, p)
    ensures p in fs ==> Lstat(fs, p) == Found(p)
    ensures p !in fs ==>
              if p != [] && Parent(p) in fs && fs[Parent(p)].Dir? then Lstat(fs, p) == Missing(p)
              else Lstat(fs, p) in {NoParent, NotDir}
  {
    assert p[..0] == [] && p[0..] == p;
    WalkLiteral(fs, p, 0, false, MAX_LINKS);
  }

  lemma StatLiteral(fs: FS, p: Path)
    requires WellFormed(fs) && PlainNames(p) && NoLinksAbove(fs, p) && (p in fs ==> !fs[p].Symlink?)
    ensures p in fs ==> Stat(fs, p) == Found(p)
    ensures p !in fs ==> !Stat(fs, p).Found?
  {
    assert p[..0] == [] && p[0..] == p;
    WalkLiteral(fs, p, 0, true, MAX_LINKS);
  }

  /** A lookup that meets only directories ends with "not found" and no other error. */
  lemma {:induction false} WalkMissing(fs: FS, p: Path, k: nat, follow: bool, links: nat)
    requires PlainNames(p) && p !in fs && k < |p| && p[..k] in fs
    requires forall i :: 0 <= i < |p| && p[..i] in fs ==> fs[p[..i]].Dir?
    ensures WalkFrom(fs, p[..k], p[k..], follow, links) in {Missing(p), NoParent}
    decreases |p| - k
  {
    var next := p[..k] + [p[k..][0]];
    assert next == p[..k + 1] && p[k..][1..] == p[k + 1..] && p[..|p|] == p;
    assert PlainName(p[k]);
    if next in fs {
      WalkMissing(fs, p, k + 1, follow, links);
    }
  }

  lemma LstatMissing(fs: FS, p: Path)
    requires WellFormed(fs) && PlainNames(p) && p !in fs
    requires forall i :: 0 <= i < |p| && p[..i] in fs ==> fs[p[..i]].Dir?
    ensures Lstat(fs, p) in {Missing(p), NoParent}
  {
    assert p[..0] == [] && p[0..] == p;
    WalkMissing(fs, p, 0, false, MAX_LINKS);
  }

  /** A lookup passes through a directory before it looks up the rest. */
  lemma {:induction false} WalkThrough(fs: FS, dir: Path, rest: Path, k: nat, follow: bool, links: nat)
    requires WellFormed(fs) && PlainNames(dir) && NoLinksAbove(fs, dir) && dir in fs && fs[dir].Dir?
    requires k <= |dir| && rest != []
    ensures WalkFrom(fs, dir[..k], dir[k..] + rest, follow, links) == WalkFrom(fs, dir, rest, follow, links)
    decreases |dir| - k
  {
    if k == |dir| {
      assert dir[..k] == dir && dir[k..] + rest == rest;
    } else {
      NextName(dir, k);
      assert PlainName(dir[k]);
      assert (dir[k..] + rest)[1..] == dir[k + 1..] + rest;
      if dir[..k + 1] !in fs || !fs[dir[..k + 1]].Dir? { NothingBelow(fs, dir, k + 1); }
      WalkThrough(fs, dir, rest, k + 1, follow, links);
    }
  }

  /** A link on the way leads the lookup elsewhere: to what is at the rest of the path,
      below the link's target. */
  lemma LinkFollowed(fs: FS, dir: Path, name: string, target: Path, rest: Path)
    requires WellFormed(fs) && PlainNames(dir) && NoLinksAbove(fs, dir) && dir in fs && fs[dir].Dir?
    requires PlainName(name) && dir + [name] in fs && fs[dir + [name]] == Symlink(true, target)
    requires rest != [] && PlainNames(target + rest) && NoLinksAbove(fs, target + rest)
    requires target + rest in fs && !fs[target + rest].Symlink?
    ensures Stat(fs, dir + ([name] + rest)) == Found(target + rest)
  {
    assert dir[..0] == [] && dir[0..] == dir;
    WalkThrough(fs, dir, [name] + rest, 0, true, MAX_LINKS);
    assert ([name] + rest)[1..] == rest;
    var goal := target + rest;
    assert goal[..0] == [] && goal[0..] == goal;
    WalkLiteral(fs, goal, 0, true, MAX_LINKS - 1);
  }

  // ---------------------------------------------------------------- what the calls leave alone

  /** Strictly below `root`. */
  predicate Under(root: Path, p: Path) { root <= p && root != p }

  /** `after` differs from `before` at most strictly below `root`. */
  ghost predicate OnlyInside(root: Path, before: FS, after: FS) {
    forall p :: !Under(root, p) ==> Lookup(after, p) == Lookup(before, p)
  }

  /** A change of entries that are not directories, in directories, keeps the tree a tree. */
  lemma PutKeepsTree(fs: FS, p: Path, e: Entry)
    requires WellFormed(fs) && p != [] && Parent(p) in fs && fs[Parent(p)].Dir?
    requires p in fs ==> !fs[p].Dir? || e.Dir?
    ensures WellFormed(fs[p := e])
  {
  }

  lemma DropKeepsTree(fs: FS, p: Path)
    requires WellFormed(fs) && p in fs && !fs[p].Dir?
    ensures WellFormed(fs - {p})
  {
    forall q | q in fs - {p} && q != []
      ensures Parent(q) in fs - {p}
    {
      assert Parent(q) in fs && fs[Parent(q)].Dir?;
    }
  }
}
