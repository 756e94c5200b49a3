/** The walk that keeps every received path inside the watched directory. */
module SafePaths {
  import opened Prelude
  import opened RelPaths
  import opened FileSystem

  /** The watched directory as it was canonicalised at start: a plain path with no
      link above it. What stands at the path itself may have changed since. */
  ghost predicate Canonical(fs: FS, root: Path) {
    WellFormed(fs) && PlainNames(root) && NoLinksAbove(fs, root)
  }

  /** Each prefix of `parts` that exists below `root` is no link and, if proper, a directory. */
  ghost predicate PrefixesSafe(fs: FS, root: Path, parts: seq<string>) {
    forall i :: 1 <= i <= |parts| ==> PrefixSafe(fs, root, parts, i)
  }

  predicate PrefixSafe(fs: FS, root: Path, parts: seq<string>, i: nat)
    requires i <= |parts|
  {
    var p := root + parts[..i];
    p in fs ==> !fs[p].Symlink? && (i < |parts| ==> fs[p].Dir?)
  }

  /** The first `i` components are there and nothing was wrong with them. */
  ghost predicate Passed(fs: FS, root: Path, parts: seq<string>, i: nat)
    requires i <= |parts|
  {
    forall j :: 1 <= j <= i ==> root + parts[..j] in fs && PrefixSafe(fs, root, parts, j)
  }

  ghost predicate Safe(fs: FS, root: Path, rel: string) {
    && ValidateRelativePath(rel).Ok?
    && root in fs && fs[root].Dir?
    && PrefixesSafe(fs, root, Split(rel, '/'))
  }

  /** `symlink_metadata`: the entry at `p`, unless `stuck` by an error other than
      NotFound. Where no link stands above `p` it is the entry of that very name. */
  method SymlinkMetadata(fs: FS, p: Path) returns (entry: Option<Entry>, stuck: bool)
    ensures WellFormed(fs) && PlainNames(p) && NoLinksAbove(fs, p) && p in fs ==> !stuck && entry == Some(fs[p])
    ensures WellFormed(fs) && PlainNames(p) && NoLinksAbove(fs, p) && p !in fs ==> entry == None
    ensures (&& WellFormed(fs) && PlainNames(p) && NoLinksAbove(fs, p) && p !in fs
             && p != [] && Parent(p) in fs && fs[Parent(p)].Dir?) ==> !stuck
  {
    if WellFormed(fs) && PlainNames(p) && NoLinksAbove(fs, p) {
      LstatLiteral(fs, p);
    }
    match Lstat(fs, p)
    case Found(q) => entry, stuck := Lookup(fs, q), false;
    case Missing(_) => entry, stuck := None, false;
    case NoParent => entry, stuck := None, false;
    case _ => entry, stuck := None, true;
  }

  /** Main result on the check: it accepts exactly the safe paths, so nothing is lost
      by stopping at the first component that does not exist. */
  method ResolveSafePath(fs: FS, root: Path, rel: string) returns (r: Result<Path, PathError>)
    requires Canonical(fs, root)
    ensures r.Ok? <==> Safe(fs, root, rel)
    ensures r.Ok? ==> r.value == root + Split(rel, '/')
  {
    var valid := ValidateRelativePath(rel);
    if valid.Err? {
      return Err(valid.error);
    }
    var entry, stuck := SymlinkMetadata(fs, root);
    if stuck || entry.None? {
      return Err(RootMissing);
    }
    if !entry.value.Dir? {
      return Err(RootNotDirectory);
    }

    ValidExactly(rel);
    r := WalkParts(fs, root, Split(rel, '/'));
  }

  /** The component walk of `ResolveSafePath`, below a directory. */
  method WalkParts(fs: FS, root: Path, parts: seq<string>) returns (r: Result<Path, PathError>)
    requires Canonical(fs, root) && root in fs && fs[root].Dir? && PlainNames(parts)
    ensures r.Ok? <==> PrefixesSafe(fs, root, parts)
    ensures r.Ok? ==> r.value == root + parts
  {
    var current := root;
    assert root + parts[..0] == root;
    for i := 0 to |parts|
      invariant current == root + parts[..i]
      invariant Passed(fs, root, parts, i)
    {
      NextPart(root, parts, i);
      current := current + [parts[i]];
      StepsAreLiteral(fs, root, parts, i + 1);
      var entry, stuck := SymlinkMetadata(fs, current);
      if stuck {
        return Err(IoError);
      }
      if entry.None? {
        NothingFurther(fs, root, parts, i + 1);
        return Ok(root + parts);
      }
      Judged(fs, root, parts, i);
      if entry.value.Symlink? {
        return Err(SymlinkOnTheWay);
      }
      if i < |parts| - 1 && !entry.value.Dir? {
        return Err(NotADirectory);
      }
    }
    AllPassed(fs, root, parts);
    return Ok(root + parts);
  }

  lemma NextPart(root: Path, parts: seq<string>, i: nat)
    requires i < |parts|
    ensures (root + parts[..i]) + [parts[i]] == root + parts[..i + 1]
  {
  }

  /** What an existing component decides. */
  lemma Judged(fs: FS, root: Path, parts: seq<string>, i: nat)
    requires i < |parts| && root + parts[..i + 1] in fs && Passed(fs, root, parts, i)
    ensures var e := fs[root + parts[..i + 1]];
            if e.Symlink? || (i < |parts| - 1 && !e.Dir?) then !PrefixesSafe(fs, root, parts)
            else Passed(fs, root, parts, i + 1)
  {
    assert PrefixesSafe(fs, root, parts) ==> PrefixSafe(fs, root, parts, i + 1);
  }

  lemma AllPassed(fs: FS, root: Path, parts: seq<string>)
    requires Passed(fs, root, parts, |parts|)
    ensures PrefixesSafe(fs, root, parts)
  {
  }

  /** The prefixes already accepted make the next lookup literal. */
  lemma StepsAreLiteral(fs: FS, root: Path, parts: seq<string>, i: nat)
    requires Canonical(fs, root) && PlainNames(parts) && 1 <= i <= |parts|
    requires root in fs && fs[root].Dir?
    requires Passed(fs, root, parts, i - 1)
    ensures PlainNames(root + parts[..i]) && NoLinksAbove(fs, root + parts[..i])
    ensures Parent(root + parts[..i]) in fs && fs[Parent(root + parts[..i])].Dir?
  {
    var p := root + parts[..i];
    forall j | 0 <= j < |p| && p[..j] in fs
      ensures !fs[p[..j]].Symlink?
    {
      if j < |root| { assert p[..j] == root[..j]; }
      else if j == |root| { assert p[..j] == root; }
      else { assert p[..j] == root + parts[..j - |root|] && PrefixSafe(fs, root, parts, j - |root|); }
    }
    if i > 1 { assert PrefixSafe(fs, root, parts, i - 1); }
    assert Parent(p) == if i == 1 then root else root + parts[..i - 1];
  }

  lemma NothingFurther(fs: FS, root: Path, parts: seq<string>, i: nat)
    requires WellFormed(fs) && 1 <= i <= |parts| && root + parts[..i] !in fs && Passed(fs, root, parts, i - 1)
    ensures PrefixesSafe(fs, root, parts)
  {
    var p := root + parts;
    assert p[..|root| + i] == root + parts[..i];
    NothingBelow(fs, p, |root| + i);
    forall j | i <= j <= |parts|
      ensures PrefixSafe(fs, root, parts, j)
    {
      assert p[..|root| + j] == root + parts[..j];
    }
  }

  /** An accepted path has no link anywhere above it: the kernel resolves it, and
      every path with the same parent, to itself. */
  lemma SafeIsLiteral(fs: FS, root: Path, rel: string)
    requires Canonical(fs, root) && Safe(fs, root, rel)
    ensures var abs := root + Split(rel, '/');
            && Under(root, abs) && PlainNames(abs) && NoLinksAbove(fs, abs)
            && (forall i :: |root| <= i < |abs| && abs[..i] in fs ==> fs[abs[..i]].Dir?)
            && (abs in fs ==> !fs[abs].Symlink?)
  {
    var parts := Split(rel, '/');
    var abs := root + parts;
    ValidExactly(rel);
    forall i | 0 <= i < |abs| && abs[..i] in fs
      ensures !fs[abs[..i]].Symlink? && (i >= |root| ==> fs[abs[..i]].Dir?)
    {
      if i < |root| { assert abs[..i] == root[..i]; }
      else if i == |root| { assert abs[..i] == root; }
      else { assert abs[..i] == root + parts[..i - |root|] && PrefixSafe(fs, root, parts, i - |root|); }
    }
    assert parts[..|parts|] == parts && PrefixSafe(fs, root, parts, |parts|);
  }

  /** Containment: for an accepted path both kinds of lookup stay below the root. */
  lemma AcceptedStaysInside(fs: FS, root: Path, rel: string)
    requires Canonical(fs, root) && Safe(fs, root, rel)
    ensures var abs := root + Split(rel, '/');
            && (abs in fs ==> Lstat(fs, abs) == Found(abs) == Stat(fs, abs))
            && (abs !in fs ==> !Lstat(fs, abs).Found? && !Stat(fs, abs).Found?)
            && (Lstat(fs, abs).Missing? ==> Lstat(fs, abs).path == abs)
  {
    SafeIsLiteral(fs, root, rel);
    LstatLiteral(fs, root + Split(rel, '/'));
    StatLiteral(fs, root + Split(rel, '/'));
  }

  /** Why links on the way are refused: a path with one would be looked up below the
      target of the link, wherever that is. */
  lemma LinkLeadsOut(fs: FS, root: Path, rel: string, i: nat, target: Path)
    requires Canonical(fs, root) && root in fs && fs[root].Dir? && ValidateRelativePath(rel).Ok?
    requires i < |Split(rel, '/')| - 1 && Passed(fs, root, Split(rel, '/'), i)
    requires Lookup(fs, root + Split(rel, '/')[..i + 1]) == Some(Symlink(true, target))
    requires var there := target + Split(rel, '/')[i + 1..];
             there in fs && !fs[there].Symlink? && PlainNames(there) && NoLinksAbove(fs, there)
    ensures !Safe(fs, root, rel)
    ensures Stat(fs, root + Split(rel, '/')) == Found(target + Split(rel, '/')[i + 1..])
  {
    var parts := Split(rel, '/');
    ValidExactly(rel);
    assert !PrefixSafe(fs, root, parts, i + 1);
    DirReached(fs, root, parts, i);
    NextPart(root, parts, i);
    LinkFollowed(fs, root + parts[..i], parts[i], target, parts[i + 1..]);
    CutAt(root, parts, i);
  }

  lemma CutAt(root: Path, parts: seq<string>, i: nat)
    requires i < |parts|
    ensures root + parts == (root + parts[..i]) + ([parts[i]] + parts[i + 1..])
  {
  }

  lemma DirReached(fs: FS, root: Path, parts: seq<string>, i: nat)
    requires Canonical(fs, root) && root in fs && fs[root].Dir? && PlainNames(parts)
    requires i < |parts| && Passed(fs, root, parts, i)
    ensures var dir := root + parts[..i]; PlainNames(dir) && NoLinksAbove(fs, dir) && dir in fs && fs[dir].Dir?
  {
    if i == 0 {
      assert root + parts[..0] == root;
    } else {
      StepsAreLiteral(fs, root, parts, i);
      assert PrefixSafe(fs, root, parts, i);
    }
  }
}
