/** Relative paths as they travel in a SyncUpdate, and the names the watcher skips. */
module RelPaths {
  import opened Prelude
  import opened Nodes

  datatype PathError =
    | EmptyPath | AbsolutePath | Backslash | EmptyComponent | DotComponent
    | RootMissing | RootNotDirectory | SymlinkOnTheWay | NotADirectory | IoError

  /** The parts of `s` between separators; an empty string has one empty part. */
  function Split(s: string, sep: char): (parts: seq<string>)
    ensures |parts| > 0
  {
    if s == "" then [""]
    else
      var rest := Split(s[1..], sep);
      if s[0] == sep then [""] + rest else [[s[0]] + rest[0]] + rest[1..]
  }

  function Join(parts: seq<string>, sep: char): string
    requires |parts| > 0
  {
    if |parts| == 1 then parts[0] else parts[0] + [sep] + Join(parts[1..], sep)
  }

  /** Splitting loses nothing: two paths with the same components are the same path. */
  lemma {:induction false} JoinOfSplit(s: string, sep: char)
    ensures Join(Split(s, sep), sep) == s
    ensures forall k :: 0 <= k < |Split(s, sep)| ==> sep !in Split(s, sep)[k]
  {
    if s != "" {
      var rest := Split(s[1..], sep);
      JoinOfSplit(s[1..], sep);
      if s[0] == sep {
        assert ([""] + rest)[1..] == rest;
        assert s == [sep] + s[1..];
      } else {
        var parts := [[s[0]] + rest[0]] + rest[1..];
        assert parts[1..] == rest[1..];
        assert s == [s[0]] + s[1..];
      }
    }
  }

  /** A component check of `ValidateRelativePath`. */
  function CheckComponents(parts: seq<string>): Result<(), PathError> {
    if parts == [] then Ok(())
    else if parts[0] == "" then Err(EmptyComponent)
    else if parts[0] == ".." || parts[0] == "." then Err(DotComponent)
    else CheckComponents(parts[1..])
  }

  function ValidateRelativePath(p: string): Result<(), PathError> {
    if p == "" then Err(EmptyPath)
    else if p[0] == '/' then Err(AbsolutePath)
    else if '\\' in p then Err(Backslash)
    else CheckComponents(Split(p, '/'))
  }

  predicate PlainName(name: string) { name != "" && name != "." && name != ".." }

  predicate PlainNames(names: seq<string>) {
    forall k :: 0 <= k < |names| ==> PlainName(names[k])
  }

  lemma {:induction false} ComponentsPlain(parts: seq<string>)
    ensures CheckComponents(parts).Ok? <==> PlainNames(parts)
  {
    if parts != [] {
      ComponentsPlain(parts[1..]);
      assert parts == [parts[0]] + parts[1..];
      if PlainName(parts[0]) && PlainNames(parts[1..]) {
        forall k | 0 <= k < |parts| ensures PlainName(parts[k]) {
          assert k > 0 ==> parts[k] == parts[1..][k - 1];
        }
      }
      if PlainNames(parts) {
        forall k | 0 <= k < |parts[1..]| ensures PlainName(parts[1..][k]) {
          assert parts[1..][k] == parts[k + 1];
        }
      }
    }
  }

  /** A path is accepted exactly when it has no backslash and consists of names that
      each denote a directory entry: emptiness and a leading slash are empty names. */
  lemma ValidExactly(p: string)
    ensures ValidateRelativePath(p).Ok? <==> '\\' !in p && PlainNames(Split(p, '/'))
  {
    ComponentsPlain(Split(p, '/'));
    assert p == "" || p[0] == '/' ==> !PlainName(Split(p, '/')[0]);
  }

  // ---------------------------------------------------------------- skipped names

  predicate EndsWith(name: string, suffix: string) {
    |name| >= |suffix| && name[|name| - |suffix|..] == suffix
  }

  predicate Contains(name: string, part: string) {
    exists k :: 0 <= k <= |name| - |part| && name[k..][..|part|] == part
  }

  const CONFLICT_MARK: string := ".conflict-local-"

  predicate NameSkipped(name: string) {
    || (name != "" && name[0] == '.')
    || EndsWith(name, ".swp") || EndsWith(name, ".swx") || EndsWith(name, ".tmp") || EndsWith(name, "~")
    || Contains(name, CONFLICT_MARK)
  }

  /** The watcher reports nothing about such a path. */
  predicate Skippable(p: Rel) {
    exists k :: 0 <= k < |p| && NameSkipped(p[k])
  }

  /** Which names are skipped, in letters: hidden ones, those of editors' temporary files
      and backups, and conflict backups. */
  lemma NamesSkipped(stem: string, tag: string)
    ensures NameSkipped("." + stem) && NameSkipped(stem + ".swp") && NameSkipped(stem + ".swx")
    ensures NameSkipped(stem + ".tmp") && NameSkipped(stem + "~")
    ensures NameSkipped(stem + ".conflict-local-" + tag)
  {
    assert (stem + ".swp")[|stem|..] == ".swp" && (stem + ".swx")[|stem|..] == ".swx" && (stem + ".tmp")[|stem|..] == ".tmp";
    assert (stem + "~")[|stem|..] == "~";
    var name := stem + ".conflict-local-" + tag;
    assert name[|stem|..][..|CONFLICT_MARK|] == CONFLICT_MARK;
  }

  /** Ordinary names are not skipped: of those without a tilde and with one dot, which is
      not in front, exactly those with one of four endings are, and of those without a
      dot none. */
  lemma OrdinaryNames(stem: string, ending: string)
    requires stem != "" && '.' !in stem && '~' !in stem && '.' !in ending && '~' !in ending
    ensures !NameSkipped(stem)
    ensures NameSkipped(stem + "." + ending) <==> ending in {"swp", "swx", "tmp"} || "conflict-local-" <= ending
  {
    var name := stem + "." + ending;
    EndingIs(stem, ending, "swp");
    EndingIs(stem, ending, "swx");
    EndingIs(stem, ending, "tmp");
    assert ".swp" == "." + "swp" && ".swx" == "." + "swx" && ".tmp" == "." + "tmp";
    LastIsIn(stem, "~");
    LastIsIn(name, "~");
    MarkIs(stem, ending);
  }

  lemma LastIsIn(name: string, suffix: string)
    requires suffix != ""
    ensures EndsWith(name, suffix) ==> suffix[0] in name
  {
    if EndsWith(name, suffix) { assert name[|name| - |suffix|..][0] == suffix[0]; }
  }

  lemma EndingIs(stem: string, ending: string, extension: string)
    requires '.' !in stem && '.' !in ending && '.' !in extension
    ensures !EndsWith(stem, "." + extension)
    ensures EndsWith(stem + "." + ending, "." + extension) <==> ending == extension
  {
    var name := stem + "." + ending;
    LastIsIn(stem, "." + extension);
    assert name[|stem|..] == "." + ending;
    assert ("." + ending)[1..] == ending && ("." + extension)[1..] == extension;
    if EndsWith(name, "." + extension) {
      assert name[|name| - |"." + extension|..][0] == '.';
    }
  }

  lemma MarkIs(stem: string, ending: string)
    requires '.' !in stem && '.' !in ending
    ensures !Contains(stem, CONFLICT_MARK)
    ensures Contains(stem + "." + ending, CONFLICT_MARK) <==> "conflict-local-" <= ending
  {
    var name := stem + "." + ending;
    var mark: string := "conflict-local-";
    assert CONFLICT_MARK == "." + mark && name[|stem|..] == "." + ending;
    forall k | 0 <= k <= |stem| - |CONFLICT_MARK| ensures stem[k..][..|CONFLICT_MARK|] != CONFLICT_MARK {
      assert stem[k..][..|CONFLICT_MARK|][0] == stem[k];
    }
    forall k | 0 <= k <= |name| - |CONFLICT_MARK| && k != |stem| ensures name[k..][..|CONFLICT_MARK|] != CONFLICT_MARK {
      assert name[k..][..|CONFLICT_MARK|][0] == name[k];
    }
    if |ending| >= |mark| {
      assert ("." + ending)[..|CONFLICT_MARK|] == "." + ending[..|mark|];
      assert ("." + ending[..|mark|])[1..] == ending[..|mark|] && ("." + mark)[1..] == mark;
    }
  }

  function BackupName(name: string, tag: string): string { name + CONFLICT_MARK + tag }

  /** The conflict backup of `p`, next to it. */
  function BackupPath(p: Rel, tag: string): Rel
    requires p != []
  {
    p[..|p| - 1] + [BackupName(p[|p| - 1], tag)]
  }

  function TempName(random: string): string { ".dirhive." + random + ".tmp" }

  /** What reception creates besides the file itself is never broadcast. */
  lemma ReceptionNamesSkipped(p: Rel, tag: string, random: string)
    requires p != []
    ensures Skippable(BackupPath(p, tag))
    ensures Skippable(p[..|p| - 1] + [TempName(random)])
  {
    var name, n := p[|p| - 1], BackupPath(p, tag);
    assert n[|p| - 1] == name + CONFLICT_MARK + tag;
    assert n[|p| - 1][|name|..][..|CONFLICT_MARK|] == CONFLICT_MARK;
    assert NameSkipped(n[|p| - 1]);
    assert NameSkipped((p[..|p| - 1] + [TempName(random)])[|p| - 1]);
  }

  /** A backup name tells which file and which peer it is for. */
  lemma BackupPathInjective(p: Rel, tag: string, q: Rel, other: string)
    requires p != [] && q != [] && |tag| == |other|
    ensures BackupPath(p, tag) == BackupPath(q, other) <==> p == q && tag == other
  {
    if BackupPath(p, tag) == BackupPath(q, other) {
      var a, b := BackupPath(p, tag), BackupPath(q, other);
      assert |a| == |p| && |b| == |q|;
      var x, y := p[|p| - 1], q[|q| - 1];
      assert a[|p| - 1] == BackupName(x, tag) && b[|q| - 1] == BackupName(y, other);
      assert |x| == |y|;
      assert BackupName(x, tag)[..|x|] == x && BackupName(y, other)[..|y|] == y;
      assert BackupName(x, tag)[|x| + |CONFLICT_MARK|..] == tag;
      assert BackupName(y, other)[|y| + |CONFLICT_MARK|..] == other;
      assert p == a[..|p| - 1] + [x] && q == b[..|q| - 1] + [y];
      assert a[..|p| - 1] == p[..|p| - 1] && b[..|q| - 1] == q[..|q| - 1];
    }
  }
}
