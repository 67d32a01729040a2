/** Whether the files of a flattened workflow lie in its directory: the guard tests
    the path as it is written, everything else works on its normal form. */
module IncludeScope {
  import opened Graphs
  import opened Text
  import opened SlashPath
  import opened Include

  // ---------------------------------------------------------------- backslashes

  lemma {:induction false} ToSlashSame(s: string)
    requires '\\' !in s
    ensures ToSlash(s) == s
    decreases |s|
  {
    if s != "" {
      ToSlashSame(s[..|s| - 1]);
      SplitLast(s);
    }
  }

  lemma {:induction false} ToSlashConcat(a: string, b: string)
    ensures ToSlash(a + b) == ToSlash(a) + ToSlash(b)
    decreases |b|
  {
    if b == "" {
      assert a + b == a;
    } else {
      assert (a + b)[..|a + b| - 1] == a + b[..|b| - 1];
      ToSlashConcat(a, b[..|b| - 1]);
    }
  }

  lemma {:induction false} NoBackslashAfter(s: string)
    ensures '\\' !in ToSlash(s)
    decreases |s|
  {
    if s != "" {
      NoBackslashAfter(s[..|s| - 1]);
    }
  }

  // ---------------------------------------------------------------- the exact condition

  /** The directories for which the guard is exact: the current one, and those with a
      name in their path. */
  ghost predicate ExactDir(dir: Path) {
    Valid(dir) && (dir.names != [] || dir == Path(false, 0, []))
  }

  /** The guard, applied to the normal form; in the current directory it must not be
      rooted either. */
  ghost predicate InScope(dir: string, key: string) {
    WithinDir(dir, key) && (dir == "." ==> !StartsWith(key, "/"))
  }

  lemma ShowHere()
    ensures Show(Path(false, 0, [])) == "." && Components(Path(false, 0, [])) == []
  {
  }

  /** The normal form of a path lies in the directory exactly if it passes the guard
      itself. */
  lemma KeyLiesInIff(dir: Path, path: string)
    requires ExactDir(dir)
    ensures LiesIn(dir, Parse(KeyOf(path))) <==> InScope(Show(dir), KeyOf(path))
  {
    var key := Parse(ToSlash(path));
    ParseIsValid(ToSlash(path));
    ParseUndoesShow(key);
    ShownIsNotEmpty(key);
    ShowHere();
    if dir.names != [] {
      NamedDirIsExact(dir, key);
      ShowIsInjective(dir, Path(false, 0, []));
    } else if !key.rooted {
      CurrentDirIsExact(key);
    }
  }

  /** The files on a chain of includes lie in the directory exactly if the guard
      accepts their normal forms too. */
  lemma ChainLiesInIff(dir: Path, chain: seq<string>)
    requires ExactDir(dir)
    ensures (forall i | 0 < i < |chain| :: LiesIn(dir, Parse(KeyOf(chain[i]))))
       <==> forall i | 0 < i < |chain| :: InScope(Show(dir), KeyOf(chain[i]))
  {
    forall i | 0 < i < |chain|
      ensures LiesIn(dir, Parse(KeyOf(chain[i]))) <==> InScope(Show(dir), KeyOf(chain[i]))
    {
      KeyLiesInIff(dir, chain[i]);
    }
  }

  // ---------------------------------------------------------------- without backslashes

  /** An included path is in normal form, and relative if the including one is. */
  lemma IncludedIsClean(files: Files, path: string, child: string)
    requires Includes(files, path, child)
    ensures Clean(child) == child
    ensures !StartsWith(KeyOf(path), "/") ==> !StartsWith(child, "/")
  {
    var pairs := files[path].pairs;
    var i, j :| 0 <= i < |pairs| && IncludesAt(pairs[i], KeyOf(path), j, child);
    ParseIsValid(ToSlash(path));
    ChildIsClean(Parse(ToSlash(path)), pairs[i].value.items[j].text);
  }

  lemma ChildIsClean(p: Path, name: string)
    requires Valid(p) && name != ""
    ensures Clean(ChildPath(Show(p), name)) == ChildPath(Show(p), name)
    ensures !StartsWith(Show(p), "/") ==> !StartsWith(ChildPath(Show(p), name), "/")
  {
    var q := FollowAll(Parent(p), Split(name, '/'));
    ChildIsRelative(p, name);
    FollowTextKeepsValid(Parent(p), name);
    ParseUndoesShow(q);
    FollowKeepsRoot(Parent(p), Split(name, '/'));
    ShownIsNotEmpty(p);
    ShownIsNotEmpty(q);
  }

  /** If no included path holds a backslash, every file of a workflow that can be
      merged lies in its directory. */
  lemma IncludedFilesLieInDir(files: Files, entry: string, chain: seq<string>)
    requires TreeOk(files, Dir(KeyOf(entry)), entry, true, {}) && IsChain(files, chain) && chain[0] == entry
    requires ExactDir(Parse(Dir(KeyOf(entry))))
    requires forall i | 0 < i < |chain| :: '\\' !in chain[i]
    ensures forall i | 0 < i < |chain| :: LiesIn(Parse(Dir(KeyOf(entry))), Parse(KeyOf(chain[i])))
  {
    var dir := Dir(KeyOf(entry));
    TreeOkMakesSound(files, dir, chain, true, {});
    DirIsShown(entry);
    forall i | 0 < i < |chain|
      ensures LiesIn(Parse(dir), Parse(KeyOf(chain[i])))
    {
      KeysOfChain(files, entry, chain, i);
      KeyLiesInIff(Parse(dir), chain[i]);
    }
  }

  lemma DirIsShown(entry: string)
    ensures var dir := Dir(KeyOf(entry)); Show(Parse(dir)) == dir && (dir == "." ==> !StartsWith(KeyOf(entry), "/"))
  {
    var p := Parse(ToSlash(entry));
    ParseIsValid(ToSlash(entry));
    ShownIsNotEmpty(p);
    DirIsParent(p);
    ParseUndoesShow(Parent(p));
    ShownIsNotEmpty(Parent(p));
  }

  lemma {:induction false} KeysOfChain(files: Files, entry: string, chain: seq<string>, i: nat)
    requires IsChain(files, chain) && chain[0] == entry && 0 < i < |chain|
    requires forall j | 0 < j < |chain| :: '\\' !in chain[j]
    ensures KeyOf(chain[i]) == chain[i]
    ensures !StartsWith(KeyOf(entry), "/") ==> !StartsWith(chain[i], "/")
  {
    assert Includes(files, chain[i - 1], chain[i]);
    if i > 1 {
      KeysOfChain(files, entry, chain, i - 1);
    }
    IncludedIsClean(files, chain[i - 1], chain[i]);
    ToSlashSame(chain[i]);
  }

  // ---------------------------------------------------------------- with a backslash

  /** Names without backslashes. */
  ghost predicate Plain(p: Path) {
    Valid(p) && p.names != [] && '\\' !in Show(p)
  }

  /** The last name of a path. */
  function Name(p: Path): string
    requires p.names != []
  {
    p.names[|p.names| - 1]
  }

  lemma ShowLonger(p: Path, name: string)
    requires Valid(p) && Components(p) != [] && IsName(name)
    ensures Valid(p.(names := p.names + [name])) && Show(p.(names := p.names + [name])) == Show(p) + "/" + name
  {
    var q := p.(names := p.names + [name]);
    assert q.names[..|p.names|] == p.names;
    assert Parent(q) == p;
    ParentFacts(q);
    ShowEndsWithLast(q, name);
  }

  /** From any directory with a name, the text that climbs out of it with a backslash
      passes the guard, and stands for a sibling of the directory. */
  lemma BackslashClimbs(dir: Path, x: string)
    requires Plain(dir) && IsName(x) && '\\' !in x
    ensures IsName("..\\" + x)
    ensures WithinDir(Show(dir), Show(dir) + "/" + ("..\\" + x))
    ensures KeyOf(Show(dir) + "/" + ("..\\" + x)) == Show(Parent(dir).(names := Parent(dir).names + [x]))
  {
    BackslashPasses(dir, "..\\" + x);
    SlashedChild(Show(dir), x);
    ParseAppended(dir, ".." + ['/'] + x);
    UpAndDown(dir, x);
  }

  lemma BackslashPasses(dir: Path, name: string)
    requires Plain(dir) && |name| > 2 && name[2] == '\\' && '/' !in name
    ensures IsName(name) && WithinDir(Show(dir), Show(dir) + "/" + name)
  {
    assert Show(dir) + "/" <= Show(dir) + "/" + name;
    ShowHere();
    ShowIsInjective(dir, Path(false, 0, []));
    ShownIsNotEmpty(dir);
  }

  lemma SlashedChild(front: string, x: string)
    requires '\\' !in front && '\\' !in x
    ensures ToSlash(front + "/" + ("..\\" + x)) == front + "/" + (".." + ['/'] + x)
  {
    SlashedName(x);
    ToSlashConcat(front + "/", "..\\" + x);
    ToSlashSame(front + "/");
  }

  lemma SlashedName(x: string)
    requires '\\' !in x
    ensures ToSlash("..\\" + x) == ".." + ['/'] + x
  {
    ToSlashConcat("..\\", x);
    ToSlashSame(x);
    ToSlashSame("..");
    assert "..\\"[..2] == "..";
    assert ToSlash("..\\") == ToSlash("..") + ['/'];
  }

  lemma UpAndDown(dir: Path, x: string)
    requires Valid(dir) && dir.names != [] && IsName(x)
    ensures FollowAll(dir, Split(".." + ['/'] + x, '/')) == Parent(dir).(names := Parent(dir).names + [x])
  {
    SplitConcat("..", '/', x);
    SplitPiece("..", '/');
    SplitPiece(x, '/');
    var both := ["..", x];
    assert [".."] + [x] == both && both[..1] == [".."] && [".."][..0] == [];
    assert FollowAll(dir, both[..1]) == Follow(FollowAll(dir, [".."][..0]), "..") == Parent(dir);
    assert FollowAll(dir, both) == Follow(FollowAll(dir, both[..1]), both[1]);
  }

  /** A workflow of two files, the second of which the first one includes. */
  function TwoFiles(entry: string, name: string, child: string): Files {
    map[child := Empty][entry := Document([Pair(INCLUDE, List([Scalar(name)]))])]
  }

  lemma TwoFilesAreOk(dir: string, entry: string, name: string, child: string)
    requires name != "" && KeyOf(entry) == entry && child == ChildPath(entry, name)
    requires child != entry && KeyOf(child) != entry && WithinDir(dir, child)
    ensures var files := TwoFiles(entry, name, child);
      TreeOk(files, dir, entry, true, {}) && IsChain(files, [entry, child])
  {
    var files := TwoFiles(entry, name, child);
    var pair := Pair(INCLUDE, List([Scalar(name)]));
    assert files[entry].pairs == [pair] && pair.value.items == [Scalar(name)];
    assert TreeOk(files, dir, child, false, {} + {entry});
    assert IncludeOk(files, dir, entry, Scalar(name), {} + {entry});
    assert PairOk(files, dir, entry, pair, true, {} + {entry});
    assert IncludesAt(files[entry].pairs[0], KeyOf(entry), 0, child);
    assert Includes(files, entry, child);
  }

  lemma EntryIsKey(dir: Path)
    requires Plain(dir)
    ensures var file, entry := dir.(names := dir.names + ["e"]), Show(dir) + "/" + "e";
      Valid(file) && Parent(file) == dir && entry == Show(file) && KeyOf(entry) == entry && Dir(entry) == Show(dir)
  {
    var file := dir.(names := dir.names + ["e"]);
    UpsFacts(dir.ups);
    ShowLonger(dir, "e");
    assert file.names[..|dir.names|] == dir.names && Parent(file) == dir;
    DirIsParent(file);
    ToSlashSame(Show(file));
    ParseUndoesShow(file);
  }

  lemma ClimbingChild(dir: Path, name: string)
    requires Plain(dir) && IsName(name)
    ensures ChildPath(Show(dir) + "/" + "e", name) == Show(dir) + "/" + name
  {
    EntryIsKey(dir);
    ChildIsRelative(dir.(names := dir.names + ["e"]), name);
    SplitPiece(name, '/');
    FollowNames(dir, [name]);
    UpsFacts(dir.ups);
    ShowLonger(dir, name);
  }

  lemma SiblingIsOutside(dir: Path, x: string)
    requires Plain(dir) && IsName(x) && x != Name(dir)
    ensures var out := Parent(dir).(names := Parent(dir).names + [x]);
      !LiesIn(dir, Parse(Show(out))) && Show(out) != Show(dir.(names := dir.names + ["e"]))
  {
    var out, file := Parent(dir).(names := Parent(dir).names + [x]), dir.(names := dir.names + ["e"]);
    assert Valid(out) && Valid(file) && |out.names| == |dir.names| && |file.names| > |out.names|;
    assert out.names[|out.names| - 1] == x;
    ParseUndoesShow(out);
    ShowIsInjective(out, file);
  }

  /** In every directory with a name there is a workflow that can be merged and that
      includes a file outside the directory. */
  lemma BackslashEscapes(dir: Path, x: string)
    requires Plain(dir) && IsName(x) && '\\' !in x && x != Name(dir)
    ensures var entry, name := Show(dir) + "/" + "e", "..\\" + x;
      var child := Show(dir) + "/" + name;
      var files := TwoFiles(entry, name, child);
      && Dir(KeyOf(entry)) == Show(dir) && TreeOk(files, Show(dir), entry, true, {}) && IsChain(files, [entry, child])
      && !LiesIn(dir, Parse(KeyOf(child)))
  {
    var entry, name := Show(dir) + "/" + "e", "..\\" + x;
    EntryIsKey(dir);
    BackslashClimbs(dir, x);
    ClimbingChild(dir, name);
    SiblingIsOutside(dir, x);
    assert |Show(dir) + "/" + name| > |entry|;
    TwoFilesAreOk(Show(dir), entry, name, Show(dir) + "/" + name);
  }
}
