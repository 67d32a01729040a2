/** Slash-separated paths: cleaning, the directory of a path, joining, and the test
    whether a path lies in a directory. A cleaned path is a value: rooted or not,
    some leading "..", then names. */
module SlashPath {
  import opened Graphs
  import opened Text

  datatype Path = Path(rooted: bool, ups: nat, names: seq<string>)

  predicate IsName(s: string) {
    s != "" && s != "." && s != ".." && '/' !in s
  }

  ghost predicate Valid(p: Path) {
    (p.rooted ==> p.ups == 0) && forall name | name in p.names :: IsName(name)
  }

  /** Follows one component from a path. */
  function Follow(p: Path, component: string): Path {
    if component == "" || component == "." then p
    else if component != ".." then p.(names := p.names + [component])
    else if p.names != [] then p.(names := p.names[..|p.names| - 1])
    else if p.rooted then p
    else p.(ups := p.ups + 1)
  }

  function FollowAll(p: Path, components: seq<string>): Path {
    if components == [] then p
    else Follow(FollowAll(p, components[..|components| - 1]), components[|components| - 1])
  }

  function Parse(s: string): Path {
    FollowAll(Path(s != "" && s[0] == '/', 0, []), Split(s, '/'))
  }

  function Ups(n: nat): seq<string> {
    if n == 0 then [] else Ups(n - 1) + [".."]
  }

  function Components(p: Path): seq<string> {
    Ups(p.ups) + p.names
  }

  function Show(p: Path): string {
    if p.rooted then "/" + Join(p.names, '/')
    else if Components(p) == [] then "."
    else Join(Components(p), '/')
  }

  /** path.Clean. */
  function Clean(s: string): string {
    Show(Parse(s))
  }

  /** The place behind the last slash. */
  function BehindLastSlash(s: string): (k: nat)
    ensures k <= |s|
  {
    if s == "" then 0 else if s[|s| - 1] == '/' then |s| else BehindLastSlash(s[..|s| - 1])
  }

  /** path.Dir. */
  function Dir(s: string): string {
    Clean(s[..BehindLastSlash(s)])
  }

  /** path.Join of two elements. */
  function JoinPaths(a: string, b: string): string {
    if a == "" then (if b == "" then "" else Clean(b))
    else if b == "" then Clean(a)
    else Clean(a + "/" + b)
  }

  /** Backslashes turned into slashes. */
  function ToSlash(s: string): string {
    if s == "" then ""
    else ToSlash(s[..|s| - 1]) + [if s[|s| - 1] == '\\' then '/' else s[|s| - 1]]
  }

  // ---------------------------------------------------------------- parsing undoes showing

  lemma {:induction false} FollowConcat(p: Path, a: seq<string>, b: seq<string>)
    ensures FollowAll(p, a + b) == FollowAll(FollowAll(p, a), b)
    decreases |b|
  {
    if b == [] {
      assert a + b == a;
    } else {
      assert (a + b)[..|a + b| - 1] == a + b[..|b| - 1];
      FollowConcat(p, a, b[..|b| - 1]);
    }
  }

  lemma {:induction false} FollowNames(p: Path, names: seq<string>)
    requires forall name | name in names :: IsName(name)
    ensures FollowAll(p, names) == p.(names := p.names + names)
    decreases |names|
  {
    if names == [] {
      assert p.names + names == p.names;
    } else {
      var init, last := names[..|names| - 1], names[|names| - 1];
      FollowNames(p, init);
      assert last in names && IsName(last);
      AppendAssociates(p.names, init, last);
      SplitLast(names);
    }
  }

  lemma {:induction false} FollowUps(n: nat)
    ensures FollowAll(Path(false, 0, []), Ups(n)) == Path(false, n, [])
  {
    if n > 0 {
      FollowUps(n - 1);
      assert Ups(n)[..|Ups(n)| - 1] == Ups(n - 1);
    }
  }

  /** The value a cleaned path has. */
  lemma {:induction false} FollowKeepsValid(p: Path, components: seq<string>)
    requires Valid(p) && forall c | c in components :: '/' !in c
    ensures Valid(FollowAll(p, components))
    decreases |components|
  {
    if components != [] {
      FollowKeepsValid(p, components[..|components| - 1]);
    }
  }

  lemma FollowTextKeepsValid(p: Path, s: string)
    requires Valid(p)
    ensures Valid(FollowAll(p, Split(s, '/')))
  {
    forall c | c in Split(s, '/')
      ensures '/' !in c
    {
      var i :| 0 <= i < |Split(s, '/')| && Split(s, '/')[i] == c;
      var _ := PieceFacts(s, '/', i);
    }
    FollowKeepsValid(p, Split(s, '/'));
  }

  lemma ParseIsValid(s: string)
    ensures Valid(Parse(s))
  {
    FollowTextKeepsValid(Path(s != "" && s[0] == '/', 0, []), s);
  }

  lemma {:induction false} UpsFacts(n: nat)
    ensures |Ups(n)| == n && forall c | c in Ups(n) :: c == ".."
  {
    if n > 0 {
      UpsFacts(n - 1);
    }
  }

  lemma ComponentsAreParts(p: Path)
    requires Valid(p)
    ensures forall c | c in Components(p) :: c != "" && '/' !in c
  {
    UpsFacts(p.ups);
  }

  lemma {:induction false} JoinStarts(parts: seq<string>, c: char)
    requires parts != [] && parts[0] != ""
    ensures Join(parts, c) != "" && Join(parts, c)[0] == parts[0][0]
    decreases |parts|
  {
    if |parts| > 1 {
      JoinStarts(parts[..|parts| - 1], c);
    }
  }

  /** Parsing undoes showing. */
  lemma ParseUndoesShow(p: Path)
    requires Valid(p)
    ensures Parse(Show(p)) == p
  {
    ComponentsAreParts(p);
    if p.rooted {
      RootedRoundTrip(p);
    } else if Components(p) == [] {
      UpsFacts(p.ups);
      SplitPiece(".", '/');
      assert FollowAll(Path(false, 0, []), ["."]) == Follow(FollowAll(Path(false, 0, []), ["."][..0]), ".");
      assert ["."][..0] == [];
    } else {
      var parts := Components(p);
      assert parts[0] in parts;
      SplitUndoesJoin(parts, '/');
      JoinStarts(parts, '/');
      FollowUps(p.ups);
      FollowConcat(Path(false, 0, []), Ups(p.ups), p.names);
      FollowNames(Path(false, p.ups, []), p.names);
      assert [] + p.names == p.names;
    }
  }

  lemma RootedRoundTrip(p: Path)
    requires Valid(p) && p.rooted
    ensures Parse(Show(p)) == p
  {
    var root := Path(true, 0, []);
    var rest := Join(p.names, '/');
    SplitConcat("", '/', rest);
    assert "" + ['/'] + rest == "/" + rest;
    FollowConcat(root, [""], Split(rest, '/'));
    assert FollowAll(root, [""]) == Follow(FollowAll(root, [""][..0]), "") && [""][..0] == [];
    if p.names == [] {
      assert Split("", '/') == [""];
    } else {
      SplitUndoesJoin(p.names, '/');
      FollowNames(root, p.names);
      assert [] + p.names == p.names;
    }
  }

  /** Cleaning twice is cleaning once, and cleaned texts determine their paths. */
  lemma CleanIsIdempotent(s: string)
    ensures Clean(Clean(s)) == Clean(s)
  {
    ParseIsValid(s);
    ParseUndoesShow(Parse(s));
  }

  lemma ShowIsInjective(p: Path, q: Path)
    requires Valid(p) && Valid(q)
    ensures Show(p) == Show(q) <==> p == q
  {
    ParseUndoesShow(p);
    ParseUndoesShow(q);
  }

  lemma {:induction false} FollowKeepsRoot(p: Path, components: seq<string>)
    ensures FollowAll(p, components).rooted == p.rooted
    decreases |components|
  {
    if components != [] {
      FollowKeepsRoot(p, components[..|components| - 1]);
    }
  }

  /** One more component: nothing and "." stay, ".." drops the last name or climbs, but
      not above the root, and a name goes behind. */
  lemma ParseOfMore(s: string, component: string)
    requires s != "" && '/' !in component
    ensures var p, q := Parse(s), Parse(s + "/" + component);
      && q.rooted == p.rooted && (p.rooted <==> s[0] == '/')
      && (component == "" || component == "." ==> q == p)
      && (component == ".." && p.names != [] ==> q.ups == p.ups && q.names == p.names[..|p.names| - 1])
      && (component == ".." && p.names == [] ==> q.ups == (if p.rooted then p.ups else p.ups + 1) && q.names == [])
      && (IsName(component) ==> q.ups == p.ups && q.names == p.names + [component])
  {
    var start := Path(s[0] == '/', 0, []);
    SplitConcat(s, '/', component);
    SplitPiece(component, '/');
    FollowConcat(start, Split(s, '/'), [component]);
    assert FollowAll(FollowAll(start, Split(s, '/')), [component])
        == Follow(FollowAll(FollowAll(start, Split(s, '/')), [component][..0]), component);
    assert [component][..0] == [];
    FollowKeepsRoot(start, Split(s, '/'));
    assert (s + "/" + component)[0] == s[0];
  }

  // ---------------------------------------------------------------- directories and joining

  function Parent(p: Path): Path {
    if p.names != [] then p.(names := p.names[..|p.names| - 1])
    else if p.ups > 0 then p.(ups := p.ups - 1)
    else p
  }

  lemma {:induction false} LastSlashOf(a: string, b: string)
    requires '/' !in b
    ensures BehindLastSlash(a + ['/'] + b) == |a| + 1
    decreases |b|
  {
    var s := a + ['/'] + b;
    if b != "" {
      assert s[..|s| - 1] == a + ['/'] + b[..|b| - 1];
      LastSlashOf(a, b[..|b| - 1]);
    }
  }

  lemma {:induction false} NoSlashAtAll(s: string)
    requires '/' !in s
    ensures BehindLastSlash(s) == 0
    decreases |s|
  {
    if s != "" {
      NoSlashAtAll(s[..|s| - 1]);
    }
  }

  /** Following more components from a shown path. */
  lemma ParseAppended(p: Path, more: string)
    requires Valid(p)
    ensures Parse(Show(p) + "/" + more) == FollowAll(p, Split(more, '/'))
  {
    var shown := Show(p);
    ParseUndoesShow(p);
    SplitConcat(shown, '/', more);
    var start := Path(p.rooted, 0, []);
    ShownIsNotEmpty(p);
    FollowConcat(start, Split(shown, '/'), Split(more, '/'));
  }

  lemma ShownIsNotEmpty(p: Path)
    requires Valid(p)
    ensures Show(p) != "" && (Show(p)[0] == '/' <==> p.rooted)
  {
    ComponentsAreParts(p);
    if !p.rooted && Components(p) != [] {
      assert Components(p)[0] in Components(p);
      JoinStarts(Components(p), '/');
    }
  }

  /** An entry of a directory is named relative to it. */
  lemma {:induction false} JoinFollows(p: Path, more: string)
    requires Valid(p) && more != ""
    ensures JoinPaths(Show(p), more) == Show(FollowAll(p, Split(more, '/')))
  {
    ShownIsNotEmpty(p);
    ParseAppended(p, more);
  }

  lemma ParentFacts(p: Path)
    requires Valid(p) && Components(p) != []
    ensures Valid(Parent(p)) && Components(p) == Components(Parent(p)) + [Components(p)[|Components(p)| - 1]]
    ensures Parent(p).rooted == p.rooted
  {
    UpsFacts(p.ups);
    if p.names == [] {
      assert Ups(p.ups) == Ups(p.ups - 1) + [".."];
    } else {
      SplitLast(p.names);
    }
  }

  /** What a path shows in front of its last slash. */
  ghost function Front(p: Path): string {
    if Components(Parent(p)) == [] then "" else Show(Parent(p))
  }

  /** A path of more than one component, or a rooted one, shows its parent first. */
  lemma ShowEndsWithLast(p: Path, last: string)
    requires Valid(p) && Components(p) == Components(Parent(p)) + [last]
    requires p.rooted || Components(Parent(p)) != []
    ensures Show(p) == Front(p) + ['/'] + last
  {
    assert Components(p)[..|Components(Parent(p))|] == Components(Parent(p));
    if p.rooted {
      assert Ups(0) + p.names == p.names && Ups(0) + Parent(p).names == Parent(p).names;
    }
  }

  lemma CleanOfSlashed(p: Path)
    requires Valid(p)
    ensures Clean(Show(p) + "/") == Show(p)
  {
    ParseAppended(p, "");
    assert Show(p) + "/" + "" == Show(p) + "/";
    assert FollowAll(p, [""]) == Follow(FollowAll(p, [""][..0]), "") && [""][..0] == [];
  }

  lemma CleanOfNothing()
    ensures Clean("") == "." && Clean("/") == "/"
  {
    var root := Path(true, 0, []);
    CleanOfSlashed(Path(false, 0, []));
    assert Split("", '/') == [""]
        && FollowAll(Path(false, 0, []), [""]) == Follow(FollowAll(Path(false, 0, []), [""][..0]), "");
    assert [""][..0] == [];
    ParseUndoesShow(root);
    assert Show(root) == "/";
  }

  /** The directory of a cleaned path is the path without its last component. */
  lemma DirIsParent(p: Path)
    requires Valid(p)
    ensures Dir(Show(p)) == Show(Parent(p))
  {
    CleanOfNothing();
    UpsFacts(p.ups);
    if Components(p) == [] {
      if !p.rooted {
        NoSlashAtAll(".");
      }
    } else {
      ParentFacts(p);
      ComponentsAreParts(p);
      var last := Components(p)[|Components(p)| - 1];
      assert last in Components(p);
      if p.rooted || |Components(p)| > 1 {
        var front := Front(p);
        ShowEndsWithLast(p, last);
        LastSlashOf(front, last);
        assert Show(p)[..|front| + 1] == front + "/";
        CleanOfSlashed(Parent(p));
      } else {
        assert Components(p) == [last] && Show(p) == last;
        NoSlashAtAll(last);
      }
    }
  }

  // ---------------------------------------------------------------- lying in a directory

  predicate StartsWith(s: string, prefix: string) {
    prefix <= s
  }

  /** Whether a cleaned path is a directory or lies in it, by comparing the texts. */
  predicate WithinDir(dir: string, child: string) {
    if dir == "." || dir == "" then !StartsWith(child, "../") && child != ".."
    else child == dir || StartsWith(child, dir + "/")
  }

  /** Whether a path is a directory or lies in it. */
  ghost predicate LiesIn(dir: Path, child: Path) {
    dir.rooted == child.rooted && dir.ups == child.ups && dir.names <= child.names
  }

  lemma {:induction false} JoinConcat(a: seq<string>, b: seq<string>, c: char)
    requires a != [] && b != []
    ensures Join(a + b, c) == Join(a, c) + [c] + Join(b, c)
    decreases |b|
  {
    var init, last := b[..|b| - 1], b[|b| - 1];
    assert (a + b)[..|a + b| - 1] == a + init && (a + b)[|a + b| - 1] == last;
    if init == [] {
      assert a + init == a;
    } else {
      JoinConcat(a, init, c);
      ConcatAssociates(Join(a, c) + [c], Join(init, c), [c] + last);
      ConcatAssociates(Join(a, c) + [c] + Join(init, c), [c], last);
      ConcatAssociates(Join(init, c), [c], last);
    }
  }

  lemma JoinAfterFirst(x: string, first: string, rest: seq<string>, c: char)
    ensures Join([x + first] + rest, c) == x + Join([first] + rest, c)
  {
    if rest == [] {
      assert [x + first] + rest == [x + first] && [first] + rest == [first];
    } else {
      JoinConcat([first], rest, c);
      JoinConcat([x + first], rest, c);
      ConcatAssociates(x, first + [c], Join(rest, c));
      ConcatAssociates(x, first, [c]);
    }
  }

  lemma {:induction false} JoinUndoesSplit(s: string, c: char)
    ensures Join(Split(s, c), c) == s
    decreases |s|
  {
    if s != "" {
      var rest := Split(s[1..], c);
      JoinUndoesSplit(s[1..], c);
      assert s == [s[0]] + s[1..];
      if s[0] == c {
        JoinConcat([""], rest, c);
      } else {
        JoinAfterFirst([s[0]], rest[0], rest[1..], c);
        assert [rest[0]] + rest[1..] == rest;
      }
    }
  }

  /** The path of the first components of a path. */
  function FirstComponents(p: Path, k: nat): Path
    requires k <= p.ups + |p.names|
  {
    if k <= p.ups then Path(p.rooted, k, []) else p.(names := p.names[..k - p.ups])
  }

  lemma {:induction false} UpsPrefix(n: nat, k: nat)
    requires k <= n
    ensures |Ups(n)| == n && Ups(n)[..k] == Ups(k)
    decreases n
  {
    UpsFacts(n);
    if k < n {
      UpsPrefix(n - 1, k);
    }
  }

  lemma FirstComponentsAre(p: Path, k: nat)
    requires Valid(p) && k <= |Components(p)|
    ensures |Components(p)| == p.ups + |p.names|
    ensures Valid(FirstComponents(p, k)) && Components(FirstComponents(p, k)) == Components(p)[..k]
  {
    UpsFacts(p.ups);
    if k <= p.ups {
      UpsPrefix(p.ups, k);
    }
  }

  /** What a cleaned path shows in front of any of its slashes is a cleaned path. */
  lemma SlashedPrefixIsShown(p: Path, front: string) returns (q: Path)
    requires Valid(p) && !p.rooted && StartsWith(Show(p), front + "/")
    ensures Valid(q) && !q.rooted && Components(q) != [] && Show(q) == front
  {
    var rest := Show(p)[|front| + 1..];
    assert Show(p) == front + ['/'] + rest;
    SplitConcat(front, '/', rest);
    assert Show(p)[|front|] == '/';
    SplitShown(p);
    var k := |Split(front, '/')|;
    FirstComponentsAre(p, k);
    q := FirstComponents(p, k);
    assert Components(q) == Split(front, '/');
    JoinUndoesSplit(front, '/');
  }

  lemma ComponentsOfRooted(p: Path)
    requires Valid(p) && p.rooted
    ensures Components(p) == p.names
  {
  }

  lemma SplitShown(p: Path)
    requires Valid(p) && Components(p) != []
    ensures Split(Show(p), '/') == if p.rooted then [""] + Components(p) else Components(p)
  {
    ComponentsAreParts(p);
    SplitUndoesJoin(Components(p), '/');
    if p.rooted {
      ComponentsOfRooted(p);
      SplitConcat("", '/', Join(p.names, '/'));
      assert "" + ['/'] + Join(p.names, '/') == "/" + Join(p.names, '/');
    }
  }

  lemma ContinuesComponents(dir: Path, child: Path, more: string)
    requires Valid(dir) && Valid(child) && Components(dir) != []
    requires Show(child) == Show(dir) + ['/'] + more
    ensures dir.rooted == child.rooted && Components(dir) < Components(child)
  {
    ShownIsNotEmpty(dir);
    ShownIsNotEmpty(child);
    assert Show(child)[0] == Show(dir)[0];
    SplitConcat(Show(dir), '/', more);
    SplitShown(dir);
    var first := if dir.rooted then [""] else [];
    if Components(child) != [] {
      SplitShown(child);
      if dir.rooted {
        ConcatAssociates([""], Components(dir), Split(more, '/'));
        CancelFront([""], Components(child), Components(dir) + Split(more, '/'));
      }
      assert Components(child) == Components(dir) + Split(more, '/');
    }
  }

  lemma CancelFront<T>(front: seq<T>, a: seq<T>, b: seq<T>)
    requires front + a == front + b
    ensures a == b
  {
    assert a == (front + a)[|front|..] && b == (front + b)[|front|..];
  }

  lemma ShowContinued(dir: Path, child: Path)
    requires Valid(dir) && Valid(child) && Components(dir) != []
    requires dir.rooted == child.rooted && Components(dir) < Components(child)
    ensures StartsWith(Show(child), Show(dir) + "/")
  {
    var a, rest := Join(Components(dir), '/'), Components(child)[|Components(dir)|..];
    assert Components(child) == Components(dir) + rest;
    JoinConcat(Components(dir), rest, '/');
    if dir.rooted {
      ComponentsOfRooted(dir);
      ComponentsOfRooted(child);
      ConcatAssociates("/", a + ['/'], Join(rest, '/'));
      ConcatAssociates("/", a, ['/']);
    }
  }

  /** Of two cleaned texts one starts the other up to a slash exactly if the other
      path continues the one. */
  lemma PrefixOfShown(dir: Path, child: Path)
    requires Valid(dir) && Valid(child) && Components(dir) != []
    ensures StartsWith(Show(child), Show(dir) + "/")
       <==> dir.rooted == child.rooted && Components(dir) < Components(child)
  {
    if StartsWith(Show(child), Show(dir) + "/") {
      var more := Show(child)[|Show(dir)| + 1..];
      assert Show(child) == Show(dir) + "/" + more;
      ContinuesComponents(dir, child, more);
    }
    if dir.rooted == child.rooted && Components(dir) < Components(child) {
      ShowContinued(dir, child);
    }
  }

  /** Comparing texts, cut down to comparing paths. */
  lemma WithinNonemptyDir(dir: Path, child: Path)
    requires Valid(dir) && Valid(child) && Components(dir) != []
    ensures WithinDir(Show(dir), Show(child))
       <==> dir == child || (dir.rooted == child.rooted && Components(dir) < Components(child))
  {
    PrefixOfShown(dir, child);
    ShownIsNotEmpty(dir);
    assert Components(Path(false, 0, [])) == [];
    ShowIsInjective(dir, Path(false, 0, []));
    ShowIsInjective(child, dir);
  }

  lemma ComponentsDetermine(p: Path, q: Path)
    requires Valid(p) && Valid(q) && p.rooted == q.rooted && Components(p) == Components(q)
    ensures p == q
  {
    ComponentsTell(p);
    ComponentsTell(q);
    assert p.ups < |Components(p)| ==> Components(p)[p.ups] != "..";
    assert q.ups < |Components(p)| ==> Components(q)[q.ups] != "..";
    assert p.ups == q.ups;
    SameNames(p, q);
  }

  lemma SameNames(p: Path, q: Path)
    requires p.ups == q.ups && Components(p) == Components(q)
    ensures p.names == q.names
  {
    CancelFront(Ups(p.ups), p.names, q.names);
  }

  /** The test of the texts is exact for a directory with a name in its path. */
  lemma NamedDirIsExact(dir: Path, child: Path)
    requires Valid(dir) && Valid(child) && dir.names != []
    ensures WithinDir(Show(dir), Show(child)) <==> LiesIn(dir, child)
  {
    WithinNonemptyDir(dir, child);
    NamesAreNotUps(dir, child);
    if dir.rooted == child.rooted && Components(dir) == Components(child) {
      ComponentsDetermine(dir, child);
    }
  }

  /** In a directory further up it accepts exactly the paths that climb at least as
      far: also those that leave the directory. */
  lemma UpperDirAcceptsClimbing(dir: Path, child: Path)
    requires Valid(dir) && Valid(child) && !dir.rooted && dir.ups > 0 && dir.names == []
    ensures WithinDir(Show(dir), Show(child)) <==> !child.rooted && child.ups >= dir.ups
  {
    ComponentsTell(dir);
    ComponentsTell(child);
    WithinNonemptyDir(dir, child);
    var a, b := Components(dir), Components(child);
    if a <= b {
      assert a[dir.ups - 1] == b[dir.ups - 1];
    }
    assert child.ups >= dir.ups ==> forall i | 0 <= i < |a| :: a[i] == ".." == b[i];
    assert a <= b <==> child.ups >= dir.ups;
    if !child.rooted && a == b {
      ComponentsDetermine(dir, child);
    }
  }

  lemma ShowOneUp()
    ensures Show(Path(false, 1, [])) == ".."
  {
    assert Ups(1) == Ups(0) + [".."] && Components(Path(false, 1, [])) == [".."];
  }

  /** In the current directory it is exact for paths that are not rooted. */
  lemma CurrentDirIsExact(child: Path)
    requires Valid(child) && !child.rooted
    ensures WithinDir(".", Show(child)) <==> LiesIn(Path(false, 0, []), child)
  {
    ShowOneUp();
    UpperDirAcceptsClimbing(Path(false, 1, []), child);
    assert ".." + "/" == "../";
  }

  lemma SecondIsNoSlash(p: Path)
    requires Valid(p) && p.rooted
    ensures |Show(p)| > 1 ==> Show(p)[1] != '/'
    ensures |Show(p)| == 1 ==> Show(p) == "/"
  {
    if p.names != [] {
      assert p.names[0] in p.names;
      JoinStarts(p.names, '/');
    }
  }

  /** In the root directory it accepts the directory itself only. */
  lemma RootDirAcceptsItself(child: Path)
    requires Valid(child)
    ensures WithinDir("/", Show(child)) <==> child == Path(true, 0, [])
  {
    assert Show(Path(true, 0, [])) == "/";
    ShowIsInjective(child, Path(true, 0, []));
    ShownIsNotEmpty(child);
    if child.rooted {
      SecondIsNoSlash(child);
    }
    assert ("/" + "/")[1] == '/';
  }

  lemma ComponentsTell(p: Path)
    requires Valid(p)
    ensures |Components(p)| == p.ups + |p.names|
    ensures forall i | 0 <= i < |Components(p)| :: Components(p)[i] == ".." <==> i < p.ups
    ensures forall i | 0 <= i < |p.names| :: Components(p)[p.ups + i] == p.names[i]
  {
    UpsFacts(p.ups);
    forall i | 0 <= i < |Components(p)|
      ensures Components(p)[i] == ".." <==> i < p.ups
    {
      if i < p.ups {
        assert Components(p)[i] == Ups(p.ups)[i] && Ups(p.ups)[i] in Ups(p.ups);
      } else {
        assert Components(p)[i] == p.names[i - p.ups] && p.names[i - p.ups] in p.names;
      }
    }
  }

  /** A path with a name is continued by another one exactly if both climb alike and
      the names continue. */
  lemma NamesAreNotUps(dir: Path, child: Path)
    requires Valid(dir) && Valid(child) && dir.names != []
    ensures Components(dir) <= Components(child) <==> dir.ups == child.ups && dir.names <= child.names
  {
    ComponentsTell(dir);
    ComponentsTell(child);
    var a, b := Components(dir), Components(child);
    if a <= b {
      assert a[dir.ups] == b[dir.ups];
      assert child.ups < |a| ==> a[child.ups] == b[child.ups];
      assert dir.ups == child.ups;
      assert forall i | 0 <= i < |dir.names| :: dir.names[i] == a[dir.ups + i] == b[dir.ups + i] == child.names[i];
    }
    if dir.ups == child.ups && dir.names <= child.names {
      assert b == a + child.names[|dir.names|..];
    }
  }

  ghost predicate Exact(dir: Path, child: Path) {
    WithinDir(Show(dir), Show(child)) <==> LiesIn(dir, child)
  }

  /** The test tells for every path whether it lies in the directory exactly if the
      directory is the current one or has a name in its path. */
  lemma WithinDirIsExactIff(dir: Path)
    requires Valid(dir)
    ensures (forall child | Valid(child) && child.rooted == dir.rooted :: Exact(dir, child))
       <==> dir.names != [] || dir == Path(false, 0, [])
  {
    if dir.names != [] {
      forall child | Valid(child) && child.rooted == dir.rooted
        ensures Exact(dir, child)
      {
        NamedDirIsExact(dir, child);
      }
    } else if dir.rooted {
      var child := Path(true, 0, ["x"]);
      RootDirAcceptsItself(child);
      assert !Exact(dir, child);
    } else if dir.ups > 0 {
      var child := Path(false, dir.ups + 1, []);
      UpperDirAcceptsClimbing(dir, child);
      assert !Exact(dir, child);
    } else {
      forall child | Valid(child) && child.rooted == dir.rooted
        ensures Exact(dir, child)
      {
        CurrentDirIsExact(child);
      }
    }
  }
}
