/** Expanding declared artifact paths against the files of a working tree, and the
    matching by which the coordinator accepts a path. The two must agree. */
module ArtifactExpansion {
  import opened Wrappers
  import opened Graphs
  import opened Text
  import opened SlashPath

  datatype Artifact = Artifact(path: string, track: bool, publish: bool, optional: bool)

  // ---------------------------------------------------------------- the coordinator's matching

  /** What filepath.Match says: the pairs of a pattern and a path that match, and the
      patterns that are malformed. */
  datatype Globs = Globs(matching: set<(string, string)>, malformed: set<string>)

  predicate IsGlob(path: string) {
    exists i | 0 <= i < |path| :: path[i] == '*' || path[i] == '?' || path[i] == '['
  }

  predicate IsDir(path: string) {
    path != "" && path[|path| - 1] == '/' && path != "/"
  }

  predicate MatchesPattern(globs: Globs, submitted: string, declared: string) {
    if declared == "" then false
    else if IsDir(declared) then StartsWith(submitted, declared)
    else if IsGlob(declared) then declared !in globs.malformed && (declared, submitted) in globs.matching
    else submitted == declared
  }

  /** Whether some declaration matches. */
  ghost predicate MatchesAny(globs: Globs, submitted: string, declared: seq<Artifact>) {
    exists i | 0 <= i < |declared| :: MatchesPattern(globs, submitted, declared[i].path)
  }

  /** A declaration accepts a path that begins with the directory it names, that its
      pattern matches, or that is its own text. */
  ghost predicate Accepts(globs: Globs, declared: string, submitted: string) {
    if |declared| > 1 && declared[|declared| - 1] == '/' then declared <= submitted
    else if '*' in declared || '?' in declared || '[' in declared then
      declared !in globs.malformed && (declared, submitted) in globs.matching
    else declared != "" && submitted == declared
  }

  lemma MatchesIff(globs: Globs, submitted: string, declared: string)
    ensures MatchesPattern(globs, submitted, declared) <==> Accepts(globs, declared, submitted)
  {
  }

  method MatchesAnyPattern(globs: Globs, submitted: string, declared: seq<Artifact>) returns (ok: bool)
    ensures ok <==> MatchesAny(globs, submitted, declared)
    ensures ok <==> exists i | 0 <= i < |declared| :: Accepts(globs, declared[i].path, submitted)
  {
    forall i | 0 <= i < |declared|
      ensures MatchesPattern(globs, submitted, declared[i].path) <==> Accepts(globs, declared[i].path, submitted)
    {
      MatchesIff(globs, submitted, declared[i].path);
    }
    for i := 0 to |declared|
      invariant forall j | 0 <= j < i :: !MatchesPattern(globs, submitted, declared[j].path)
    {
      if MatchesPattern(globs, submitted, declared[i].path) {
        return true;
      }
    }
    ok := false;
  }

  // ---------------------------------------------------------------- the working tree

  datatype Target = ToFile | ToDirectory | Dangling

  datatype Kind = Regular | Directory | Special | Link(target: Target)

  /** What is in the tree, by the path from its root, and the paths at which looking
      fails for another reason than that nothing is there. */
  datatype Tree = Tree(kinds: map<Path, Kind>, faults: set<Path>)

  /** Where a declaration points in the tree; a leading slash means nothing there. */
  function PathOf(declared: string): Path {
    Parse(declared).(rooted := false)
  }

  datatype Stat = Absent | Fault | File | Dir

  /** Looking at a path, following a link. */
  function StatOf(tree: Tree, p: Path): Stat {
    if p in tree.faults then Fault
    else if p !in tree.kinds then Absent
    else
      match tree.kinds[p]
      case Directory => Dir
      case Link(ToDirectory) => Dir
      case Link(Dangling) => Absent
      case _ => File
  }

  // ---------------------------------------------------------------- the three forms

  /** The paths of one declaration, or None for an error. */
  function ExpandLiteral(tree: Tree, declared: string): Option<set<string>> {
    match StatOf(tree, PathOf(declared))
    case Absent => Some({})
    case Fault => None
    case Dir => None
    case File => Some({declared})
  }

  /** The names that match a pattern, without the directories among them. */
  function ExpandGlob(tree: Tree, globs: Globs, declared: string): Option<set<string>> {
    var pattern := Show(PathOf(declared));
    if pattern in globs.malformed then None
    else Some(GlobNames(tree, globs, pattern))
  }

  function GlobNames(tree: Tree, globs: Globs, pattern: string): set<string> {
    set p | p in tree.kinds && (pattern, Show(p)) in globs.matching && !tree.kinds[p].Directory? :: Show(p)
  }

  predicate IsInfraDir(name: string) {
    || name == ".git" || name == ".bare.git" || name == ".clone"
    || (|".preserve-in-progress"| <= |name|
        && name[|name| - |".preserve-in-progress"|..] == ".preserve-in-progress")
  }

  /** The walk from a directory reaches a path: it lies below, and everything on the way
      is a directory that is not skipped. */
  predicate Walked(tree: Tree, root: Path, p: Path) {
    && LiesBelow(root, p)
    && forall i | |root.names| <= i < |p.names| - 1 ::
         !IsInfraDir(p.names[i]) && IsDirectory(tree, p.(names := p.names[..i + 1]))
  }

  predicate IsDirectory(tree: Tree, p: Path) {
    p in tree.kinds && tree.kinds[p].Directory?
  }

  predicate LiesBelow(root: Path, p: Path) {
    root.rooted == p.rooted && root.ups == p.ups && root.names < p.names
  }

  predicate Collected(kind: Kind) {
    kind.Regular? || kind.Link?
  }

  /** A link that names a directory is itself all that a walk from it finds. */
  function WalkDir(tree: Tree, root: Path): set<string> {
    if root in tree.kinds && tree.kinds[root].Link? then {Show(root)}
    else set p | p in tree.kinds && Walked(tree, root, p) && Collected(tree.kinds[p]) :: Show(p)
  }

  function ExpandDirectory(tree: Tree, declared: string): Option<set<string>>
    requires IsDir(declared)
  {
    var root := PathOf(declared[..|declared| - 1]);
    match StatOf(tree, root)
    case Absent => Some({})
    case Fault => None
    case File => None
    case Dir => Some(WalkDir(tree, root))
  }

  function ExpandOne(tree: Tree, globs: Globs, declared: string): Option<set<string>> {
    if IsDir(declared) then ExpandDirectory(tree, declared)
    else if IsGlob(declared) then ExpandGlob(tree, globs, declared)
    else ExpandLiteral(tree, declared)
  }

  // ---------------------------------------------------------------- the expansion

  datatype Entry = Entry(path: string, track: bool, publish: bool)

  datatype Expansion = Expansion(entries: seq<Entry>, missing: seq<string>)

  ghost predicate CanExpand(tree: Tree, globs: Globs, declared: seq<Artifact>) {
    forall i | 0 <= i < |declared| :: ExpandOne(tree, globs, declared[i].path).Some?
  }

  /** The paths that a declaration produces. */
  function Produced(tree: Tree, globs: Globs, declaration: Artifact): set<string> {
    match ExpandOne(tree, globs, declaration.path)
    case None => {}
    case Some(paths) => paths
  }

  ghost predicate Covers(tree: Tree, globs: Globs, declaration: Artifact, path: string) {
    path in Produced(tree, globs, declaration)
  }

  /** The first declaration that covers a path. */
  ghost predicate FirstCover(tree: Tree, globs: Globs, declared: seq<Artifact>, i: int, path: string) {
    && 0 <= i < |declared| && Covers(tree, globs, declared[i], path)
    && forall j | 0 <= j < i :: !Covers(tree, globs, declared[j], path)
  }

  /** The declarations that must but do not produce a path, in order. */
  function Missing(tree: Tree, globs: Globs, declared: seq<Artifact>): seq<string> {
    if declared == [] then []
    else
      var rest, last := Missing(tree, globs, declared[..|declared| - 1]), declared[|declared| - 1];
      if !last.optional && ExpandOne(tree, globs, last.path) == Some({}) then rest + [last.path] else rest
  }

  /** All paths that some declaration covers. */
  function AllPaths(tree: Tree, globs: Globs, declared: seq<Artifact>): set<string> {
    if declared == [] then {}
    else AllPaths(tree, globs, declared[..|declared| - 1]) + Produced(tree, globs, declared[|declared| - 1])
  }

  function Paths(entries: seq<Entry>): set<string> {
    set e | e in entries :: e.path
  }

  /** An entry has the flags of the first declaration that covers its path. */
  ghost predicate FromFirstCover(tree: Tree, globs: Globs, declared: seq<Artifact>, e: Entry) {
    exists i :: FirstCover(tree, globs, declared, i, e.path) && Flags(declared[i], e)
  }

  predicate Flags(declaration: Artifact, e: Entry) {
    e.track == declaration.track && e.publish == declaration.publish
  }

  ghost predicate AllFromFirstCover(tree: Tree, globs: Globs, declared: seq<Artifact>, entries: seq<Entry>) {
    forall e | e in entries :: FromFirstCover(tree, globs, declared, e)
  }

  ghost predicate AscendingPaths(entries: seq<Entry>) {
    forall i, j | 0 <= i < j < |entries| :: Less(entries[i].path, entries[j].path)
  }

  lemma {:induction false} CoveredIsInAll(tree: Tree, globs: Globs, declared: seq<Artifact>, i: nat, path: string)
    requires i < |declared| && Covers(tree, globs, declared[i], path)
    ensures path in AllPaths(tree, globs, declared)
    decreases |declared|
  {
    var init := declared[..|declared| - 1];
    if i < |init| {
      assert init[i] == declared[i];
      CoveredIsInAll(tree, globs, init, i, path);
    } else {
      assert i == |init|;
    }
  }

  lemma {:induction false} AllIsCovered(tree: Tree, globs: Globs, declared: seq<Artifact>, path: string)
    returns (i: nat)
    requires path in AllPaths(tree, globs, declared)
    ensures i < |declared| && Covers(tree, globs, declared[i], path)
    decreases |declared|
  {
    var init := declared[..|declared| - 1];
    i := |init|;
    if path !in Produced(tree, globs, declared[i]) {
      i := AllIsCovered(tree, globs, init, path);
      assert init[i] == declared[i];
    }
  }

  // ---------------------------------------------------------------- what a declaration yields

  /** A directory that a walk enters: none of those that hold the tool's own state. */
  ghost predicate IsEntered(tree: Tree, dir: Path, name: string) {
    && dir in tree.kinds && tree.kinds[dir] == Directory
    && name != ".git" && name != ".bare.git" && name != ".clone"
    && forall front :: name != front + ".preserve-in-progress"
  }

  /** A file or a link below the root, with directories on the way that are entered. */
  ghost predicate IsFileBelow(tree: Tree, root: Path, p: Path) {
    && p in tree.kinds && (tree.kinds[p] == Regular || tree.kinds[p].Link?)
    && root.rooted == p.rooted && root.ups == p.ups && root.names < p.names
    && forall i | |root.names| <= i < |p.names| - 1 ::
         IsEntered(tree, Path(p.rooted, p.ups, p.names[..i + 1]), p.names[i])
  }

  ghost predicate YieldsBelow(tree: Tree, root: Path, path: string) {
    && root !in tree.faults && root in tree.kinds
    && match tree.kinds[root]
       case Directory => exists p :: IsFileBelow(tree, root, p) && path == Show(p)
       case Link(target) => target == ToDirectory && path == Show(root)
       case _ => false
  }

  ghost predicate YieldsMatch(tree: Tree, globs: Globs, pattern: string, path: string) {
    exists p | p in tree.kinds && tree.kinds[p] != Directory :: (pattern, path) in globs.matching && path == Show(p)
  }

  ghost predicate YieldsItself(tree: Tree, declared: string, path: string) {
    var p := Parse(declared).(rooted := false);
    && path == declared && p !in tree.faults && p in tree.kinds
    && tree.kinds[p] in {Regular, Special, Link(ToFile)}
  }

  /** Whether a declaration yields a path: by a slash at its end it names a directory, by
      a special character it is a glob, and else it names one file. */
  ghost predicate Yields(tree: Tree, globs: Globs, declared: string, path: string) {
    if |declared| > 1 && declared[|declared| - 1] == '/' then
      YieldsBelow(tree, Parse(declared[..|declared| - 1]).(rooted := false), path)
    else if '*' in declared || '?' in declared || '[' in declared then
      YieldsMatch(tree, globs, Show(Parse(declared).(rooted := false)), path)
    else
      YieldsItself(tree, declared, path)
  }

  /** Whether a declaration stops the expansion: a file where a directory is declared or
      the other way around, a malformed pattern, or a path that cannot be looked at. */
  ghost predicate Stops(tree: Tree, globs: Globs, declared: string) {
    if |declared| > 1 && declared[|declared| - 1] == '/' then
      var root := Parse(declared[..|declared| - 1]).(rooted := false);
      root in tree.faults || (root in tree.kinds && tree.kinds[root] in {Regular, Special, Link(ToFile)})
    else if '*' in declared || '?' in declared || '[' in declared then
      Show(Parse(declared).(rooted := false)) in globs.malformed
    else
      var p := Parse(declared).(rooted := false);
      p in tree.faults || (p in tree.kinds && tree.kinds[p] in {Directory, Link(ToDirectory)})
  }

  lemma EnteredIff(tree: Tree, dir: Path, name: string)
    ensures IsEntered(tree, dir, name) <==> !IsInfraDir(name) && IsDirectory(tree, dir)
  {
    var n := |".preserve-in-progress"|;
    if n <= |name| {
      assert name == name[..|name| - n] + name[|name| - n..];
    }
    forall front | name == front + ".preserve-in-progress"
      ensures IsInfraDir(name)
    {
      assert name[|front|..] == ".preserve-in-progress";
    }
  }

  lemma FileBelowIff(tree: Tree, root: Path, p: Path)
    ensures IsFileBelow(tree, root, p)
       <==> p in tree.kinds && Walked(tree, root, p) && Collected(tree.kinds[p])
  {
    forall i | |root.names| <= i < |p.names| - 1
      ensures IsEntered(tree, Path(p.rooted, p.ups, p.names[..i + 1]), p.names[i])
         <==> !IsInfraDir(p.names[i]) && IsDirectory(tree, p.(names := p.names[..i + 1]))
    {
      EnteredIff(tree, Path(p.rooted, p.ups, p.names[..i + 1]), p.names[i]);
    }
  }

  lemma DirectoryYields(tree: Tree, globs: Globs, declared: string)
    requires IsDir(declared)
    ensures ExpandDirectory(tree, declared).None? <==> Stops(tree, globs, declared)
    ensures ExpandDirectory(tree, declared).Some? ==> forall path ::
          path in ExpandDirectory(tree, declared).value <==> Yields(tree, globs, declared, path)
  {
    var root := PathOf(declared[..|declared| - 1]);
    forall p
      ensures IsFileBelow(tree, root, p) <==> p in tree.kinds && Walked(tree, root, p) && Collected(tree.kinds[p])
    {
      FileBelowIff(tree, root, p);
    }
  }

  lemma GlobYields(tree: Tree, globs: Globs, declared: string)
    requires !IsDir(declared) && IsGlob(declared)
    ensures ExpandGlob(tree, globs, declared).None? <==> Stops(tree, globs, declared)
    ensures ExpandGlob(tree, globs, declared).Some? ==> forall path ::
          path in ExpandGlob(tree, globs, declared).value <==> Yields(tree, globs, declared, path)
  {
  }

  lemma LiteralYields(tree: Tree, globs: Globs, declared: string)
    requires !IsDir(declared) && !IsGlob(declared)
    ensures ExpandLiteral(tree, declared).None? <==> Stops(tree, globs, declared)
    ensures ExpandLiteral(tree, declared).Some? ==> forall path ::
          path in ExpandLiteral(tree, declared).value <==> Yields(tree, globs, declared, path)
  {
  }

  /** What one declaration produces, or that it stops the expansion. */
  lemma DeclarationYields(tree: Tree, globs: Globs, declared: string)
    ensures ExpandOne(tree, globs, declared).None? <==> Stops(tree, globs, declared)
    ensures ExpandOne(tree, globs, declared).Some? ==> forall path ::
          path in ExpandOne(tree, globs, declared).value <==> Yields(tree, globs, declared, path)
  {
    if IsDir(declared) {
      DirectoryYields(tree, globs, declared);
    } else if IsGlob(declared) {
      GlobYields(tree, globs, declared);
    } else {
      LiteralYields(tree, globs, declared);
    }
  }

  /** In a tree of paths in normal form, a declared directory yields a path of the tree
      exactly if it is a file or a link below, all directories on the way being entered. */
  lemma DirectoryYieldsPathIff(tree: Tree, globs: Globs, front: string, p: Path)
    requires WellFormed(tree) && p in tree.kinds && front != ""
    requires var root := Parse(front).(rooted := false);
      root !in tree.faults && root in tree.kinds && tree.kinds[root] == Directory
    ensures var r := ExpandOne(tree, globs, front + "/");
      r.Some? && (Show(p) in r.value <==> IsFileBelow(tree, Parse(front).(rooted := false), p))
  {
    var root := Parse(front).(rooted := false);
    assert (front + "/")[..|front|] == front;
    DeclarationYields(tree, globs, front + "/");
    forall q | IsFileBelow(tree, root, q) && Show(p) == Show(q)
      ensures p == q
    {
      ShowIsInjective(p, q);
    }
  }

  ghost predicate YieldsFirst(tree: Tree, globs: Globs, declared: seq<Artifact>, i: int, path: string) {
    && 0 <= i < |declared| && Yields(tree, globs, declared[i].path, path)
    && forall j | 0 <= j < i :: !Yields(tree, globs, declared[j].path, path)
  }

  /** An entry is a path with the flags of the first declaration that yields it. */
  ghost predicate IsYielded(tree: Tree, globs: Globs, declared: seq<Artifact>, e: Entry) {
    exists i :: YieldsFirst(tree, globs, declared, i, e.path)
                && e.track == declared[i].track && e.publish == declared[i].publish
  }

  /** The declaration must yield a path and does not. */
  ghost predicate IsMissing(tree: Tree, globs: Globs, declaration: Artifact) {
    !declaration.optional && forall path :: !Yields(tree, globs, declaration.path, path)
  }

  /** Exactly the declarations at the given places, in order, are missing ones. */
  ghost predicate AreMissing(tree: Tree, globs: Globs, declared: seq<Artifact>, at: seq<nat>) {
    && (forall i, j | 0 <= i < j < |at| :: at[i] < at[j])
    && (forall i | 0 <= i < |at| :: at[i] < |declared|)
    && forall i | 0 <= i < |declared| :: i in at <==> IsMissing(tree, globs, declared[i])
  }

  ghost predicate ListsMissing(tree: Tree, globs: Globs, declared: seq<Artifact>, missing: seq<string>) {
    exists at :: AreMissing(tree, globs, declared, at) && IsListAt(declared, at, missing)
  }

  ghost predicate IsListAt(declared: seq<Artifact>, at: seq<nat>, paths: seq<string>) {
    |at| == |paths| && forall k | 0 <= k < |at| :: at[k] < |declared| && paths[k] == declared[at[k]].path
  }

  lemma MissingIff(tree: Tree, globs: Globs, declaration: Artifact)
    requires ExpandOne(tree, globs, declaration.path).Some?
    ensures IsMissing(tree, globs, declaration)
       <==> !declaration.optional && ExpandOne(tree, globs, declaration.path) == Some({})
  {
    DeclarationYields(tree, globs, declaration.path);
    var paths := ExpandOne(tree, globs, declaration.path).value;
    if paths != {} {
      var path :| path in paths;
    }
  }

  lemma {:induction false} MissingMeans(tree: Tree, globs: Globs, declared: seq<Artifact>)
    requires CanExpand(tree, globs, declared)
    ensures ListsMissing(tree, globs, declared, Missing(tree, globs, declared))
    decreases |declared|
  {
    if declared == [] {
      assert AreMissing(tree, globs, declared, []) && IsListAt(declared, [], []);
    } else {
      var n := |declared| - 1;
      var init, last := declared[..n], declared[n];
      MissingMeans(tree, globs, init);
      MissingIff(tree, globs, last);
      OneMoreListed(tree, globs, declared, Missing(tree, globs, init), Missing(tree, globs, declared));
    }
  }

  lemma OneMoreListed(tree: Tree, globs: Globs, declared: seq<Artifact>, missing: seq<string>, more: seq<string>)
    requires declared != [] && ListsMissing(tree, globs, declared[..|declared| - 1], missing)
    requires more == if IsMissing(tree, globs, declared[|declared| - 1])
                     then missing + [declared[|declared| - 1].path] else missing
    ensures ListsMissing(tree, globs, declared, more)
  {
    var n := |declared| - 1;
    var init := declared[..n];
    var at: seq<nat> :| AreMissing(tree, globs, init, at) && IsListAt(init, at, missing);
    ListAtGrows(declared, at, missing);
    OneMoreMissing(tree, globs, declared, at, if IsMissing(tree, globs, declared[n]) then at + [n] else at);
  }

  lemma ListAtGrows(declared: seq<Artifact>, at: seq<nat>, paths: seq<string>)
    requires declared != [] && IsListAt(declared[..|declared| - 1], at, paths)
    ensures IsListAt(declared, at, paths)
    ensures IsListAt(declared, at + [|declared| - 1], paths + [declared[|declared| - 1].path])
  {
  }

  lemma OneMoreMissing(tree: Tree, globs: Globs, declared: seq<Artifact>, at: seq<nat>, more: seq<nat>)
    requires declared != [] && AreMissing(tree, globs, declared[..|declared| - 1], at)
    requires more == if IsMissing(tree, globs, declared[|declared| - 1]) then at + [|declared| - 1] else at
    ensures AreMissing(tree, globs, declared, more)
  {
    var n := |declared| - 1;
    forall i | 0 <= i < |declared|
      ensures i in more <==> IsMissing(tree, globs, declared[i])
    {
      if i < n {
        assert declared[..n][i] == declared[i];
        assert i in more <==> i in at;
      } else {
        assert n !in at;
        assert more != at ==> more[|at|] == n;
      }
    }
  }

  /** The result of an expansion. */
  ghost predicate IsExpansion(tree: Tree, globs: Globs, declared: seq<Artifact>, r: Expansion) {
    && AscendingPaths(r.entries) && (forall e :: e in r.entries <==> IsYielded(tree, globs, declared, e))
    && ListsMissing(tree, globs, declared, r.missing)
  }

  lemma ExpansionMeans(tree: Tree, globs: Globs, declared: seq<Artifact>, r: Expansion)
    requires CanExpand(tree, globs, declared)
    requires AscendingPaths(r.entries) && AllFromFirstCover(tree, globs, declared, r.entries)
    requires Paths(r.entries) == AllPaths(tree, globs, declared) && r.missing == Missing(tree, globs, declared)
    ensures IsExpansion(tree, globs, declared, r)
  {
    MissingMeans(tree, globs, declared);
    forall e
      ensures e in r.entries <==> IsYielded(tree, globs, declared, e)
    {
      EntryMeans(tree, globs, declared, r.entries, e);
    }
  }

  lemma CoversIff(tree: Tree, globs: Globs, declared: seq<Artifact>, path: string)
    requires CanExpand(tree, globs, declared)
    ensures forall i | 0 <= i < |declared| ::
          Covers(tree, globs, declared[i], path) <==> Yields(tree, globs, declared[i].path, path)
    ensures forall i :: FirstCover(tree, globs, declared, i, path) <==> YieldsFirst(tree, globs, declared, i, path)
  {
    forall i | 0 <= i < |declared|
      ensures Covers(tree, globs, declared[i], path) <==> Yields(tree, globs, declared[i].path, path)
    {
      DeclarationYields(tree, globs, declared[i].path);
    }
  }

  lemma ExpandsUnlessStopped(tree: Tree, globs: Globs, declared: seq<Artifact>)
    ensures CanExpand(tree, globs, declared)
       <==> !exists i | 0 <= i < |declared| :: Stops(tree, globs, declared[i].path)
  {
    forall i | 0 <= i < |declared|
      ensures ExpandOne(tree, globs, declared[i].path).None? <==> Stops(tree, globs, declared[i].path)
    {
      DeclarationYields(tree, globs, declared[i].path);
    }
  }

  lemma EntryMeans(tree: Tree, globs: Globs, declared: seq<Artifact>, entries: seq<Entry>, e: Entry)
    requires CanExpand(tree, globs, declared) && AllFromFirstCover(tree, globs, declared, entries)
    requires Paths(entries) == AllPaths(tree, globs, declared)
    ensures e in entries <==> IsYielded(tree, globs, declared, e)
  {
    CoversIff(tree, globs, declared, e.path);
    if e in entries {
      var i :| FirstCover(tree, globs, declared, i, e.path) && Flags(declared[i], e);
      assert YieldsFirst(tree, globs, declared, i, e.path);
    }
    if i :| YieldsFirst(tree, globs, declared, i, e.path)
            && e.track == declared[i].track && e.publish == declared[i].publish {
      YieldedIsListed(tree, globs, declared, entries, e, i);
    }
  }

  lemma YieldedIsListed(tree: Tree, globs: Globs, declared: seq<Artifact>, entries: seq<Entry>, e: Entry, i: int)
    requires AllFromFirstCover(tree, globs, declared, entries)
    requires Paths(entries) == AllPaths(tree, globs, declared)
    requires FirstCover(tree, globs, declared, i, e.path) && Flags(declared[i], e)
    ensures e in entries
  {
    CoveredIsInAll(tree, globs, declared, i, e.path);
    assert e.path in Paths(entries);
    var f :| f in entries && f.path == e.path;
    var j :| FirstCover(tree, globs, declared, j, f.path) && Flags(declared[j], f);
    assert j == i && f == e;
  }

  // ---------------------------------------------------------------- sorting

  /** Puts an entry into its place. */
  function InsertEntry(e: Entry, entries: seq<Entry>): seq<Entry>
    decreases |entries|
  {
    if entries == [] || Less(e.path, entries[0].path) then [e] + entries
    else [entries[0]] + InsertEntry(e, entries[1..])
  }

  function SortEntries(entries: seq<Entry>): seq<Entry>
    decreases |entries|
  {
    if entries == [] then [] else InsertEntry(entries[0], SortEntries(entries[1..]))
  }

  lemma {:induction false} InsertEntryFacts(e: Entry, entries: seq<Entry>)
    requires AscendingPaths(entries) && forall f | f in Elems(entries) :: f.path != e.path
    ensures Elems(InsertEntry(e, entries)) == {e} + Elems(entries) && AscendingPaths(InsertEntry(e, entries))
    decreases |entries|
  {
    if entries == [] {
    } else if Less(e.path, entries[0].path) {
      AscendingFront(e, entries);
    } else {
      var rest := entries[1..];
      HeadFacts(entries);
      assert entries[0] in Elems(entries);
      LessIsTotal(e.path, entries[0].path);
      InsertEntryFacts(e, rest);
      AscendingHead(entries[0], InsertEntry(e, rest));
    }
  }

  lemma AscendingHead(e: Entry, entries: seq<Entry>)
    requires AscendingPaths(entries) && forall f | f in Elems(entries) :: Less(e.path, f.path)
    ensures AscendingPaths([e] + entries)
  {
    var all := [e] + entries;
    forall i, j | 0 <= i < j < |all|
      ensures Less(all[i].path, all[j].path)
    {
      assert entries[j - 1] in Elems(entries);
    }
  }

  lemma AscendingFront(e: Entry, entries: seq<Entry>)
    requires entries != [] && AscendingPaths(entries) && Less(e.path, entries[0].path)
    ensures AscendingPaths([e] + entries)
  {
    forall f | f in Elems(entries)
      ensures Less(e.path, f.path)
    {
      var i :| 0 <= i < |entries| && entries[i] == f;
      if i > 0 {
        LessIsTransitive(e.path, entries[0].path, entries[i].path);
      }
    }
    AscendingHead(e, entries);
  }

  ghost predicate DistinctPaths(entries: seq<Entry>) {
    forall i, j | 0 <= i < j < |entries| :: entries[i].path != entries[j].path
  }

  lemma {:induction false} SortEntriesFacts(entries: seq<Entry>)
    requires DistinctPaths(entries)
    ensures AscendingPaths(SortEntries(entries)) && Elems(SortEntries(entries)) == Elems(entries)
    decreases |entries|
  {
    if entries != [] {
      var rest := entries[1..];
      HeadFacts(entries);
      assert forall i | 0 <= i < |rest| :: rest[i] == entries[i + 1];
      SortEntriesFacts(rest);
      InsertEntryFacts(entries[0], SortEntries(rest));
    }
  }

  // ---------------------------------------------------------------- the operation

  /** Lists the names that match a pattern, leaving out directories. */
  method GlobFiles(tree: Tree, globs: Globs, declared: string) returns (r: Option<set<string>>)
    ensures r == ExpandGlob(tree, globs, declared)
  {
    var pattern := Show(PathOf(declared));
    if pattern in globs.malformed {
      return None;
    }
    var out: set<string> := {};
    var matches := InSomeOrder(set p | p in tree.kinds && (pattern, Show(p)) in globs.matching);
    for i := 0 to |matches|
      invariant out == set p | p in Elems(matches[..i]) && p in tree.kinds && !tree.kinds[p].Directory? :: Show(p)
    {
      PrefixFacts(matches, i);
      if !tree.kinds[matches[i]].Directory? {
        out := out + {Show(matches[i])};
      }
    }
    assert matches[..|matches|] == matches;
    assert out == GlobNames(tree, globs, pattern);
    r := Some(out);
  }

  /** Walks a directory and collects the files and links on the way. */
  method WalkFiles(tree: Tree, root: Path) returns (out: set<string>)
    ensures out == WalkDir(tree, root)
  {
    if root in tree.kinds && tree.kinds[root].Link? {
      return {Show(root)};
    }
    out := {};
    var visited := InSomeOrder(set p | p in tree.kinds && Walked(tree, root, p));
    for i := 0 to |visited|
      invariant out == set p | p in Elems(visited[..i]) && p in tree.kinds && Collected(tree.kinds[p]) :: Show(p)
    {
      PrefixFacts(visited, i);
      if Collected(tree.kinds[visited[i]]) {
        out := out + {Show(visited[i])};
      }
    }
    assert visited[..|visited|] == visited;
  }

  method ExpandDeclared(tree: Tree, globs: Globs, declared: string) returns (r: Option<set<string>>)
    ensures r == ExpandOne(tree, globs, declared)
  {
    if IsDir(declared) {
      var root := PathOf(declared[..|declared| - 1]);
      var stat := StatOf(tree, root);
      if stat.Absent? {
        return Some({});
      }
      if !stat.Dir? {
        return None;
      }
      var files := WalkFiles(tree, root);
      return Some(files);
    }
    if IsGlob(declared) {
      r := GlobFiles(tree, globs, declared);
      return;
    }
    var stat := StatOf(tree, PathOf(declared));
    if stat.Absent? {
      return Some({});
    }
    r := if stat.File? then Some({declared}) else None;
  }

  /** Adds the paths of one declaration that are not there yet. */
  method AddAll(tree: Tree, globs: Globs, declared: seq<Artifact>, i: nat, matched: set<string>, entries: seq<Entry>)
      returns (more: seq<Entry>)
    requires i < |declared| && ExpandOne(tree, globs, declared[i].path) == Some(matched)
    requires AllFromFirstCover(tree, globs, declared, entries) && DistinctPaths(entries)
    requires Paths(entries) == AllPaths(tree, globs, declared[..i])
    ensures AllFromFirstCover(tree, globs, declared, more) && DistinctPaths(more)
    ensures Paths(more) == Paths(entries) + matched
  {
    more := entries;
    var paths := InSomeOrder(matched);
    assert paths[..0] == [];
    for k := 0 to |paths|
      invariant AllFromFirstCover(tree, globs, declared, more) && DistinctPaths(more)
      invariant Paths(more) == Paths(entries) + Elems(paths[..k])
    {
      PrefixFacts(paths, k);
      if paths[k] !in Paths(more) {
        var e := Entry(paths[k], declared[i].track, declared[i].publish);
        NewPathHasFirstCover(tree, globs, declared, i, paths[k]);
        assert FirstCover(tree, globs, declared, i, e.path) && Flags(declared[i], e);
        OneMoreEntry(more, e);
        more := more + [e];
      }
    }
    assert paths[..|paths|] == paths;
  }

  lemma NewPathHasFirstCover(tree: Tree, globs: Globs, declared: seq<Artifact>, i: nat, path: string)
    requires i < |declared| && Covers(tree, globs, declared[i], path) && path !in AllPaths(tree, globs, declared[..i])
    ensures FirstCover(tree, globs, declared, i, path)
  {
    forall j | 0 <= j < i
      ensures !Covers(tree, globs, declared[j], path)
    {
      assert declared[..i][j] == declared[j];
      if Covers(tree, globs, declared[..i][j], path) {
        CoveredIsInAll(tree, globs, declared[..i], j, path);
      }
    }
  }

  lemma OneMoreEntry(entries: seq<Entry>, e: Entry)
    ensures Paths(entries + [e]) == Paths(entries) + {e.path}
    ensures DistinctPaths(entries) && e.path !in Paths(entries) ==> DistinctPaths(entries + [e])
    ensures forall f :: f in entries + [e] <==> f in entries || f == e
  {
    assert forall f :: f in entries + [e] <==> f in entries || f == e;
  }

  /** The concrete files of the declarations: None exactly if one of them cannot be
      expanded; otherwise exactly the covered paths in strictly ascending order, each
      with the flags of the first declaration that covers it, and exactly the
      declarations that must produce something and do not. */
  method ExpandAgainstWorkdir(tree: Tree, globs: Globs, declared: seq<Artifact>) returns (r: Option<Expansion>)
    ensures r.Some? <==> CanExpand(tree, globs, declared)
    ensures r.Some? ==>
      && AscendingPaths(r.value.entries) && AllFromFirstCover(tree, globs, declared, r.value.entries)
      && Paths(r.value.entries) == AllPaths(tree, globs, declared)
      && r.value.missing == Missing(tree, globs, declared)
    ensures r.None? <==> exists i | 0 <= i < |declared| :: Stops(tree, globs, declared[i].path)
    ensures r.Some? ==> IsExpansion(tree, globs, declared, r.value)
  {
    ExpandsUnlessStopped(tree, globs, declared);
    var entries: seq<Entry>, missing: seq<string> := [], [];
    for i := 0 to |declared|
      invariant CanExpand(tree, globs, declared[..i])
      invariant AllFromFirstCover(tree, globs, declared, entries) && DistinctPaths(entries)
      invariant Paths(entries) == AllPaths(tree, globs, declared[..i])
      invariant missing == Missing(tree, globs, declared[..i])
    {
      OneMoreDeclaration(tree, globs, declared, i);
      var matched := ExpandDeclared(tree, globs, declared[i].path);
      if matched.None? {
        return None;
      }
      if matched.value == {} {
        if !declared[i].optional {
          missing := missing + [declared[i].path];
        }
      } else {
        entries := AddAll(tree, globs, declared, i, matched.value, entries);
      }
    }
    assert declared[..|declared|] == declared;
    SortEntriesFacts(entries);
    SameElements(entries, SortEntries(entries));
    var expansion := Expansion(SortEntries(entries), missing);
    ExpansionMeans(tree, globs, declared, expansion);
    r := Some(expansion);
  }

  lemma OneMoreDeclaration(tree: Tree, globs: Globs, declared: seq<Artifact>, i: nat)
    requires i < |declared|
    ensures CanExpand(tree, globs, declared[..i + 1])
       <==> CanExpand(tree, globs, declared[..i]) && ExpandOne(tree, globs, declared[i].path).Some?
    ensures CanExpand(tree, globs, declared) ==> ExpandOne(tree, globs, declared[i].path).Some?
    ensures AllPaths(tree, globs, declared[..i + 1])
          == AllPaths(tree, globs, declared[..i]) + Produced(tree, globs, declared[i])
    ensures Missing(tree, globs, declared[..i + 1])
         == Missing(tree, globs, declared[..i])
          + if !declared[i].optional && ExpandOne(tree, globs, declared[i].path) == Some({})
            then [declared[i].path] else []
  {
    NextPrefix(declared, i);
    forall j | 0 <= j < i
      ensures declared[..i][j] == declared[..i + 1][j] == declared[j]
    {
    }
  }

  lemma SameElements(a: seq<Entry>, b: seq<Entry>)
    requires Elems(a) == Elems(b)
    ensures Paths(a) == Paths(b) && forall e :: e in a <==> e in b
  {
    assert forall e :: e in a <==> e in Elems(a);
    assert forall e :: e in b <==> e in Elems(b);
  }

  // ---------------------------------------------------------------- agreement

  /** The paths of a tree are those of files below its root, in normal form. */
  ghost predicate WellFormed(tree: Tree) {
    forall p | p in tree.kinds :: Valid(p) && !p.rooted
  }

  /** A declared directory: a path in normal form with a slash behind it. */
  ghost predicate CleanDir(declared: string, root: Path) {
    Valid(root) && !root.rooted && Components(root) != [] && declared == Show(root) + "/"
  }

  /** A declaration in normal form. */
  ghost predicate CleanDeclaration(declared: string) {
    if IsDir(declared) then exists root :: CleanDir(declared, root)
    else IsGlob(declared) ==> Show(PathOf(declared)) == declared
  }

  /** Every path that a declaration produces is matched by it. */
  ghost predicate Agrees(tree: Tree, globs: Globs, declared: string) {
    forall path | ExpandOne(tree, globs, declared).Some? && path in ExpandOne(tree, globs, declared).value ::
      MatchesPattern(globs, path, declared)
  }

  lemma CleanDirIsDir(declared: string, root: Path)
    requires CleanDir(declared, root)
    ensures IsDir(declared) && PathOf(declared[..|declared| - 1]) == root && |declared| == |Show(root)| + 1
  {
    ShownIsNotEmpty(root);
    ParseUndoesShow(root);
    assert declared[..|declared| - 1] == Show(root);
  }

  lemma BelowStartsWithDir(root: Path, p: Path, declared: string)
    requires CleanDir(declared, root) && Valid(p) && LiesBelow(root, p)
    ensures StartsWith(Show(p), declared)
  {
    BelowContinues(root, p);
    PrefixOfShown(root, p);
  }

  lemma BelowContinues(root: Path, p: Path)
    requires LiesBelow(root, p)
    ensures Components(root) < Components(p)
  {
    SplitAt(p.names, |root.names|);
    ConcatAssociates(Ups(p.ups), root.names, p.names[|root.names|..]);
  }

  /** Only a directory declaration in normal form starts any path of a tree. */
  lemma PrefixIsClean(declared: string, p: Path)
    requires IsDir(declared) && Valid(p) && !p.rooted && StartsWith(Show(p), declared)
    ensures exists root :: CleanDir(declared, root)
  {
    var front := declared[..|declared| - 1];
    assert declared == front + "/";
    var root := SlashedPrefixIsShown(p, front);
    assert CleanDir(declared, root);
  }

  /** The directory that a declaration names. */
  function RootOf(declared: string): Path
    requires IsDir(declared)
  {
    PathOf(declared[..|declared| - 1])
  }

  predicate Linked(tree: Tree, root: Path) {
    root in tree.kinds && tree.kinds[root] == Link(ToDirectory)
  }

  lemma WalkedIsMatched(tree: Tree, declared: string, root: Path, path: string)
    requires WellFormed(tree) && CleanDir(declared, root) && !(root in tree.kinds && tree.kinds[root].Link?)
    requires path in WalkDir(tree, root)
    ensures StartsWith(path, declared)
  {
    var p :| p in tree.kinds && Walked(tree, root, p) && Show(p) == path;
    BelowStartsWithDir(root, p, declared);
  }

  /** A directory declaration agrees with the coordinator, in any tree, exactly if it
      produces nothing, or is in normal form and does not name a link to a directory:
      the walk from a link yields the link, which is not below itself. Of a
      declaration in another form no produced path is ever matched. */
  lemma DirAgreesIff(tree: Tree, globs: Globs, declared: string)
    requires WellFormed(tree) && IsDir(declared)
    ensures Agrees(tree, globs, declared)
       <==> || ExpandOne(tree, globs, declared).None? || ExpandOne(tree, globs, declared) == Some({})
            || ((exists root :: CleanDir(declared, root)) && !Linked(tree, RootOf(declared)))
  {
    var root := RootOf(declared);
    if exists r :: CleanDir(declared, r) {
      var r :| CleanDir(declared, r);
      CleanDirIsDir(declared, r);
    }
    var result := ExpandOne(tree, globs, declared);
    if result.Some? {
      forall path | path in result.value
        ensures MatchesPattern(globs, path, declared) <==> (exists r :: CleanDir(declared, r)) && !Linked(tree, root)
      {
        ProducedIsMatchedIff(tree, globs, declared, path);
      }
      if result.value != {} {
        var path :| path in result.value;
      }
    }
  }

  lemma ProducedIsMatchedIff(tree: Tree, globs: Globs, declared: string, path: string)
    requires WellFormed(tree) && IsDir(declared) && ExpandOne(tree, globs, declared).Some?
    requires path in ExpandOne(tree, globs, declared).value
    ensures MatchesPattern(globs, path, declared)
       <==> (exists r :: CleanDir(declared, r)) && !Linked(tree, RootOf(declared))
  {
    var root := RootOf(declared);
    ParseIsValid(declared[..|declared| - 1]);
    if Linked(tree, root) {
      assert path == Show(root);
      if r :| CleanDir(declared, r) {
        CleanDirIsDir(declared, r);
      } else if StartsWith(path, declared) {
        PrefixIsClean(declared, root);
      }
    } else {
      var p :| p in tree.kinds && Walked(tree, root, p) && Show(p) == path;
      if StartsWith(path, declared) {
        PrefixIsClean(declared, p);
      }
      if r :| CleanDir(declared, r) {
        CleanDirIsDir(declared, r);
        WalkedIsMatched(tree, declared, root, path);
      }
    }
  }

  /** A tree in which the directory can be looked at and is not a link. */
  ghost predicate Plain(tree: Tree, declared: string)
    requires IsDir(declared)
  {
    WellFormed(tree) && RootOf(declared) !in tree.faults && !Linked(tree, RootOf(declared))
  }

  /** A directory declaration agrees in all such trees exactly if it is in normal form. */
  lemma DirAlwaysAgreesIff(globs: Globs, declared: string)
    requires IsDir(declared)
    ensures (forall tree | Plain(tree, declared) :: Agrees(tree, globs, declared))
       <==> exists root :: CleanDir(declared, root)
  {
    forall tree | Plain(tree, declared)
      ensures (exists root :: CleanDir(declared, root)) ==> Agrees(tree, globs, declared)
    {
      DirAgreesIff(tree, globs, declared);
    }
    if !exists root :: CleanDir(declared, root) {
      var tree := FileInDir(declared, "f");
      DirAgreesIff(tree, globs, declared);
      assert !Agrees(tree, globs, declared);
    }
  }

  /** A cleaned, relative path that is not the current directory. */
  predicate IsCleanFront(front: string) {
    front != "" && front[0] != '/' && front != "." && Clean(front) == front
  }

  /** A directory declaration is in normal form exactly if the path before its last
      slash is cleaned, relative and not the current directory. */
  lemma CleanDirIff(declared: string)
    requires IsDir(declared)
    ensures (exists root :: CleanDir(declared, root)) <==> IsCleanFront(declared[..|declared| - 1])
  {
    var front := declared[..|declared| - 1];
    assert declared == front + "/";
    if root :| CleanDir(declared, root) {
      CleanDirIsDir(declared, root);
      ShownIsCleanFront(root);
    }
    if IsCleanFront(front) {
      CleanFrontIsShown(front);
      assert CleanDir(declared, Parse(front));
    }
  }

  lemma ShownIsCleanFront(root: Path)
    requires Valid(root) && !root.rooted && Components(root) != []
    ensures IsCleanFront(Show(root))
  {
    var here := Path(false, 0, []);
    assert Components(here) == [] && Show(here) == ".";
    ParseUndoesShow(root);
    ShownIsNotEmpty(root);
    ShowIsInjective(root, here);
  }

  lemma CleanFrontIsShown(front: string)
    requires IsCleanFront(front)
    ensures var root := Parse(front); Valid(root) && !root.rooted && Components(root) != [] && Show(root) == front
  {
    ParseIsValid(front);
    ShownIsNotEmpty(Parse(front));
  }

  lemma OtherFrontIsNotClean(front: string)
    requires front != "" && !IsCleanFront(front)
    ensures IsDir(front + "/") && !exists root :: CleanDir(front + "/", root)
  {
    assert (front + "/")[..|front|] == front;
    CleanDirIff(front + "/");
  }

  /** A doubled slash behind a path, and a leading "./". */
  lemma SlashedIsNotClean(root: Path)
    requires Valid(root) && !root.rooted && Components(root) != []
    ensures !IsCleanFront(Show(root) + "/") && !IsCleanFront("." + "/" + Show(root))
  {
    var here := Path(false, 0, []);
    assert Components(here) == [] && Show(here) == ".";
    CleanOfSlashed(root);
    ShownIsNotEmpty(root);
    ParseAppended(here, Show(root));
    ParseUndoesShow(root);
  }

  /** With a leading "./" or another slash behind it a declaration is no longer in
      normal form, and "./" is not; these forms are valid declarations. */
  lemma OtherFormsAreNotClean(declared: string, root: Path)
    requires CleanDir(declared, root)
    ensures forall other | other in {"./", "./" + declared, declared + "/"} ::
      IsDir(other) && !exists r :: CleanDir(other, r)
  {
    SlashedIsNotClean(root);
    OtherFrontIsNotClean(".");
    OtherFrontIsNotClean(Show(root) + "/");
    OtherFrontIsNotClean("." + "/" + Show(root));
    ConcatAssociates("." + "/", Show(root), "/");
    assert "." + "/" == "./";
  }

  /** A glob agrees in all trees, and whatever matches what, exactly if it is in normal
      form: what is expanded is the cleaned pattern, what is matched is the text. */
  lemma GlobAlwaysAgreesIff(declared: string)
    requires IsGlob(declared) && !IsDir(declared)
    ensures (forall tree, globs | WellFormed(tree) :: Agrees(tree, globs, declared))
       <==> Show(PathOf(declared)) == declared
  {
    var pattern := Show(PathOf(declared));
    if pattern != declared {
      var tree := FileInRoot("f");
      var globs := Globs({(pattern, "f")}, {});
      assert "f" in ExpandOne(tree, globs, declared).value;
      assert !MatchesPattern(globs, "f", declared);
      assert !Agrees(tree, globs, declared);
    }
  }

  /** A tree with one file at its root. */
  lemma FileInRoot(name: string) returns (tree: Tree)
    requires IsName(name)
    ensures WellFormed(tree) && tree.faults == {} && tree.kinds == map[Path(false, 0, [name]) := Regular]
    ensures forall globs: Globs, pattern: string | (pattern, name) in globs.matching ::
          name in GlobNames(tree, globs, pattern)
  {
    var p := Path(false, 0, [name]);
    tree := Tree(map[p := Regular], {});
    assert Components(p) == [name] && Show(p) == name;
  }

  // ---------------------------------------------------------------- all declarations

  /** A tree in which no declared directory is a link. */
  ghost predicate AllPlain(tree: Tree, declared: seq<Artifact>) {
    && WellFormed(tree)
    && forall i | 0 <= i < |declared| && IsDir(declared[i].path) :: !Linked(tree, RootOf(declared[i].path))
  }

  /** Every path that some declaration produces is one that the coordinator accepts. */
  ghost predicate AllAgree(tree: Tree, globs: Globs, declared: seq<Artifact>) {
    forall path | path in AllPaths(tree, globs, declared) :: MatchesAny(globs, path, declared)
  }

  /** What a declaration produces is accepted for the sake of one in the list: a
      directory for one that its shown path lies in, a glob for its cleaned pattern. */
  ghost predicate Served(declared: seq<Artifact>, pattern: string) {
    if IsDir(pattern) then
      && Components(RootOf(pattern)) != []
      && exists j | 0 <= j < |declared| ::
           IsDir(declared[j].path) && StartsWith(Show(RootOf(pattern)) + "/", declared[j].path)
    else
      IsGlob(pattern) ==> exists j | 0 <= j < |declared| :: IsCleaned(declared[j].path, pattern)
  }

  predicate IsCleaned(glob: string, pattern: string) {
    !IsDir(glob) && IsGlob(glob) && glob == Show(PathOf(pattern))
  }

  /** A declaration in normal form is served by itself. */
  lemma CleanIsServed(declared: seq<Artifact>, i: nat)
    requires i < |declared| && CleanDeclaration(declared[i].path)
    ensures Served(declared, declared[i].path)
  {
    var pattern := declared[i].path;
    if IsDir(pattern) {
      var root :| CleanDir(pattern, root);
      CleanDirIsDir(pattern, root);
    } else if IsGlob(pattern) {
      assert IsCleaned(declared[i].path, pattern);
    }
  }

  lemma ServedIsAccepted(tree: Tree, globs: Globs, declared: seq<Artifact>, i: nat, path: string)
    requires i < |declared| && declared[i].path != "" && Served(declared, declared[i].path) && AllPlain(tree, declared)
    requires Covers(tree, globs, declared[i], path)
    ensures MatchesAny(globs, path, declared)
  {
    var pattern := declared[i].path;
    var j: int := i;
    if IsDir(pattern) {
      var front := Show(RootOf(pattern)) + "/";
      j :| 0 <= j < |declared| && IsDir(declared[j].path) && StartsWith(front, declared[j].path);
      ProducedIsBelow(tree, globs, pattern, path);
    } else if IsGlob(pattern) {
      j :| 0 <= j < |declared| && IsCleaned(declared[j].path, pattern);
    }
    assert MatchesPattern(globs, path, declared[j].path);
  }

  lemma ProducedIsBelow(tree: Tree, globs: Globs, pattern: string, path: string)
    requires WellFormed(tree) && IsDir(pattern) && Components(RootOf(pattern)) != [] && !Linked(tree, RootOf(pattern))
    requires ExpandOne(tree, globs, pattern).Some? && path in ExpandOne(tree, globs, pattern).value
    ensures StartsWith(path, Show(RootOf(pattern)) + "/")
  {
    var root := RootOf(pattern);
    ParseIsValid(pattern[..|pattern| - 1]);
    var p :| p in tree.kinds && Walked(tree, root, p) && Show(p) == path;
    BelowStartsWithDir(root, p, Show(root) + "/");
  }

  function Longest(declared: seq<Artifact>): (n: nat)
    ensures forall i | 0 <= i < |declared| :: |declared[i].path| <= n
  {
    if declared == [] then 0
    else
      var n, last := Longest(declared[..|declared| - 1]), |declared[|declared| - 1].path|;
      if n < last then last else n
  }

  /** A name longer than every declaration. */
  lemma FreshName(declared: seq<Artifact>) returns (name: string)
    ensures IsName(name) && forall i | 0 <= i < |declared| :: |declared[i].path| < |name|
  {
    name := seq(Longest(declared) + 3, _ => 'f');
    assert name[0] == 'f';
  }

  /** A path that ends in such a name is accepted only for a declared directory in
      front of the name or for a match. */
  lemma FreshIsRefused(globs: Globs, front: string, name: string, pattern: string)
    requires |pattern| < |name| && '/' !in name
    requires IsDir(pattern) ==> !StartsWith(front, pattern)
    requires !IsDir(pattern) && IsGlob(pattern) ==> (pattern, front + name) !in globs.matching
    ensures !MatchesPattern(globs, front + name, pattern)
  {
    if IsDir(pattern) {
      PrefixInFront(front, name, pattern);
    }
  }

  /** A prefix that ends in a slash ends in front of a text without one. */
  lemma PrefixInFront(front: string, name: string, prefix: string)
    requires prefix != "" && prefix[|prefix| - 1] == '/' && '/' !in name
    ensures prefix <= front + name ==> prefix <= front
  {
    forall i | |front| <= i < |front + name|
      ensures (front + name)[i] != '/'
    {
      assert (front + name)[i] == name[i - |front|];
    }
  }

  lemma ShownInDir(root: Path, name: string)
    requires Valid(root) && !root.rooted && IsName(name)
    ensures Show(root.(names := root.names + [name])) == FrontOf(root) + name
  {
    var file := root.(names := root.names + [name]);
    assert Components(file) == Components(root) + [name];
    assert Components(file)[..|Components(root)|] == Components(root);
  }

  /** What the files of a directory show in front of their names. */
  function FrontOf(root: Path): string {
    if Components(root) == [] then "" else Show(root) + "/"
  }

  /** A refused path, for the declaration at i that produces it. */
  ghost predicate Refuted(declared: seq<Artifact>, i: nat, tree: Tree, globs: Globs, path: string)
    requires i < |declared|
  {
    AllPlain(tree, declared) && Covers(tree, globs, declared[i], path) && !MatchesAny(globs, path, declared)
  }

  lemma FreshFile(declared: seq<Artifact>, i: nat) returns (tree: Tree, globs: Globs, path: string)
    requires i < |declared| && IsDir(declared[i].path) && !Served(declared, declared[i].path)
    ensures Refuted(declared, i, tree, globs, path)
  {
    var name := FreshName(declared);
    var root := RootOf(declared[i].path);
    path := FrontOf(root) + name;
    tree := FileInDir(declared[i].path, name);
    globs := Globs({}, {});
    forall j | 0 <= j < |declared|
      ensures !MatchesPattern(globs, path, declared[j].path)
    {
      FreshIsRefused(globs, FrontOf(root), name, declared[j].path);
    }
  }

  /** A tree with one file in the directory. */
  lemma FileInDir(declared: string, name: string) returns (tree: Tree)
    requires IsDir(declared) && IsName(name)
    ensures WellFormed(tree) && tree.faults == {} && forall p | p in tree.kinds :: !tree.kinds[p].Link?
    ensures forall globs :: ExpandOne(tree, globs, declared).Some?
                         && FrontOf(RootOf(declared)) + name in ExpandOne(tree, globs, declared).value
  {
    var root := RootOf(declared);
    var file := root.(names := root.names + [name]);
    tree := Tree(map[root := Directory, file := Regular], {});
    ParseIsValid(declared[..|declared| - 1]);
    ShownInDir(root, name);
    assert root.names < file.names && Walked(tree, root, file);
    assert Show(file) in WalkDir(tree, root);
  }

  lemma FreshMatch(declared: seq<Artifact>, i: nat) returns (tree: Tree, globs: Globs, path: string)
    requires i < |declared| && !IsDir(declared[i].path) && !Served(declared, declared[i].path)
    ensures Refuted(declared, i, tree, globs, path)
  {
    var pattern := Show(PathOf(declared[i].path));
    path := FreshName(declared);
    tree := FileInRoot(path);
    globs := Globs({(pattern, path)}, {});
    forall j | 0 <= j < |declared|
      ensures !MatchesPattern(globs, path, declared[j].path)
    {
      assert !IsCleaned(declared[j].path, declared[i].path);
      assert "" + path == path;
      FreshIsRefused(globs, "", path, declared[j].path);
    }
  }

  /** The coordinator accepts every path that the client's declarations produce, in all
      trees without linked directories and whatever matches what, exactly if each
      declaration is served by one of them; those in normal form are. */
  lemma ClientAgreesWithCoordinator(declared: seq<Artifact>)
    requires forall i | 0 <= i < |declared| :: declared[i].path != ""
    ensures (forall tree, globs | AllPlain(tree, declared) :: AllAgree(tree, globs, declared))
       <==> forall i | 0 <= i < |declared| :: Served(declared, declared[i].path)
    ensures forall i | 0 <= i < |declared| && CleanDeclaration(declared[i].path) :: Served(declared, declared[i].path)
  {
    forall i | 0 <= i < |declared| && CleanDeclaration(declared[i].path)
      ensures Served(declared, declared[i].path)
    {
      CleanIsServed(declared, i);
    }
    if forall i | 0 <= i < |declared| :: Served(declared, declared[i].path) {
      forall tree, globs, path | AllPlain(tree, declared) && path in AllPaths(tree, globs, declared)
        ensures MatchesAny(globs, path, declared)
      {
        var i := AllIsCovered(tree, globs, declared, path);
        ServedIsAccepted(tree, globs, declared, i, path);
      }
    } else {
      var i :| 0 <= i < |declared| && !Served(declared, declared[i].path);
      var tree, globs, path;
      if IsDir(declared[i].path) {
        tree, globs, path := FreshFile(declared, i);
      } else {
        tree, globs, path := FreshMatch(declared, i);
      }
      CoveredIsInAll(tree, globs, declared, i, path);
      assert AllPlain(tree, declared) && !AllAgree(tree, globs, declared);
    }
  }
}
