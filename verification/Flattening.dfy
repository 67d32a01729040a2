/** Flattening a workflow, and what the merged document holds of its files. */
module Flattening {
  import opened Wrappers
  import opened Graphs
  import opened SlashPath
  import opened Places
  import opened Include

  // ---------------------------------------------------------------- the files and their items

  /** The file that an entry of an include list names, from the directory of its file. */
  function Included(files: Files, path: string, p: Place): Option<string> {
    match NodeAt(files, path, "include", p)
    case Some(Scalar(name)) => if name == "" then None else Some(Clean(JoinPaths(Dir(Clean(ToSlash(path))), name)))
    case _ => None
  }

  /** The item of a list of a file. */
  function NodeAt(files: Files, path: string, key: string, p: Place): Option<Node> {
    if path in files && files[path].Document? && p.pair < |files[path].pairs| then
      var pair := files[path].pairs[p.pair];
      if pair.key == key && pair.value.List? && p.item < |pair.value.items| then Some(pair.value.items[p.item])
      else None
    else None
  }

  /** The file at the end of a way through includes. */
  function FileAt(files: Files, path: string, way: Way): Option<string>
    decreases |way|
  {
    if way == [] then Some(path)
    else
      match Included(files, path, way[0])
      case Some(child) => FileAt(files, child, way[1..])
      case None => None
  }

  /** The item of a list at the end of a way, all of which but the last place is one
      through includes. */
  function ItemAt(files: Files, path: string, key: string, way: Way): Option<Node>
    decreases |way|
  {
    if way == [] then None
    else if |way| == 1 then NodeAt(files, path, key, way[0])
    else
      match Included(files, path, way[0])
      case Some(child) => ItemAt(files, child, key, way[1..])
      case None => None
  }

  ghost function ItemsIn(files: Files, path: string, key: string): Way -> Option<Node> {
    way => ItemAt(files, path, key, way)
  }

  /** The normal forms of the files, by their ways. */
  ghost function KeysIn(files: Files, path: string): Way -> Option<string> {
    way => match FileAt(files, path, way) case Some(file) => Some(Clean(ToSlash(file))) case None => None
  }

  // ---------------------------------------------------------------- what a merged document is

  /** All items of a list in the include tree, in the order of the document. */
  ghost predicate HoldsItems(files: Files, entry: string, key: string, nodes: seq<Node>) {
    exists ways :: Holds(ItemsIn(files, entry, key), ways, nodes)
  }

  /** The normal forms of all files of the include tree, in the order of the document. */
  ghost predicate NamesFiles(files: Files, entry: string, keys: seq<string>) {
    exists ways :: Holds(KeysIn(files, entry), ways, keys)
  }

  predicate IsOrdinary(key: string) {
    key != "include" && key != "params" && key != "agents" && key != "tasks"
  }

  /** The i-th pair is the first of its key, which is not one of the lists. */
  predicate IsFirstOfKey(pairs: seq<Pair>, i: nat) {
    i < |pairs| && IsOrdinary(pairs[i].key) && forall j | 0 <= j < i :: pairs[j].key != pairs[i].key
  }

  predicate IsLastOfKey(pairs: seq<Pair>, i: nat, p: Pair) {
    i < |pairs| && pairs[i] == p && forall j | i < j < |pairs| :: pairs[j].key != p.key
  }

  ghost predicate AreFirsts(pairs: seq<Pair>, at: seq<nat>) {
    && (forall k, l | 0 <= k < l < |at| :: at[k] < at[l])
    && forall i: nat :: i in at <==> IsFirstOfKey(pairs, i)
  }

  /** The other settings of the entry, each in the place of its first occurrence and
      with its last value. */
  ghost predicate AreSettings(pairs: seq<Pair>, settings: seq<Pair>) {
    exists at :: AreFirsts(pairs, at) && AreSettingsAt(pairs, at, settings)
  }

  ghost predicate AreSettingsAt(pairs: seq<Pair>, at: seq<nat>, settings: seq<Pair>) {
    && |at| == |settings|
    && forall k | 0 <= k < |at| ::
         && at[k] < |pairs| && settings[k].key == pairs[at[k]].key
         && exists i: nat :: IsLastOfKey(pairs, i, settings[k])
  }

  /** The entry's settings, then the three lists as far as they have items. */
  ghost predicate IsMerged(files: Files, entry: string, pairs: seq<Pair>) {
    exists settings, params, agents, tasks ::
      && AreSettings(PairsOf(files, entry), settings)
      && HoldsItems(files, entry, "params", params) && HoldsItems(files, entry, "agents", agents)
      && HoldsItems(files, entry, "tasks", tasks)
      && pairs == InSections(settings, params, agents, tasks)
  }

  function InSections(settings: seq<Pair>, params: seq<Node>, agents: seq<Node>, tasks: seq<Node>): seq<Pair> {
    settings + (if params == [] then [] else [Pair("params", List(params))])
    + (if agents == [] then [] else [Pair("agents", List(agents))])
    + (if tasks == [] then [] else [Pair("tasks", List(tasks))])
  }

  // ---------------------------------------------------------------- when a workflow can be merged

  predicate IsSoundPair(pair: Pair, isEntry: bool) {
    if pair.key == "include" then
      pair.value.List? && forall node | node in pair.value.items :: node.Scalar? && node.text != ""
    else if IsOrdinary(pair.key) then isEntry
    else pair.value.List?
  }

  ghost predicate IsSoundFile(files: Files, path: string, isEntry: bool) {
    && path in files && !files[path].Unparsable?
    && forall i | 0 <= i < |PairsOf(files, path)| :: IsSoundPair(PairsOf(files, path)[i], isEntry)
  }

  predicate IsInDir(dir: string, path: string) {
    if dir == "." || dir == "" then !("../" <= path) && path != ".."
    else path == dir || dir + "/" <= path
  }

  /** Each file of a chain names the next in an include list. */
  ghost predicate IsIncludeChain(files: Files, chain: seq<string>) {
    chain != [] && forall i | 0 <= i < |chain| - 1 :: NamesInInclude(files, chain[i], chain[i + 1])
  }

  ghost predicate NamesInInclude(files: Files, path: string, child: string) {
    exists p :: Included(files, path, p) == Some(child)
  }

  /** Every file has only what may be in it, all but the first lie in the directory, and
      none comes twice. */
  ghost predicate IsSoundChain(files: Files, dir: string, chain: seq<string>) {
    && (forall i | 0 <= i < |chain| :: IsSoundFile(files, chain[i], i == 0))
    && (forall i | 0 < i < |chain| :: IsInDir(dir, chain[i]))
    && forall i, j | 0 <= i < j < |chain| :: Clean(ToSlash(chain[i])) != Clean(ToSlash(chain[j]))
  }

  predicate IsFirstScalar(pairs: seq<Pair>, field: string, i: nat) {
    && i < |pairs| && pairs[i].key == field && pairs[i].value.Scalar?
    && forall j | 0 <= j < i :: pairs[j].key == field ==> !pairs[j].value.Scalar?
  }

  /** A task is named by its id, a parameter or an agent by its name. */
  ghost predicate IsNamed(key: string, node: Node, name: string) {
    && node.Mapping?
    && exists i: nat :: IsFirstScalar(node.pairs, if key == "tasks" then "id" else "name", i)
                        && node.pairs[i].value.text == name
  }

  /** No name of a list is taken twice. */
  ghost predicate HasDistinctNames(files: Files, entry: string, key: string) {
    forall a, b, name | name != "" && IsNamedAt(files, entry, key, a, name) && IsNamedAt(files, entry, key, b, name) ::
      a == b
  }

  ghost predicate IsNamedAt(files: Files, entry: string, key: string, way: Way, name: string) {
    ItemAt(files, entry, key, way).Some? && IsNamed(key, ItemAt(files, entry, key, way).value, name)
  }

  ghost predicate HasSoundChains(files: Files, entry: string) {
    forall chain | IsIncludeChain(files, chain) && chain[0] == entry ::
      IsSoundChain(files, Dir(Clean(ToSlash(entry))), chain)
  }

  ghost predicate HasNoNameTwice(files: Files, entry: string) {
    forall key | key == "params" || key == "agents" || key == "tasks" :: HasDistinctNames(files, entry, key)
  }

  ghost predicate CanMerge(files: Files, entry: string) {
    HasSoundChains(files, entry) && HasNoNameTwice(files, entry)
  }

  // ---------------------------------------------------------------- items under a place

  lemma IncludedItems(files: Files, path: string, key: string, p: Place, child: string)
    requires key != "include" && Included(files, path, p) == Some(child)
    ensures forall a :: ItemsIn(files, path, key)([p] + a) == ItemsIn(files, child, key)(a)
  {
    forall a
      ensures ItemAt(files, path, key, [p] + a) == ItemAt(files, child, key, a)
    {
      if a != [] {
        assert ([p] + a)[1..] == a;
      }
    }
  }

  lemma IncludedFiles(files: Files, path: string, p: Place, child: string)
    requires Included(files, path, p) == Some(child)
    ensures forall a :: KeysIn(files, path)([p] + a) == KeysIn(files, child)(a)
  {
    forall a
      ensures FileAt(files, path, [p] + a) == FileAt(files, child, a)
    {
      assert ([p] + a)[1..] == a;
    }
  }

  /** Where a way begins. */
  lemma WayBegins(files: Files, path: string, key: string, way: Way)
    requires ItemAt(files, path, key, way).Some?
    ensures way != [] && path in files && files[path].Document? && way[0].pair < |files[path].pairs|
    ensures var pair := files[path].pairs[way[0].pair];
      (pair.key == key || pair.key == "include") && pair.value.List? && way[0].item < |pair.value.items|
  {
  }

  lemma FileWayBegins(files: Files, path: string, way: Way)
    requires way != [] && FileAt(files, path, way).Some?
    ensures path in files && files[path].Document? && way[0].pair < |files[path].pairs|
    ensures var pair := files[path].pairs[way[0].pair];
      pair.key == "include" && pair.value.List? && way[0].item < |pair.value.items|
  {
  }

  lemma {:induction false} OfConcat(a: seq<Item>, b: seq<Item>, list: string)
    ensures Of(a + b, list) == Of(a, list) + Of(b, list)
    decreases |b|
  {
    if b == [] {
      assert a + b == a;
    } else {
      var init := b[..|b| - 1];
      OfConcat(a, init, list);
      assert (a + b)[..|a + b| - 1] == a + init;
    }
  }

  lemma OneItemHeld(files: Files, path: string, key: string, p: Place, node: Node)
    requires key != "include" && NodeAt(files, path, key, p) == Some(node)
    ensures PartHolds(ItemsIn(files, path, key), p, Place(p.pair, p.item + 1), Under(p, [[]]), [node])
  {
    forall a
      ensures ItemsIn(files, path, key)([p] + a) == if a == [] then Some(node) else None
    {
      if a == [] {
        assert [p] + a == [p];
      } else {
        assert Included(files, path, p).None?;
      }
    }
    OneHeld(ItemsIn(files, path, key), p, node);
  }

  // ---------------------------------------------------------------- the expansion is in order

  lemma {:induction false} ListHolds(files: Files, path: string, key: string, i: nat, m: nat) returns (ways: seq<Way>)
    requires path in files && files[path].Document? && i < |files[path].pairs| && key != "include"
    requires files[path].pairs[i].key == key && files[path].pairs[i].value.List?
    requires m <= |files[path].pairs[i].value.items|
    ensures PartHolds(ItemsIn(files, path, key), Place(i, 0), Place(i, m), ways, files[path].pairs[i].value.items[..m])
    decreases m
  {
    if m == 0 {
      NothingHeld<Node>(ItemsIn(files, path, key), Place(i, 0), Place(i, 0));
      return [];
    }
    var nodes := files[path].pairs[i].value.items;
    var front := ListHolds(files, path, key, i, m - 1);
    var p := Place(i, m - 1);
    OneItemHeld(files, path, key, p, nodes[m - 1]);
    PartsHold(ItemsIn(files, path, key), Place(i, 0), p, Place(i, m), front, Under(p, [[]]), nodes[..m - 1],
              [nodes[m - 1]]);
    assert nodes[..m] == nodes[..m - 1] + [nodes[m - 1]];
    ways := front + Under(p, [[]]);
  }

  lemma {:induction false} OfItems(list: string, nodes: seq<Node>, key: string)
    ensures Of(ItemsOf(list, nodes), key) == if list == key then nodes else []
    decreases |nodes|
  {
    if nodes != [] {
      var n := |nodes| - 1;
      OfItems(list, nodes[..n], key);
      var items := ItemsOf(list, nodes[..n]);
      assert (items + [Item(list, nodes[n])])[..|items|] == items;
      assert nodes == nodes[..n] + [nodes[n]];
    }
  }

  predicate IsListKey(key: string) {
    key == "params" || key == "agents" || key == "tasks"
  }

  /** The items of the files of an include list. */
  lemma {:induction false} IncludesHold(files: Files, dir: string, path: string, i: nat, m: nat,
      visiting: set<string>, key: string) returns (ways: seq<Way>)
    requires IsListKey(key) && path in files && files[path].Document? && i < |files[path].pairs|
    requires files[path].pairs[i].key == "include" && files[path].pairs[i].value.List?
    requires m <= |files[path].pairs[i].value.items|
    requires AllIncludesOk(files, dir, KeyOf(path), files[path].pairs[i].value.items[..m], visiting)
    ensures PartHolds(ItemsIn(files, path, key), Place(i, 0), Place(i, m), ways,
                Of(ExpandIncludes(files, KeyOf(path), files[path].pairs[i].value.items[..m], visiting), key))
    decreases KeysOf(files) - visiting, 3, m
  {
    if m == 0 {
      NothingHeld<Node>(ItemsIn(files, path, key), Place(i, 0), Place(i, 0));
      return [];
    }
    var nodes, own := files[path].pairs[i].value.items, KeyOf(path);
    var p, child := Place(i, m - 1), ChildPath(own, nodes[m - 1].text);
    assert IncludeOk(files, dir, own, nodes[..m][m - 1], visiting);
    ChildIsIncluded(files, path, p, nodes[m - 1]);
    OkUpTo(files, dir, own, nodes, m, visiting);
    var front := IncludesHold(files, dir, path, i, m - 1, visiting, key);
    var below := FileHolds(files, dir, child, false, visiting, key);
    var a, b := ExpandIncludes(files, own, nodes[..m - 1], visiting), Expand(files, child, visiting);
    IncludedItems(files, path, key, p, child);
    HeldUnder(ItemsIn(files, path, key), p, ItemsIn(files, child, key), below, Of(b, key));
    PartsHold(ItemsIn(files, path, key), Place(i, 0), p, Place(i, m), front, Under(p, below), Of(a, key), Of(b, key));
    NextPrefix(nodes, m - 1);
    OfConcat(a, b, key);
    ways := front + Under(p, below);
  }

  lemma OkUpTo(files: Files, dir: string, own: string, nodes: seq<Node>, m: nat, visiting: set<string>)
    requires 0 < m <= |nodes| && AllIncludesOk(files, dir, own, nodes[..m], visiting)
    ensures AllIncludesOk(files, dir, own, nodes[..m - 1], visiting)
  {
    IncludesOkUpTo(files, dir, own, nodes, m - 1, visiting);
  }

  lemma ChildIsIncluded(files: Files, path: string, p: Place, node: Node)
    requires NodeAt(files, path, "include", p) == Some(node) && IsPathNode(node)
    ensures Included(files, path, p) == Some(ChildPath(KeyOf(path), node.text))
  {
    ChildPathIsClean(KeyOf(path), node.text);
  }

  lemma ChildPathIsClean(key: string, name: string)
    requires name != ""
    ensures ChildPath(key, name) == JoinPaths(Dir(key), name) == Clean(JoinPaths(Dir(key), name))
  {
    CleanIsIdempotent(if Dir(key) == "" then name else Dir(key) + "/" + name);
  }

  /** The items of one pair of a file. */
  lemma PairHolds(files: Files, dir: string, path: string, i: nat, isEntry: bool, visiting: set<string>, key: string)
      returns (ways: seq<Way>)
    requires IsListKey(key) && path in files && files[path].Document? && i < |files[path].pairs|
    requires PairOk(files, dir, KeyOf(path), files[path].pairs[i], isEntry, visiting)
    ensures PartHolds(ItemsIn(files, path, key), Place(i, 0), Place(i + 1, 0), ways,
                Of(ExpandPair(files, KeyOf(path), files[path].pairs[i], visiting), key))
    decreases KeysOf(files) - visiting, 4, 0
  {
    var pair, own := files[path].pairs[i], KeyOf(path);
    if pair.key == "include" {
      var nodes := pair.value.items;
      assert nodes[..|nodes|] == nodes;
      ways := IncludesHold(files, dir, path, i, |nodes|, visiting, key);
      RestIsEmpty(files, path, key, i, ways, Of(ExpandIncludes(files, own, nodes, visiting), key));
    } else if pair.key == key {
      var nodes := pair.value.items;
      assert nodes[..|nodes|] == nodes;
      ways := ListHolds(files, path, key, i, |nodes|);
      OfItems(key, nodes, key);
      RestIsEmpty(files, path, key, i, ways, nodes);
    } else {
      forall way | ItemAt(files, path, key, way).Some?
        ensures !BeginsIn(Place(i, 0), Place(i + 1, 0), way)
      {
        WayBegins(files, path, key, way);
      }
      NothingHeld<Node>(ItemsIn(files, path, key), Place(i, 0), Place(i + 1, 0));
      if pair.value.List? {
        OfItems(pair.key, pair.value.items, key);
      }
      ways := [];
    }
  }

  /** Nothing stands behind the last item of a pair. */
  lemma RestIsEmpty(files: Files, path: string, key: string, i: nat, ways: seq<Way>, nodes: seq<Node>)
    requires path in files && files[path].Document? && i < |files[path].pairs| && files[path].pairs[i].value.List?
    requires var n := |files[path].pairs[i].value.items|;
      PartHolds(ItemsIn(files, path, key), Place(i, 0), Place(i, n), ways, nodes)
    ensures PartHolds(ItemsIn(files, path, key), Place(i, 0), Place(i + 1, 0), ways, nodes)
  {
    var n := |files[path].pairs[i].value.items|;
    forall way | ItemAt(files, path, key, way).Some?
      ensures !BeginsIn(Place(i, n), Place(i + 1, 0), way)
    {
      WayBegins(files, path, key, way);
    }
    NothingHeld<Node>(ItemsIn(files, path, key), Place(i, n), Place(i + 1, 0));
    PartsHold(ItemsIn(files, path, key), Place(i, 0), Place(i, n), Place(i + 1, 0), ways, [], nodes, []);
    assert ways + [] == ways && nodes + [] == nodes;
  }

  lemma {:induction false} PairsHold(files: Files, dir: string, path: string, n: nat, isEntry: bool,
      visiting: set<string>, key: string) returns (ways: seq<Way>)
    requires IsListKey(key) && path in files && files[path].Document? && n <= |files[path].pairs|
    requires AllPairsOk(files, dir, KeyOf(path), files[path].pairs, isEntry, visiting)
    ensures PartHolds(ItemsIn(files, path, key), Place(0, 0), Place(n, 0), ways,
                Of(ExpandPairs(files, KeyOf(path), files[path].pairs[..n], visiting), key))
    decreases KeysOf(files) - visiting, 5, n
  {
    if n == 0 {
      NothingHeld<Node>(ItemsIn(files, path, key), Place(0, 0), Place(0, 0));
      return [];
    }
    var pairs, own := files[path].pairs, KeyOf(path);
    var front := PairsHold(files, dir, path, n - 1, isEntry, visiting, key);
    var back := PairHolds(files, dir, path, n - 1, isEntry, visiting, key);
    var a, b := ExpandPairs(files, own, pairs[..n - 1], visiting), ExpandPair(files, own, pairs[n - 1], visiting);
    PartsHold(ItemsIn(files, path, key), Place(0, 0), Place(n - 1, 0), Place(n, 0), front, back, Of(a, key),
              Of(b, key));
    NextPrefix(pairs, n - 1);
    OfConcat(a, b, key);
    ways := front + back;
  }

  /** The items that a file and all that it includes add to a list are those of the
      include tree, in the order of the document. */
  lemma {:induction false} FileHolds(files: Files, dir: string, path: string, isEntry: bool, visiting: set<string>,
      key: string) returns (ways: seq<Way>)
    requires IsListKey(key) && TreeOk(files, dir, path, isEntry, visiting)
    ensures Holds(ItemsIn(files, path, key), ways, Of(Expand(files, path, visiting), key))
    decreases KeysOf(files) - visiting, 2, 0
  {
    var own, n := KeyOf(path), |PairsOf(files, path)|;
    if files[path].Document? {
      assert own in KeysOf(files);
      ways := PairsHold(files, dir, path, n, isEntry, visiting + {own}, key);
      assert files[path].pairs[..n] == files[path].pairs;
    } else {
      NothingHeld<Node>(ItemsIn(files, path, key), Place(0, 0), Place(n, 0));
      ways := [];
    }
    forall way: Way | ItemAt(files, path, key, way).Some?
      ensures way != [] && way[0].pair < n
    {
      WayBegins(files, path, key, way);
    }
    AllHeld(ItemsIn(files, path, key), n, ways, Of(Expand(files, path, visiting), key));
  }

  // ---------------------------------------------------------------- the files are in order

  lemma {:induction false} IncludesName(files: Files, dir: string, path: string, i: nat, m: nat, visiting: set<string>)
      returns (ways: seq<Way>)
    requires path in files && files[path].Document? && i < |files[path].pairs|
    requires files[path].pairs[i].key == "include" && files[path].pairs[i].value.List?
    requires m <= |files[path].pairs[i].value.items|
    requires AllIncludesOk(files, dir, KeyOf(path), files[path].pairs[i].value.items[..m], visiting)
    ensures PartHolds(KeysIn(files, path), Place(i, 0), Place(i, m), ways,
                IncludeSources(files, KeyOf(path), files[path].pairs[i].value.items[..m], visiting))
    decreases KeysOf(files) - visiting, 3, m
  {
    if m == 0 {
      NothingHeld<string>(KeysIn(files, path), Place(i, 0), Place(i, 0));
      return [];
    }
    var nodes, own := files[path].pairs[i].value.items, KeyOf(path);
    var p, child := Place(i, m - 1), ChildPath(own, nodes[m - 1].text);
    assert IncludeOk(files, dir, own, nodes[..m][m - 1], visiting);
    ChildIsIncluded(files, path, p, nodes[m - 1]);
    OkUpTo(files, dir, own, nodes, m, visiting);
    var front := IncludesName(files, dir, path, i, m - 1, visiting);
    var below := FileNames(files, dir, child, false, visiting);
    var a, b := IncludeSources(files, own, nodes[..m - 1], visiting), Sources(files, child, visiting);
    IncludedFiles(files, path, p, child);
    HeldUnder(KeysIn(files, path), p, KeysIn(files, child), below, b);
    PartsHold(KeysIn(files, path), Place(i, 0), p, Place(i, m), front, Under(p, below), a, b);
    NextPrefix(nodes, m - 1);
    ways := front + Under(p, below);
  }

  lemma PairNames(files: Files, dir: string, path: string, i: nat, isEntry: bool, visiting: set<string>)
      returns (ways: seq<Way>)
    requires path in files && files[path].Document? && i < |files[path].pairs|
    requires PairOk(files, dir, KeyOf(path), files[path].pairs[i], isEntry, visiting)
    ensures PartHolds(KeysIn(files, path), Place(i, 0), Place(i + 1, 0), ways,
                SourcesOfPair(files, KeyOf(path), files[path].pairs[i], visiting))
    decreases KeysOf(files) - visiting, 4, 0
  {
    var pair, own := files[path].pairs[i], KeyOf(path);
    var n := if pair.key == "include" then |pair.value.items| else 0;
    forall way | FileAt(files, path, way).Some? && way != []
      ensures !BeginsIn(Place(i, n), Place(i + 1, 0), way)
    {
      FileWayBegins(files, path, way);
    }
    NothingHeld<string>(KeysIn(files, path), Place(i, n), Place(i + 1, 0));
    if pair.key == "include" {
      var nodes := pair.value.items;
      assert nodes[..n] == nodes;
      ways := IncludesName(files, dir, path, i, n, visiting);
      var keys := IncludeSources(files, own, nodes, visiting);
      PartsHold(KeysIn(files, path), Place(i, 0), Place(i, n), Place(i + 1, 0), ways, [], keys, []);
      assert ways + [] == ways && keys + [] == keys;
    } else {
      ways := [];
    }
  }

  lemma {:induction false} PairsName(files: Files, dir: string, path: string, n: nat, isEntry: bool,
      visiting: set<string>) returns (ways: seq<Way>)
    requires path in files && files[path].Document? && n <= |files[path].pairs|
    requires AllPairsOk(files, dir, KeyOf(path), files[path].pairs, isEntry, visiting)
    ensures PartHolds(KeysIn(files, path), Place(0, 0), Place(n, 0), ways,
                PairSources(files, KeyOf(path), files[path].pairs[..n], visiting))
    decreases KeysOf(files) - visiting, 5, n
  {
    if n == 0 {
      NothingHeld<string>(KeysIn(files, path), Place(0, 0), Place(0, 0));
      return [];
    }
    var pairs, own := files[path].pairs, KeyOf(path);
    var front := PairsName(files, dir, path, n - 1, isEntry, visiting);
    var back := PairNames(files, dir, path, n - 1, isEntry, visiting);
    var a := PairSources(files, own, pairs[..n - 1], visiting);
    PartsHold(KeysIn(files, path), Place(0, 0), Place(n - 1, 0), Place(n, 0), front, back, a,
              SourcesOfPair(files, own, pairs[n - 1], visiting));
    NextPrefix(pairs, n - 1);
    ways := front + back;
  }

  /** The files that are read are those of the include tree, in the order of the
      document. */
  lemma {:induction false} FileNames(files: Files, dir: string, path: string, isEntry: bool, visiting: set<string>)
      returns (ways: seq<Way>)
    requires TreeOk(files, dir, path, isEntry, visiting)
    ensures Holds(KeysIn(files, path), ways, Sources(files, path, visiting))
    decreases KeysOf(files) - visiting, 2, 0
  {
    var own, n := KeyOf(path), |PairsOf(files, path)|;
    ways := [];
    if files[path].Document? {
      assert own in KeysOf(files);
      ways := PairsName(files, dir, path, n, isEntry, visiting + {own});
      assert files[path].pairs[..n] == files[path].pairs;
      RootNamed(files, path, ways, PairSources(files, own, files[path].pairs, visiting + {own}));
    } else {
      NothingHeld<string>(KeysIn(files, path), Place(0, 0), Place(n, 0));
      RootNamed(files, path, [], []);
    }
    ways := [[]] + ways;
  }

  lemma RootNamed(files: Files, path: string, ways: seq<Way>, keys: seq<string>)
    requires PartHolds(KeysIn(files, path), Place(0, 0), Place(|PairsOf(files, path)|, 0), ways, keys)
    ensures Holds(KeysIn(files, path), [[]] + ways, [KeyOf(path)] + keys)
  {
    var n := |PairsOf(files, path)|;
    forall way: Way | KeysIn(files, path)(way).Some? && way != []
      ensures way[0].pair < n
    {
      FileWayBegins(files, path, way);
    }
    HeldBehindRoot(KeysIn(files, path), n, ways, keys, KeyOf(path));
  }

  // ---------------------------------------------------------------- settings

  lemma FirstsGrow(pairs: seq<Pair>, at: seq<nat>)
    requires pairs != [] && AreFirsts(pairs[..|pairs| - 1], at)
    ensures AreFirsts(pairs, if IsFirstOfKey(pairs, |pairs| - 1) then at + [|pairs| - 1] else at)
  {
    var n := |pairs| - 1;
    var init := pairs[..n];
    forall i: nat
      ensures IsFirstOfKey(pairs, i) <==> IsFirstOfKey(init, i) || (i == n && IsFirstOfKey(pairs, n))
    {
      assert i < n ==> init[i] == pairs[i];
      assert forall j | 0 <= j < i && i < n :: init[j] == pairs[j];
    }
    if IsFirstOfKey(pairs, n) {
      var more := at + [n];
      forall i: nat
        ensures i in more <==> IsFirstOfKey(pairs, i)
      {
        assert i in more <==> i in at || i == n;
      }
      forall k, l | 0 <= k < l < |more|
        ensures more[k] < more[l]
      {
        assert at[k] in at;
      }
    }
  }

  predicate AreKeysAt(pairs: seq<Pair>, at: seq<nat>, keys: seq<string>) {
    |at| == |keys| && forall k | 0 <= k < |at| :: at[k] < |pairs| && keys[k] == pairs[at[k]].key
  }

  lemma KeysAtGrow(pairs: seq<Pair>, at: seq<nat>, keys: seq<string>)
    requires pairs != [] && AreKeysAt(pairs[..|pairs| - 1], at, keys)
    ensures AreKeysAt(pairs, at, keys) && AreKeysAt(pairs, at + [|pairs| - 1], keys + [pairs[|pairs| - 1].key])
  {
  }

  /** The keys of the settings are in the order of their first occurrences. */
  lemma {:induction false} OrderIsOfFirsts(pairs: seq<Pair>) returns (at: seq<nat>)
    ensures AreFirsts(pairs, at) && AreKeysAt(pairs, at, AddSettings(NO_SETTINGS, pairs).order)
    decreases |pairs|
  {
    at := [];
    if pairs != [] {
      var n := |pairs| - 1;
      at := OrderIsOfFirsts(pairs[..n]);
      FirstsGrow(pairs, at);
      KeysAtGrow(pairs, at, AddSettings(NO_SETTINGS, pairs[..n]).order);
      NewKeyIff(pairs);
      if IsFirstOfKey(pairs, n) {
        at := at + [n];
      }
    }
  }

  lemma NewKeyIff(pairs: seq<Pair>)
    requires pairs != []
    ensures var last := pairs[|pairs| - 1];
      IsFirstOfKey(pairs, |pairs| - 1)
      <==> IsSetting(last) && last.key !in AddSettings(NO_SETTINGS, pairs[..|pairs| - 1]).values
  {
    var init, last := pairs[..|pairs| - 1], pairs[|pairs| - 1];
    SettingsAreConsistent(init);
    if IsSetting(last) {
      if i :| SetsAt(init, i, last.key) {
        assert pairs[i].key == last.key;
      }
      if j :| 0 <= j < |init| && pairs[j].key == last.key {
        assert SetsAt(init, j, last.key);
      }
    }
  }

  lemma SettingsMean(pairs: seq<Pair>)
    ensures var settings := AddSettings(NO_SETTINGS, pairs);
      && (forall key | key in settings.order :: key in settings.values)
      && AreSettings(pairs, SettingPairs(settings, settings.order))
  {
    var settings := AddSettings(NO_SETTINGS, pairs);
    OrderHasValues(pairs);
    SettingsAreConsistent(pairs);
    SettingPairsAreSettings(settings, settings.order);
    var list := SettingPairs(settings, settings.order);
    var at := OrderIsOfFirsts(pairs);
    forall k | 0 <= k < |at|
      ensures exists i: nat :: IsLastOfKey(pairs, i, list[k])
    {
      var key := settings.order[k];
      var i :| LastSetting(pairs, i, key, settings.values[key]);
      assert IsLastOfKey(pairs, i, list[k]);
    }
    assert AreSettingsAt(pairs, at, list);
  }

  // ---------------------------------------------------------------- names

  lemma {:induction false} FirstScalarIff(pairs: seq<Pair>, field: string, name: string)
    ensures FirstScalar(pairs, field) == name && name != ""
        ==> exists i: nat :: IsFirstScalar(pairs, field, i) && pairs[i].value.text == name
    ensures forall i: nat | IsFirstScalar(pairs, field, i) :: FirstScalar(pairs, field) == pairs[i].value.text
    decreases |pairs|
  {
    if pairs == [] {
    } else if pairs[0].key == field && pairs[0].value.Scalar? {
      assert IsFirstScalar(pairs, field, 0);
    } else {
      FirstScalarIff(pairs[1..], field, name);
      forall i: nat | IsFirstScalar(pairs, field, i)
        ensures FirstScalar(pairs, field) == pairs[i].value.text
      {
        FirstScalarNext(pairs, field, i - 1);
      }
      if i: nat :| IsFirstScalar(pairs[1..], field, i) && pairs[1..][i].value.text == name {
        FirstScalarNext(pairs, field, i);
        assert IsFirstScalar(pairs, field, i + 1);
      }
    }
  }

  lemma FirstScalarNext(pairs: seq<Pair>, field: string, i: nat)
    requires pairs != [] && !(pairs[0].key == field && pairs[0].value.Scalar?)
    ensures IsFirstScalar(pairs, field, i + 1) <==> IsFirstScalar(pairs[1..], field, i)
  {
    var rest := pairs[1..];
    forall j | 0 <= j < |rest|
      ensures rest[j] == pairs[j + 1]
    {
    }
    if IsFirstScalar(rest, field, i) {
      forall j | 0 <= j < i + 1 && pairs[j].key == field
        ensures !pairs[j].value.Scalar?
      {
        assert j > 0 ==> rest[j - 1] == pairs[j];
      }
    }
  }

  lemma NamedIff(key: string, node: Node, name: string)
    requires IsListKey(key) && name != ""
    ensures IsNamed(key, node, name) <==> NameOf(Item(key, node)) == name
  {
    if node.Mapping? {
      FirstScalarIff(node.pairs, if key == "tasks" then "id" else "name", name);
    }
  }

  ghost predicate NamesDiffer(key: string, nodes: seq<Node>) {
    forall i, j | 0 <= i < j < |nodes| && NameOf(Item(key, nodes[i])) != "" ::
      NameOf(Item(key, nodes[i])) != NameOf(Item(key, nodes[j]))
  }

  lemma {:induction false} InOf(items: seq<Item>, key: string, node: Node)
    ensures node in Of(items, key) <==> Item(key, node) in items
    decreases |items|
  {
    if items != [] {
      InOf(items[..|items| - 1], key, node);
      SplitLast(items);
    }
  }

  lemma NamesDifferGrows(key: string, nodes: seq<Node>, node: Node)
    ensures NamesDiffer(key, nodes + [node])
       <==> NamesDiffer(key, nodes)
            && (NameOf(Item(key, node)) == "" || !IsTaken(key, nodes, NameOf(Item(key, node))))
  {
    var more := nodes + [node];
    if NamesDiffer(key, more) {
      forall i, j | 0 <= i < j < |nodes| && NameOf(Item(key, nodes[i])) != ""
        ensures NameOf(Item(key, nodes[i])) != NameOf(Item(key, nodes[j]))
      {
        assert more[i] == nodes[i] && more[j] == nodes[j];
      }
      if other :| other in nodes && NameOf(Item(key, other)) == NameOf(Item(key, node)) {
        var i :| 0 <= i < |nodes| && nodes[i] == other;
        assert more[i] == other && more[|nodes|] == node;
      }
    }
  }

  ghost predicate IsTaken(key: string, nodes: seq<Node>, name: string) {
    exists other :: other in nodes && NameOf(Item(key, other)) == name
  }

  lemma TakenIff(items: seq<Item>, key: string, name: string)
    requires name != ""
    ensures (key, name) in Taken(items) <==> IsTaken(key, Of(items, key), name)
  {
    forall node
      ensures node in Of(items, key) <==> Item(key, node) in items
    {
      InOf(items, key, node);
    }
  }

  ghost predicate AllNamesDiffer(items: seq<Item>) {
    forall key :: NamesDiffer(key, Of(items, key))
  }

  lemma {:induction false} NoCollisionIff(items: seq<Item>)
    ensures NoCollision(items) <==> AllNamesDiffer(items)
    decreases |items|
  {
    if items == [] {
      assert forall key :: Of(items, key) == [];
    } else {
      var init, last := items[..|items| - 1], items[|items| - 1];
      SplitLast(items);
      NoCollisionIff(init);
      var name := NameOf(last);
      NamesDifferGrows(last.list, Of(init, last.list), last.node);
      assert Of(items, last.list) == Of(init, last.list) + [last.node];
      assert forall key | key != last.list :: Of(items, key) == Of(init, key);
      if NoCollision(items) {
        PrefixHasNoCollision(init, [last]);
      }
      if NoCollision(init) {
        OneMoreItem(init, last);
        if name != "" {
          TakenIff(init, last.list, name);
        }
      }
    }
  }

  lemma PlaceOfWay(files: Files, entry: string, key: string, ways: seq<Way>, nodes: seq<Node>, a: Way, name: string)
      returns (i: nat)
    requires IsListKey(key) && Holds(ItemsIn(files, entry, key), ways, nodes)
    requires name != "" && IsNamedAt(files, entry, key, a, name)
    ensures i < |ways| == |nodes| && ways[i] == a && NameOf(Item(key, nodes[i])) == name
  {
    assert a in Defined(ItemsIn(files, entry, key));
    i :| 0 <= i < |ways| && ways[i] == a;
    NamedIff(key, nodes[i], name);
  }

  lemma NamedAtPlace(files: Files, entry: string, key: string, ways: seq<Way>, nodes: seq<Node>, i: nat)
    requires IsListKey(key) && Holds(ItemsIn(files, entry, key), ways, nodes)
    requires i < |nodes| && NameOf(Item(key, nodes[i])) != ""
    ensures IsNamedAt(files, entry, key, ways[i], NameOf(Item(key, nodes[i])))
  {
    assert ItemsIn(files, entry, key)(ways[i]) == Some(nodes[i]);
    NamedIff(key, nodes[i], NameOf(Item(key, nodes[i])));
  }

  lemma DifferentNames(files: Files, entry: string, key: string, ways: seq<Way>, nodes: seq<Node>, i: nat, j: nat)
    requires IsListKey(key) && Holds(ItemsIn(files, entry, key), ways, nodes) && HasDistinctNames(files, entry, key)
    requires i < j < |nodes| && NameOf(Item(key, nodes[i])) != ""
    ensures NameOf(Item(key, nodes[i])) != NameOf(Item(key, nodes[j]))
  {
    BeforeIsStrict(ways[i], ways[j]);
    if NameOf(Item(key, nodes[i])) == NameOf(Item(key, nodes[j])) {
      NamedAtPlace(files, entry, key, ways, nodes, i);
      NamedAtPlace(files, entry, key, ways, nodes, j);
    }
  }

  /** No name is taken twice exactly if no two items of a list merge with one name. */
  lemma NamesDifferIff(files: Files, entry: string, key: string, ways: seq<Way>, nodes: seq<Node>)
    requires IsListKey(key) && Holds(ItemsIn(files, entry, key), ways, nodes)
    ensures NamesDiffer(key, nodes) <==> HasDistinctNames(files, entry, key)
  {
    if NamesDiffer(key, nodes) {
      forall a, b, name | name != "" && IsNamedAt(files, entry, key, a, name) && IsNamedAt(files, entry, key, b, name)
        ensures a == b
      {
        var i := PlaceOfWay(files, entry, key, ways, nodes, a, name);
        var j := PlaceOfWay(files, entry, key, ways, nodes, b, name);
      }
    }
    if HasDistinctNames(files, entry, key) {
      forall i, j | 0 <= i < j < |nodes| && NameOf(Item(key, nodes[i])) != ""
        ensures NameOf(Item(key, nodes[i])) != NameOf(Item(key, nodes[j]))
      {
        DifferentNames(files, entry, key, ways, nodes, i, j);
      }
    }
  }

  // ---------------------------------------------------------------- sound chains

  lemma IncludedIff(files: Files, path: string, child: string)
    ensures Includes(files, path, child) <==> NamesInInclude(files, path, child)
  {
    if Includes(files, path, child) {
      var pairs := files[path].pairs;
      var i, j :| 0 <= i < |pairs| && IncludesAt(pairs[i], KeyOf(path), j, child);
      ChildIsIncluded(files, path, Place(i, j), pairs[i].value.items[j]);
    }
    if p :| Included(files, path, p) == Some(child) {
      ChildIsIncluded(files, path, p, NodeAt(files, path, "include", p).value);
      assert IncludesAt(files[path].pairs[p.pair], KeyOf(path), p.item, child);
    }
  }

  lemma ChainIff(files: Files, chain: seq<string>)
    ensures IsIncludeChain(files, chain) <==> IsChain(files, chain)
  {
    forall i | 0 <= i < |chain| - 1
      ensures Includes(files, chain[i], chain[i + 1]) <==> NamesInInclude(files, chain[i], chain[i + 1])
    {
      IncludedIff(files, chain[i], chain[i + 1]);
    }
  }

  lemma SoundFileIff(files: Files, path: string, isEntry: bool)
    ensures IsSoundFile(files, path, isEntry) <==> GoodFile(files, path, isEntry)
  {
    forall pair
      ensures IsSoundPair(pair, isEntry) <==> GoodPair(pair, isEntry)
    {
      SoundPairIff(pair, isEntry);
    }
  }

  lemma SoundPairIff(pair: Pair, isEntry: bool)
    ensures IsSoundPair(pair, isEntry) <==> GoodPair(pair, isEntry)
  {
    assert pair.key == "include" && pair.value.List? && GoodPair(pair, isEntry)
        ==> forall node | node in pair.value.items :: IsPathNode(node);
  }

  lemma SoundChainIff(files: Files, dir: string, chain: seq<string>)
    ensures IsSoundChain(files, dir, chain) <==> SoundChain(files, dir, chain, true, {})
  {
    forall i | 0 <= i < |chain|
      ensures IsSoundFile(files, chain[i], i == 0) <==> GoodFile(files, chain[i], i == 0)
      ensures IsInDir(dir, chain[i]) <==> WithinDir(dir, chain[i])
    {
      SoundFileIff(files, chain[i], i == 0);
    }
  }

  lemma ChainsSoundIff(files: Files, entry: string)
    ensures TreeOk(files, Dir(Clean(ToSlash(entry))), entry, true, {}) <==> HasSoundChains(files, entry)
  {
    var dir := Dir(Clean(ToSlash(entry)));
    var none: set<string> := {};
    TreeOkIffChainsSound(files, dir, entry);
    forall chain
      ensures IsIncludeChain(files, chain) <==> IsChain(files, chain)
      ensures IsSoundChain(files, dir, chain) <==> SoundChain(files, dir, chain, true, none)
    {
      ChainIff(files, chain);
      SoundChainIff(files, dir, chain);
    }
  }

  // ---------------------------------------------------------------- the whole

  /** No result, the entry file as it is, or a merged document and the files it was
      merged from. */
  datatype Flattened = Failed | Untouched | Merged(pairs: seq<Pair>, sources: seq<string>)

  /** The items that the files contribute to a list. */
  function Expanded(files: Files, entry: string, key: string): seq<Node> {
    Of(Expand(files, entry, {}), key)
  }

  lemma NamesDistinctIff(files: Files, dir: string, entry: string, key: string)
    requires IsListKey(key) && TreeOk(files, dir, entry, true, {})
    ensures NamesDiffer(key, Expanded(files, entry, key)) <==> HasDistinctNames(files, entry, key)
    ensures HoldsItems(files, entry, key, Expanded(files, entry, key))
  {
    var ways := FileHolds(files, dir, entry, true, {}, key);
    NamesDifferIff(files, entry, key, ways, Expanded(files, entry, key));
  }

  lemma NoCollisionIffExpanded(files: Files, entry: string)
    ensures NoCollision(Expand(files, entry, {}))
       <==> forall key | IsListKey(key) :: NamesDiffer(key, Expanded(files, entry, key))
  {
    var items := Expand(files, entry, {});
    NoCollisionIff(items);
    forall key
      ensures Expanded(files, entry, key) == Of(items, key)
      ensures !IsListKey(key) ==> NamesDiffer(key, Of(items, key))
    {
    }
  }

  lemma DistinctNamesIff(files: Files, dir: string, entry: string)
    requires TreeOk(files, dir, entry, true, {})
    ensures NoCollision(Expand(files, entry, {})) <==> HasNoNameTwice(files, entry)
  {
    NoCollisionIffExpanded(files, entry);
    forall key | IsListKey(key)
      ensures NamesDiffer(key, Expanded(files, entry, key)) <==> HasDistinctNames(files, entry, key)
    {
      NamesDistinctIff(files, dir, entry, key);
    }
  }

  lemma CanMergeIff(files: Files, entry: string)
    ensures CanMerge(files, entry)
       <==> TreeOk(files, Dir(KeyOf(entry)), entry, true, {}) && NoCollision(Expand(files, entry, {}))
  {
    ChainsSoundIff(files, entry);
    if TreeOk(files, Dir(KeyOf(entry)), entry, true, {}) {
      DistinctNamesIff(files, Dir(KeyOf(entry)), entry);
    }
  }

  lemma MarshalIsInSections(settings: Settings, items: seq<Item>)
    requires forall key | key in settings.order :: key in settings.values
    ensures Marshal(settings, items)
         == InSections(SettingPairs(settings, settings.order), Of(items, "params"), Of(items, "agents"),
                       Of(items, "tasks"))
  {
  }

  lemma MergedMeans(files: Files, entry: string)
    requires TreeOk(files, Dir(KeyOf(entry)), entry, true, {})
    ensures var settings := AddSettings(NO_SETTINGS, PairsOf(files, entry));
      && (forall key | key in settings.order :: key in settings.values)
      && IsMerged(files, entry, Marshal(settings, Expand(files, entry, {})))
    ensures NamesFiles(files, entry, Sources(files, entry, {}))
  {
    var dir := Dir(KeyOf(entry));
    var ways := FileNames(files, dir, entry, true, {});
    NamesDistinctIff(files, dir, entry, "params");
    NamesDistinctIff(files, dir, entry, "agents");
    NamesDistinctIff(files, dir, entry, "tasks");
    SettingsMean(PairsOf(files, entry));
    var settings := AddSettings(NO_SETTINGS, PairsOf(files, entry));
    MarshalIsInSections(settings, Expand(files, entry, {}));
    SectionsMerge(files, entry, SettingPairs(settings, settings.order), Expanded(files, entry, "params"),
                  Expanded(files, entry, "agents"), Expanded(files, entry, "tasks"));
  }

  lemma SectionsMerge(files: Files, entry: string, settings: seq<Pair>, params: seq<Node>, agents: seq<Node>,
                      tasks: seq<Node>)
    requires AreSettings(PairsOf(files, entry), settings)
    requires HoldsItems(files, entry, "params", params) && HoldsItems(files, entry, "agents", agents)
    requires HoldsItems(files, entry, "tasks", tasks)
    ensures IsMerged(files, entry, InSections(settings, params, agents, tasks))
  {
  }

  /** A list is in the merged document exactly if some file of the include tree has an
      item for it. */
  lemma HasListIff(files: Files, entry: string, pairs: seq<Pair>, key: string)
    requires IsMerged(files, entry, pairs) && (key == "params" || key == "agents" || key == "tasks")
    ensures (exists p :: p in pairs && p.key == key) <==> Defined(ItemsIn(files, entry, key)) != iset{}
    ensures forall p | p in pairs && p.key == key :: p.value.List? && HoldsItems(files, entry, key, p.value.items)
  {
    var settings, params, agents, tasks :|
      && AreSettings(PairsOf(files, entry), settings)
      && HoldsItems(files, entry, "params", params) && HoldsItems(files, entry, "agents", agents)
      && HoldsItems(files, entry, "tasks", tasks)
      && pairs == InSections(settings, params, agents, tasks);
    SettingsAreOrdinary(PairsOf(files, entry), settings);
    var nodes := if key == "params" then params else if key == "agents" then agents else tasks;
    HeldIff(files, entry, key, nodes);
    SectionIff(settings, params, agents, tasks, key, nodes);
  }

  lemma SectionIff(settings: seq<Pair>, params: seq<Node>, agents: seq<Node>, tasks: seq<Node>, key: string,
                   nodes: seq<Node>)
    requires forall p | p in settings :: IsOrdinary(p.key)
    requires IsListKey(key) && nodes == if key == "params" then params else if key == "agents" then agents else tasks
    ensures forall p: Pair | p.key == key ::
          p in InSections(settings, params, agents, tasks) <==> nodes != [] && p == Pair(key, List(nodes))
  {
  }

  lemma SettingsAreOrdinary(pairs: seq<Pair>, settings: seq<Pair>)
    requires AreSettings(pairs, settings)
    ensures forall p | p in settings :: IsOrdinary(p.key)
  {
    var at: seq<nat> :| AreFirsts(pairs, at) && AreSettingsAt(pairs, at, settings);
    forall k | 0 <= k < |settings|
      ensures IsOrdinary(settings[k].key)
    {
      assert at[k] in at;
    }
  }

  lemma HeldIff(files: Files, entry: string, key: string, nodes: seq<Node>)
    requires HoldsItems(files, entry, key, nodes)
    ensures nodes == [] <==> Defined(ItemsIn(files, entry, key)) == iset{}
  {
    var ways :| Holds(ItemsIn(files, entry, key), ways, nodes);
    ListedIsEmptyIff(Defined(ItemsIn(files, entry, key)), ways);
  }

  ghost predicate HasIncludeKey(files: Files, entry: string) {
    exists i | 0 <= i < |PairsOf(files, entry)| :: PairsOf(files, entry)[i].key == "include"
  }

  /** Whether a workflow can be flattened. */
  ghost predicate CanFlatten(files: Files, entry: string) {
    && entry in files && !files[entry].Unparsable?
    && (HasInclude(PairsOf(files, entry)) ==>
          && TreeOk(files, Dir(KeyOf(entry)), entry, true, {})
          && NoCollision(Expand(files, entry, {})))
  }

  /** Flattens a workflow: it fails exactly if a file of it cannot be merged or a name
      occurs twice, leaves an entry without includes untouched, and otherwise yields
      the settings of the entry and the items of all files. */
  method FlattenIncludes(files: Files, entry: string) returns (r: Flattened)
    ensures r.Failed?
       <==> || entry !in files || files[entry] == Unparsable
            || (HasIncludeKey(files, entry) && !CanMerge(files, entry))
    ensures r.Untouched? <==> entry in files && files[entry] != Unparsable && !HasIncludeKey(files, entry)
    ensures r.Merged? ==> IsMerged(files, entry, r.pairs) && NamesFiles(files, entry, r.sources)
    ensures r.Failed? <==> !CanFlatten(files, entry)
    ensures r.Untouched? <==> CanFlatten(files, entry) && !HasInclude(PairsOf(files, entry))
    ensures r.Merged? ==>
      var settings := AddSettings(NO_SETTINGS, PairsOf(files, entry));
      && (forall key | key in settings.order :: key in settings.values)
      && r.pairs == Marshal(settings, Expand(files, entry, {}))
      && r.sources == Sources(files, entry, {})
  {
    CanMergeIff(files, entry);
    if entry !in files || files[entry].Unparsable? {
      return Failed;
    }
    var pairs := PairsOf(files, entry);
    if !HasInclude(pairs) {
      return Untouched;
    }
    var acc := new IncludeAcc(files, Dir(KeyOf(entry)));
    var ok := acc.MergeFile(entry, true);
    assert [] + Expand(files, entry, {}) == Expand(files, entry, {});
    if !ok {
      return Failed;
    }
    assert [] + Sources(files, entry, {}) == Sources(files, entry, {});
    OrderHasValues(pairs);
    var merged := acc.MarshalAll();
    MergedMeans(files, entry);
    r := Merged(merged, acc.sources);
  }
}
