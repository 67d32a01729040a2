/** Flattening a workflow: an entry file and all the fragments it includes, merged into
    one document. Files are parsed trees. */
module Include {
  import opened Graphs
  import opened SlashPath
  import Text

  /** A node of a parsed file. */
  datatype Node = Scalar(text: string) | List(items: seq<Node>) | Mapping(pairs: seq<Pair>) | Other

  datatype Pair = Pair(key: string, value: Node)

  /** What reading and parsing a file gives. */
  datatype File = Unparsable | Empty | Document(pairs: seq<Pair>)

  /** The files that can be read, by path. */
  type Files = map<string, File>

  const INCLUDE := "include"

  /** The lists that a fragment may contribute to, with the field that names an item. */
  const MERGE_KEYS: map<string, string> := map["tasks" := "id", "params" := "name", "agents" := "name"]

  /** The normal form of a path, by which cycles are detected. */
  function KeyOf(path: string): string {
    Clean(ToSlash(path))
  }

  /** The path that an include in a file names. */
  function ChildPath(key: string, name: string): string {
    Clean(JoinPaths(Dir(key), name))
  }

  /** An include is followed from the directory of the file that it stands in. */
  lemma ChildIsRelative(p: Path, name: string)
    requires Valid(p) && name != ""
    ensures ChildPath(Show(p), name) == Show(FollowAll(Parent(p), Text.Split(name, '/')))
  {
    DirIsParent(p);
    assert Valid(Parent(p));
    JoinFollows(Parent(p), name);
    CleanIsIdempotent(Show(Parent(p)) + "/" + name);
    ShownIsNotEmpty(Parent(p));
  }

  predicate IsPathNode(node: Node) {
    node.Scalar? && node.text != ""
  }

  /** The value of a field of an item, if it is a scalar; else nothing. */
  function ScalarChild(item: Node, field: string): string {
    if item.Mapping? then FirstScalar(item.pairs, field) else ""
  }

  function FirstScalar(pairs: seq<Pair>, field: string): string
    decreases |pairs|
  {
    if pairs == [] then ""
    else if pairs[0].key == field && pairs[0].value.Scalar? then pairs[0].value.text
    else FirstScalar(pairs[1..], field)
  }

  function KeysOf(files: Files): set<string> {
    set path | path in files :: KeyOf(path)
  }

  // ---------------------------------------------------------------- what is well formed

  /** A file, and all that it includes, can be merged: each file can be read and
      parsed and has only what may be in it, no file is included from itself, and
      every included path lies in the directory. */
  predicate TreeOk(files: Files, dir: string, path: string, isEntry: bool, visiting: set<string>)
    decreases KeysOf(files) - visiting, 2, 0
  {
    var key := KeyOf(path);
    && key !in visiting && path in files && !files[path].Unparsable?
    && (files[path].Document? ==>
          assert key in KeysOf(files);
          forall i | 0 <= i < |files[path].pairs| ::
            PairOk(files, dir, key, files[path].pairs[i], isEntry, visiting + {key}))
  }

  predicate PairOk(files: Files, dir: string, key: string, pair: Pair, isEntry: bool, visiting: set<string>)
    decreases KeysOf(files) - visiting, 4, 0
  {
    if pair.key == INCLUDE then
      pair.value.List? &&
      forall i | 0 <= i < |pair.value.items| :: IncludeOk(files, dir, key, pair.value.items[i], visiting)
    else if pair.key in MERGE_KEYS then pair.value.List?
    else isEntry
  }

  predicate IncludeOk(files: Files, dir: string, key: string, node: Node, visiting: set<string>)
    decreases KeysOf(files) - visiting, 3, 0
  {
    && IsPathNode(node) && WithinDir(dir, ChildPath(key, node.text))
    && TreeOk(files, dir, ChildPath(key, node.text), false, visiting)
  }

  // ---------------------------------------------------------------- the expansion

  /** An item of one of the merged lists. */
  datatype Item = Item(list: string, node: Node)

  function ItemsOf(list: string, nodes: seq<Node>): seq<Item> {
    if nodes == [] then []
    else ItemsOf(list, nodes[..|nodes| - 1]) + [Item(list, nodes[|nodes| - 1])]
  }

  /** The items of a file with those of the files that it includes, each in the place
      of its include. */
  function Expand(files: Files, path: string, visiting: set<string>): seq<Item>
    decreases KeysOf(files) - visiting, 2, 0
  {
    var key := KeyOf(path);
    if key in visiting || path !in files || !files[path].Document? then []
    else
      assert key in KeysOf(files);
      ExpandPairs(files, key, files[path].pairs, visiting + {key})
  }

  function ExpandPairs(files: Files, key: string, pairs: seq<Pair>, visiting: set<string>): seq<Item>
    decreases KeysOf(files) - visiting, 5, |pairs|
  {
    if pairs == [] then []
    else
      ExpandPairs(files, key, pairs[..|pairs| - 1], visiting)
      + ExpandPair(files, key, pairs[|pairs| - 1], visiting)
  }

  function ExpandPair(files: Files, key: string, pair: Pair, visiting: set<string>): seq<Item>
    decreases KeysOf(files) - visiting, 4, 0
  {
    if !pair.value.List? then []
    else if pair.key == INCLUDE then ExpandIncludes(files, key, pair.value.items, visiting)
    else if pair.key in MERGE_KEYS then ItemsOf(pair.key, pair.value.items)
    else []
  }

  function ExpandIncludes(files: Files, key: string, nodes: seq<Node>, visiting: set<string>): seq<Item>
    decreases KeysOf(files) - visiting, 3, |nodes|
  {
    if nodes == [] then []
    else
      var last := nodes[|nodes| - 1];
      ExpandIncludes(files, key, nodes[..|nodes| - 1], visiting)
      + if IsPathNode(last) then Expand(files, ChildPath(key, last.text), visiting) else []
  }

  /** The files in the order in which they are read. */
  function Sources(files: Files, path: string, visiting: set<string>): seq<string>
    decreases KeysOf(files) - visiting, 2, 0
  {
    var key := KeyOf(path);
    if key in visiting || path !in files || !files[path].Document? then [key]
    else
      assert key in KeysOf(files);
      [key] + PairSources(files, key, files[path].pairs, visiting + {key})
  }

  function PairSources(files: Files, key: string, pairs: seq<Pair>, visiting: set<string>): seq<string>
    decreases KeysOf(files) - visiting, 4, |pairs|
  {
    if pairs == [] then []
    else
      var last := pairs[|pairs| - 1];
      PairSources(files, key, pairs[..|pairs| - 1], visiting)
      + if last.key == INCLUDE && last.value.List? then IncludeSources(files, key, last.value.items, visiting) else []
  }

  function IncludeSources(files: Files, key: string, nodes: seq<Node>, visiting: set<string>): seq<string>
    decreases KeysOf(files) - visiting, 3, |nodes|
  {
    if nodes == [] then []
    else
      var last := nodes[|nodes| - 1];
      IncludeSources(files, key, nodes[..|nodes| - 1], visiting)
      + if IsPathNode(last) then Sources(files, ChildPath(key, last.text), visiting) else []
  }

  // ---------------------------------------------------------------- collisions

  /** The name under which an item may occur once, or nothing. */
  function NameOf(item: Item): string {
    if item.list in MERGE_KEYS then ScalarChild(item.node, MERGE_KEYS[item.list]) else ""
  }

  /** No two items of a list have the same name. */
  ghost predicate NoCollision(items: seq<Item>) {
    forall i, j | 0 <= i < j < |items| && items[i].list == items[j].list && NameOf(items[i]) != "" ::
      NameOf(items[i]) != NameOf(items[j])
  }

  /** The nodes of one list among items. */
  function Of(items: seq<Item>, list: string): seq<Node> {
    if items == [] then []
    else
      var rest := Of(items[..|items| - 1], list);
      if items[|items| - 1].list == list then rest + [items[|items| - 1].node] else rest
  }

  /** The names taken, with their lists. */
  ghost function Taken(items: seq<Item>): set<(string, string)> {
    set item | item in items && NameOf(item) != "" :: (item.list, NameOf(item))
  }

  lemma PrefixHasNoCollision(items: seq<Item>, more: seq<Item>)
    requires NoCollision(items + more)
    ensures NoCollision(items)
  {
    forall i, j | 0 <= i < j < |items| && items[i].list == items[j].list && NameOf(items[i]) != ""
      ensures NameOf(items[i]) != NameOf(items[j])
    {
      assert (items + more)[i] == items[i] && (items + more)[j] == items[j];
    }
  }

  /** One more item collides exactly if its name is taken. */
  lemma OneMoreItem(items: seq<Item>, item: Item)
    requires NoCollision(items)
    ensures NoCollision(items + [item]) <==> NameOf(item) == "" || (item.list, NameOf(item)) !in Taken(items)
    ensures Taken(items + [item]) == Taken(items) + if NameOf(item) == "" then {} else {(item.list, NameOf(item))}
  {
    var more := items + [item];
    if NameOf(item) != "" && (item.list, NameOf(item)) in Taken(items) {
      var other :| other in items && other.list == item.list && NameOf(other) == NameOf(item);
      var i :| 0 <= i < |items| && items[i] == other;
      assert more[i] == other && more[|items|] == item;
    }
    assert forall x :: x in more <==> x in items || x == item;
    if !NoCollision(more) {
      var i, j :| 0 <= i < j < |more| && more[i].list == more[j].list && NameOf(more[i]) != ""
        && NameOf(more[i]) == NameOf(more[j]);
      assert more[i] in items;
    }
  }

  /** A collision in a front part is a collision. */
  lemma CollisionStays(front: seq<Item>, more: seq<Item>, all: seq<Item>)
    requires !NoCollision(front) && all == front + more
    ensures !NoCollision(all)
  {
    if NoCollision(all) {
      PrefixHasNoCollision(front, more);
    }
  }

  // ---------------------------------------------------------------- entry settings

  /** The settings of the entry file in the order in which their keys first occur,
      each with its last value. */
  datatype Settings = Settings(order: seq<string>, values: map<string, Node>)

  const NO_SETTINGS := Settings([], map[])

  predicate IsSetting(pair: Pair) {
    pair.key != INCLUDE && pair.key !in MERGE_KEYS
  }

  function AddSetting(settings: Settings, pair: Pair): Settings {
    if !IsSetting(pair) then settings
    else
      Settings(if pair.key in settings.values then settings.order else settings.order + [pair.key],
               settings.values[pair.key := pair.value])
  }

  function AddSettings(settings: Settings, pairs: seq<Pair>): Settings {
    if pairs == [] then settings
    else AddSetting(AddSettings(settings, pairs[..|pairs| - 1]), pairs[|pairs| - 1])
  }

  // ---------------------------------------------------------------- prefixes

  lemma {:induction false} ItemsPrefix(list: string, nodes: seq<Node>, i: nat)
    requires i <= |nodes|
    ensures ItemsOf(list, nodes[..i]) <= ItemsOf(list, nodes)
    decreases |nodes|
  {
    if i < |nodes| {
      ItemsPrefix(list, nodes[..|nodes| - 1], i);
      assert nodes[..|nodes| - 1][..i] == nodes[..i];
    } else {
      assert nodes[..i] == nodes;
    }
  }

  lemma {:induction false} PairsPrefix(files: Files, key: string, pairs: seq<Pair>, i: nat, visiting: set<string>)
    requires i <= |pairs|
    ensures ExpandPairs(files, key, pairs[..i], visiting) <= ExpandPairs(files, key, pairs, visiting)
    decreases |pairs|
  {
    if i < |pairs| {
      PairsPrefix(files, key, pairs[..|pairs| - 1], i, visiting);
      assert pairs[..|pairs| - 1][..i] == pairs[..i];
    } else {
      assert pairs[..i] == pairs;
    }
  }

  lemma {:induction false} IncludesPrefix(files: Files, key: string, nodes: seq<Node>, i: nat, visiting: set<string>)
    requires i <= |nodes|
    ensures ExpandIncludes(files, key, nodes[..i], visiting) <= ExpandIncludes(files, key, nodes, visiting)
    decreases |nodes|
  {
    if i < |nodes| {
      IncludesPrefix(files, key, nodes[..|nodes| - 1], i, visiting);
      assert nodes[..|nodes| - 1][..i] == nodes[..i];
    } else {
      assert nodes[..i] == nodes;
    }
  }

  /** A collision among items and a first part of further items. */
  lemma CollisionInPart(items: seq<Item>, part: seq<Item>, whole: seq<Item>)
    requires part <= whole && !NoCollision(items + part)
    ensures !NoCollision(items + whole)
  {
    assert items + whole == items + part + whole[|part|..];
    CollisionStays(items + part, whole[|part|..], items + whole);
  }

  // ---------------------------------------------------------------- the accumulator

  function Get(lists: map<string, seq<Node>>, list: string): seq<Node> {
    if list in lists then lists[list] else []
  }

  class IncludeAcc {
    const files: Files
    const dir: string
    var lists: map<string, seq<Node>>
    var owner: map<(string, string), string>
    var settings: Settings
    var visiting: set<string>
    var sources: seq<string>
    ghost var items: seq<Item>

    /** The lists and the names taken are those of the items merged so far. */
    ghost predicate Valid()
      reads this
    {
      && NoCollision(items) && owner.Keys == Taken(items)
      && forall list {:trigger Of(items, list)} :: Get(lists, list) == Of(items, list)
    }

    constructor (files: Files, dir: string)
      ensures this.files == files && this.dir == dir
      ensures Valid() && items == [] && settings == NO_SETTINGS && visiting == {} && sources == []
    {
      this.files, this.dir := files, dir;
      lists, owner, settings, visiting, sources := map[], map[], NO_SETTINGS, {}, [];
      items := [];
    }

    /** Appends one item to a list, unless its name is taken. */
    method AddItem(key: string, list: string, node: Node) returns (ok: bool)
      requires Valid() && list in MERGE_KEYS
      modifies this`lists, this`owner, this`items
      ensures ok <==> NoCollision(old(items) + [Item(list, node)])
      ensures ok ==> Valid() && items == old(items) + [Item(list, node)]
    {
      OneMoreItem(items, Item(list, node));
      OfOneMore(items, Item(list, node));
      var name := ScalarChild(node, MERGE_KEYS[list]);
      if name != "" {
        if (list, name) in owner {
          return false;
        }
        owner := owner[(list, name) := key];
      }
      lists := lists[list := Get(lists, list) + [node]];
      items := items + [Item(list, node)];
      ok := true;
    }

    /** Appends the items of one list of a file; false at the first whose name is
        taken. */
    method MergeItems(key: string, list: string, nodes: seq<Node>) returns (ok: bool)
      requires Valid() && list in MERGE_KEYS
      modifies this`lists, this`owner, this`items
      ensures ok <==> NoCollision(old(items) + ItemsOf(list, nodes))
      ensures ok ==> Valid() && items == old(items) + ItemsOf(list, nodes)
    {
      ghost var start := items;
      for i := 0 to |nodes|
        invariant Valid() && items == start + ItemsOf(list, nodes[..i])
      {
        OneMoreOf(start, list, nodes, i);
        ok := AddItem(key, list, nodes[i]);
        if !ok {
          ItemsPrefix(list, nodes, i + 1);
          CollisionInPart(start, ItemsOf(list, nodes[..i + 1]), ItemsOf(list, nodes));
          return;
        }
      }
      assert nodes[..|nodes|] == nodes;
      ok := true;
    }

    /** Merges the included files of one include list. */
    method MergeIncludes(key: string, nodes: seq<Node>) returns (ok: bool)
      requires Valid()
      modifies this
      ensures visiting == old(visiting)
      ensures ok <==> AllIncludesOk(files, dir, key, nodes, visiting)
                      && NoCollision(old(items) + ExpandIncludes(files, key, nodes, visiting))
      ensures ok ==> Valid() && items == old(items) + ExpandIncludes(files, key, nodes, visiting)
                     && sources == old(sources) + IncludeSources(files, key, nodes, visiting)
                     && settings == old(settings)
      decreases KeysOf(files) - visiting, 3, 0
    {
      ghost var start, startSources := items, sources;
      for i := 0 to |nodes|
        invariant Valid() && visiting == old(visiting) && settings == old(settings)
        invariant items == start + ExpandIncludes(files, key, nodes[..i], visiting)
        invariant sources == startSources + IncludeSources(files, key, nodes[..i], visiting)
        invariant AllIncludesOk(files, dir, key, nodes[..i], visiting)
      {
        IncludesOkUpTo(files, dir, key, nodes, i, visiting);
        if !nodes[i].Scalar? || nodes[i].text == "" {
          return false;
        }
        var child := ChildPath(key, nodes[i].text);
        if !WithinDir(dir, child) {
          return false;
        }
        OneMoreInclude(files, key, nodes, i, visiting, start, startSources);
        ok := MergeFile(child, false);
        if !ok {
          IncludeFails(files, key, nodes, i, visiting, start);
          return;
        }
      }
      assert nodes[..|nodes|] == nodes;
      ok := true;
    }

    /** Merges one key of a file. */
    method MergePair(key: string, pair: Pair, isEntry: bool) returns (ok: bool)
      requires Valid()
      modifies this
      ensures visiting == old(visiting)
      ensures ok <==> PairOk(files, dir, key, pair, isEntry, visiting)
                      && NoCollision(old(items) + ExpandPair(files, key, pair, visiting))
      ensures ok ==> Valid() && items == old(items) + ExpandPair(files, key, pair, visiting)
                     && sources == old(sources) + SourcesOfPair(files, key, pair, visiting)
                     && settings == AddSetting(old(settings), pair)
      decreases KeysOf(files) - visiting, 4, 0
    {
      if pair.key == INCLUDE {
        if !pair.value.List? {
          return false;
        }
        ok := MergeIncludes(key, pair.value.items);
      } else if pair.key in MERGE_KEYS {
        if !pair.value.List? {
          return false;
        }
        ok := MergeItems(key, pair.key, pair.value.items);
        assert sources + [] == sources;
      } else {
        if !isEntry {
          return false;
        }
        var order := settings.order;
        if pair.key !in settings.values {
          order := order + [pair.key];
        }
        settings := Settings(order, settings.values[pair.key := pair.value]);
        assert items + [] == items && sources + [] == sources;
        ok := true;
      }
    }

    /** Merges the keys of a file in their order. */
    method MergePairs(key: string, pairs: seq<Pair>, isEntry: bool) returns (ok: bool)
      requires Valid()
      modifies this
      ensures visiting == old(visiting)
      ensures ok <==> AllPairsOk(files, dir, key, pairs, isEntry, visiting)
                      && NoCollision(old(items) + ExpandPairs(files, key, pairs, visiting))
      ensures ok ==> Valid() && items == old(items) + ExpandPairs(files, key, pairs, visiting)
                     && sources == old(sources) + PairSources(files, key, pairs, visiting)
                     && settings == AddSettings(old(settings), pairs)
      decreases KeysOf(files) - visiting, 5, 0
    {
      ghost var start, startSources, startSettings := items, sources, settings;
      for i := 0 to |pairs|
        invariant Valid() && visiting == old(visiting) && settings == AddSettings(startSettings, pairs[..i])
        invariant items == start + ExpandPairs(files, key, pairs[..i], visiting)
        invariant sources == startSources + PairSources(files, key, pairs[..i], visiting)
        invariant AllPairsOk(files, dir, key, pairs[..i], isEntry, visiting)
      {
        OneMoreSetting(startSettings, pairs, i);
        PairsOkUpTo(files, dir, key, pairs, i, isEntry, visiting);
        OneMorePair(files, key, pairs, i, visiting, start, startSources);
        ok := MergePair(key, pairs[i], isEntry);
        if !ok {
          PairFails(files, key, pairs, i, visiting, start);
          return;
        }
      }
      assert pairs[..|pairs|] == pairs;
      ok := true;
    }

    /** Merges a file with all that it includes; false where the whole cannot be
        merged. */
    method MergeFile(path: string, isEntry: bool) returns (ok: bool)
      requires Valid()
      modifies this
      ensures visiting == old(visiting)
      ensures ok <==> TreeOk(files, dir, path, isEntry, visiting)
                      && NoCollision(old(items) + Expand(files, path, visiting))
      ensures ok ==> Valid() && items == old(items) + Expand(files, path, visiting)
                     && sources == old(sources) + Sources(files, path, visiting)
                     && settings == if isEntry then AddSettings(old(settings), PairsOf(files, path)) else old(settings)
      decreases KeysOf(files) - visiting, 2, 0
    {
      var key := KeyOf(path);
      if key in visiting {
        return false;
      }
      ghost var was := visiting;
      visiting := visiting + {key};
      sources := sources + [key];
      if path !in files || files[path].Unparsable? {
        ok := false;
      } else if files[path].Empty? {
        assert items + [] == items;
        ok := true;
      } else {
        assert key in KeysOf(files);
        ok := MergePairs(key, files[path].pairs, isEntry);
        if ok && !isEntry {
          FragmentHasNoSettings(files, dir, key, files[path].pairs, visiting, old(settings));
        }
        ConcatAssociates(old(sources), [key], PairSources(files, key, files[path].pairs, visiting));
      }
      visiting := visiting - {key};
      assert visiting == was;
    }

    /** The merged document. */
    method MarshalAll() returns (pairs: seq<Pair>)
      requires Valid() && forall key | key in settings.order :: key in settings.values
      ensures pairs == Marshal(settings, items)
    {
      pairs := [];
      for i := 0 to |settings.order|
        invariant pairs == SettingPairs(settings, settings.order[..i])
      {
        NextPrefix(settings.order, i);
        var key := settings.order[i];
        pairs := pairs + [Pair(key, settings.values[key])];
      }
      assert settings.order[..|settings.order|] == settings.order;
      pairs := pairs + ListPair("params", Get(lists, "params"));
      pairs := pairs + ListPair("agents", Get(lists, "agents"));
      pairs := pairs + ListPair("tasks", Get(lists, "tasks"));
    }
  }

  ghost predicate AllIncludesOk(files: Files, dir: string, key: string, nodes: seq<Node>, visiting: set<string>) {
    forall i | 0 <= i < |nodes| :: IncludeOk(files, dir, key, nodes[i], visiting)
  }

  ghost predicate AllPairsOk(files: Files, dir: string, key: string, pairs: seq<Pair>, isEntry: bool,
                             visiting: set<string>) {
    forall i | 0 <= i < |pairs| :: PairOk(files, dir, key, pairs[i], isEntry, visiting)
  }

  function PairsOf(files: Files, path: string): seq<Pair> {
    if path in files && files[path].Document? then files[path].pairs else []
  }

  function SourcesOfPair(files: Files, key: string, pair: Pair, visiting: set<string>): seq<string> {
    if pair.key == INCLUDE && pair.value.List? then IncludeSources(files, key, pair.value.items, visiting) else []
  }

  lemma OneMoreInclude(files: Files, key: string, nodes: seq<Node>, i: nat, visiting: set<string>,
      start: seq<Item>, startSources: seq<string>)
    requires i < |nodes| && IsPathNode(nodes[i])
    ensures var child := ChildPath(key, nodes[i].text);
      && start + ExpandIncludes(files, key, nodes[..i + 1], visiting)
         == start + ExpandIncludes(files, key, nodes[..i], visiting) + Expand(files, child, visiting)
      && startSources + IncludeSources(files, key, nodes[..i + 1], visiting)
         == startSources + IncludeSources(files, key, nodes[..i], visiting) + Sources(files, child, visiting)
  {
    NextPrefix(nodes, i);
    var child := ChildPath(key, nodes[i].text);
    ConcatAssociates(start, ExpandIncludes(files, key, nodes[..i], visiting), Expand(files, child, visiting));
    ConcatAssociates(startSources, IncludeSources(files, key, nodes[..i], visiting), Sources(files, child, visiting));
  }

  lemma {:induction false} IncludesOkUpTo(files: Files, dir: string, key: string, nodes: seq<Node>, i: nat,
      visiting: set<string>)
    requires i < |nodes|
    ensures AllIncludesOk(files, dir, key, nodes[..i + 1], visiting)
       <==> AllIncludesOk(files, dir, key, nodes[..i], visiting) && IncludeOk(files, dir, key, nodes[i], visiting)
    ensures AllIncludesOk(files, dir, key, nodes, visiting) ==> IncludeOk(files, dir, key, nodes[i], visiting)
  {
    forall j | 0 <= j < i
      ensures nodes[..i][j] == nodes[..i + 1][j] == nodes[j]
    {
    }
    assert nodes[..i + 1][i] == nodes[i];
  }

  lemma IncludeFails(files: Files, key: string, nodes: seq<Node>, i: nat, visiting: set<string>, start: seq<Item>)
    requires i < |nodes|
    ensures !NoCollision(start + ExpandIncludes(files, key, nodes[..i + 1], visiting))
        ==> !NoCollision(start + ExpandIncludes(files, key, nodes, visiting))
  {
    IncludesPrefix(files, key, nodes, i + 1, visiting);
    if !NoCollision(start + ExpandIncludes(files, key, nodes[..i + 1], visiting)) {
      CollisionInPart(start, ExpandIncludes(files, key, nodes[..i + 1], visiting),
          ExpandIncludes(files, key, nodes, visiting));
    }
  }

  lemma PairsOkUpTo(files: Files, dir: string, key: string, pairs: seq<Pair>, i: nat, isEntry: bool,
                    visiting: set<string>)
    requires i < |pairs|
    ensures AllPairsOk(files, dir, key, pairs[..i + 1], isEntry, visiting)
       <==> (&& AllPairsOk(files, dir, key, pairs[..i], isEntry, visiting)
             && PairOk(files, dir, key, pairs[i], isEntry, visiting))
    ensures AllPairsOk(files, dir, key, pairs, isEntry, visiting)
          ==> PairOk(files, dir, key, pairs[i], isEntry, visiting)
  {
    forall j | 0 <= j < i
      ensures pairs[..i][j] == pairs[..i + 1][j] == pairs[j]
    {
    }
    assert pairs[..i + 1][i] == pairs[i];
  }

  lemma OneMoreSetting(settings: Settings, pairs: seq<Pair>, i: nat)
    requires i < |pairs|
    ensures AddSettings(settings, pairs[..i + 1]) == AddSetting(AddSettings(settings, pairs[..i]), pairs[i])
  {
    NextPrefix(pairs, i);
  }

  lemma {:induction false} FragmentHasNoSettings(files: Files, dir: string, key: string, pairs: seq<Pair>,
      visiting: set<string>, settings: Settings)
    requires AllPairsOk(files, dir, key, pairs, false, visiting)
    ensures AddSettings(settings, pairs) == settings
    decreases |pairs|
  {
    if pairs != [] {
      var n := |pairs| - 1;
      PairsOkUpTo(files, dir, key, pairs, n, false, visiting);
      assert pairs[..n + 1] == pairs;
      FragmentHasNoSettings(files, dir, key, pairs[..n], visiting, settings);
    }
  }

  lemma OneMorePair(files: Files, key: string, pairs: seq<Pair>, i: nat, visiting: set<string>,
      start: seq<Item>, startSources: seq<string>)
    requires i < |pairs|
    ensures start + ExpandPairs(files, key, pairs[..i + 1], visiting)
         == start + ExpandPairs(files, key, pairs[..i], visiting) + ExpandPair(files, key, pairs[i], visiting)
    ensures startSources + PairSources(files, key, pairs[..i + 1], visiting)
         == startSources + PairSources(files, key, pairs[..i], visiting) + SourcesOfPair(files, key, pairs[i], visiting)
  {
    NextPrefix(pairs, i);
    ConcatAssociates(start, ExpandPairs(files, key, pairs[..i], visiting), ExpandPair(files, key, pairs[i], visiting));
    ConcatAssociates(startSources, PairSources(files, key, pairs[..i], visiting),
                     SourcesOfPair(files, key, pairs[i], visiting));
  }

  lemma PairFails(files: Files, key: string, pairs: seq<Pair>, i: nat, visiting: set<string>, start: seq<Item>)
    requires i < |pairs|
    ensures !NoCollision(start + ExpandPairs(files, key, pairs[..i + 1], visiting))
        ==> !NoCollision(start + ExpandPairs(files, key, pairs, visiting))
  {
    PairsPrefix(files, key, pairs, i + 1, visiting);
    if !NoCollision(start + ExpandPairs(files, key, pairs[..i + 1], visiting)) {
      CollisionInPart(start, ExpandPairs(files, key, pairs[..i + 1], visiting),
          ExpandPairs(files, key, pairs, visiting));
    }
  }

  lemma OfOneMore(items: seq<Item>, item: Item)
    ensures forall list :: Of(items + [item], list) == Of(items, list) + if item.list == list then [item.node] else []
  {
    assert (items + [item])[..|items|] == items;
  }

  lemma OneMoreOf(start: seq<Item>, list: string, nodes: seq<Node>, i: nat)
    requires i < |nodes|
    ensures start + ItemsOf(list, nodes[..i]) + [Item(list, nodes[i])] == start + ItemsOf(list, nodes[..i + 1])
  {
    NextPrefix(nodes, i);
    AppendAssociates(start, ItemsOf(list, nodes[..i]), Item(list, nodes[i]));
  }

  // ---------------------------------------------------------------- well-formed means sound chains

  /** A file includes another one directly. */
  ghost predicate Includes(files: Files, path: string, child: string) {
    path in files && files[path].Document? &&
    exists i, j :: 0 <= i < |files[path].pairs| && IncludesAt(files[path].pairs[i], KeyOf(path), j, child)
  }

  predicate IncludesAt(pair: Pair, key: string, j: int, child: string) {
    && pair.key == INCLUDE && pair.value.List? && 0 <= j < |pair.value.items|
    && IsPathNode(pair.value.items[j]) && child == ChildPath(key, pair.value.items[j].text)
  }

  /** A chain of files, each of which includes the next. */
  ghost predicate IsChain(files: Files, chain: seq<string>) {
    chain != [] && forall i | 0 <= i < |chain| - 1 :: Includes(files, chain[i], chain[i + 1])
  }

  predicate GoodPair(pair: Pair, isEntry: bool) {
    if pair.key == INCLUDE then
      pair.value.List? && forall i | 0 <= i < |pair.value.items| :: IsPathNode(pair.value.items[i])
    else if pair.key in MERGE_KEYS then pair.value.List?
    else isEntry
  }

  /** A file that can be read and parsed and has only what may be in it. */
  ghost predicate GoodFile(files: Files, path: string, isEntry: bool) {
    && path in files && !files[path].Unparsable?
    && forall i | 0 <= i < |PairsOf(files, path)| :: GoodPair(PairsOf(files, path)[i], isEntry)
  }

  /** No file of a chain is visited twice or being visited already, all of them are
      good, and all but the first lie in the directory. */
  ghost predicate SoundChain(files: Files, dir: string, chain: seq<string>, isEntry: bool, visiting: set<string>) {
    && (forall i | 0 <= i < |chain| :: KeyOf(chain[i]) !in visiting && GoodFile(files, chain[i], isEntry && i == 0))
    && (forall i, j | 0 <= i < j < |chain| :: KeyOf(chain[i]) != KeyOf(chain[j]))
    && (forall i | 0 < i < |chain| :: WithinDir(dir, chain[i]))
  }

  lemma TreeOkMakesGood(files: Files, dir: string, path: string, isEntry: bool, visiting: set<string>)
    requires TreeOk(files, dir, path, isEntry, visiting)
    ensures GoodFile(files, path, isEntry) && KeyOf(path) !in visiting
  {
    var pairs := PairsOf(files, path);
    forall i | 0 <= i < |pairs|
      ensures GoodPair(pairs[i], isEntry)
    {
      assert PairOk(files, dir, KeyOf(path), pairs[i], isEntry, visiting + {KeyOf(path)});
    }
  }

  lemma TreeOkOfChild(files: Files, dir: string, path: string, isEntry: bool, visiting: set<string>, child: string)
    requires TreeOk(files, dir, path, isEntry, visiting) && Includes(files, path, child)
    ensures WithinDir(dir, child) && TreeOk(files, dir, child, false, visiting + {KeyOf(path)})
  {
    var pairs := files[path].pairs;
    var i, j :| 0 <= i < |pairs| && IncludesAt(pairs[i], KeyOf(path), j, child);
    assert PairOk(files, dir, KeyOf(path), pairs[i], isEntry, visiting + {KeyOf(path)});
    assert IncludeOk(files, dir, KeyOf(path), pairs[i].value.items[j], visiting + {KeyOf(path)});
  }

  lemma {:induction false} TreeOkMakesSound(files: Files, dir: string, chain: seq<string>, isEntry: bool,
      visiting: set<string>)
    requires IsChain(files, chain) && TreeOk(files, dir, chain[0], isEntry, visiting)
    ensures SoundChain(files, dir, chain, isEntry, visiting)
    decreases |chain|
  {
    TreeOkMakesGood(files, dir, chain[0], isEntry, visiting);
    if |chain| > 1 {
      var rest := chain[1..];
      forall i | 0 <= i < |rest| - 1
        ensures Includes(files, rest[i], rest[i + 1])
      {
        assert rest[i] == chain[i + 1] && rest[i + 1] == chain[i + 2];
      }
      assert Includes(files, chain[0], chain[1]);
      TreeOkOfChild(files, dir, chain[0], isEntry, visiting, chain[1]);
      TreeOkMakesSound(files, dir, rest, false, visiting + {KeyOf(chain[0])});
    }
  }

  lemma SoundTail(files: Files, dir: string, chain: seq<string>, isEntry: bool, visiting: set<string>)
    requires |chain| > 1 && SoundChain(files, dir, chain, isEntry, visiting)
    ensures SoundChain(files, dir, chain[1..], false, visiting + {KeyOf(chain[0])}) && WithinDir(dir, chain[1])
  {
    var rest := chain[1..];
    assert forall i | 0 <= i < |rest| :: rest[i] == chain[i + 1];
  }

  ghost predicate AllChainsSound(files: Files, dir: string, path: string, isEntry: bool, visiting: set<string>) {
    forall chain | IsChain(files, chain) && chain[0] == path :: SoundChain(files, dir, chain, isEntry, visiting)
  }

  lemma SoundOfChild(files: Files, dir: string, path: string, isEntry: bool, visiting: set<string>, child: string)
    requires AllChainsSound(files, dir, path, isEntry, visiting) && Includes(files, path, child)
    ensures WithinDir(dir, child) && AllChainsSound(files, dir, child, false, visiting + {KeyOf(path)})
  {
    forall chain | IsChain(files, chain) && chain[0] == child
      ensures SoundChain(files, dir, chain, false, visiting + {KeyOf(path)})
    {
      var longer := [path] + chain;
      assert IsChain(files, longer);
      SoundTail(files, dir, longer, isEntry, visiting);
      assert longer[1..] == chain;
    }
    var two := [path, child];
    assert IsChain(files, two) && two[0] == path;
    SoundTail(files, dir, two, isEntry, visiting);
  }

  lemma {:induction false} SoundMakesTreeOk(files: Files, dir: string, path: string, isEntry: bool,
      visiting: set<string>)
    requires AllChainsSound(files, dir, path, isEntry, visiting)
    ensures TreeOk(files, dir, path, isEntry, visiting)
    decreases KeysOf(files) - visiting
  {
    var key, pairs := KeyOf(path), PairsOf(files, path);
    assert IsChain(files, [path]) && [path][0] == path;
    assert key in KeysOf(files);
    forall i | 0 <= i < |pairs|
      ensures PairOk(files, dir, key, pairs[i], isEntry, visiting + {key})
    {
      assert GoodPair(pairs[i], isEntry);
      if pairs[i].key == INCLUDE {
        forall j | 0 <= j < |pairs[i].value.items|
          ensures IncludeOk(files, dir, key, pairs[i].value.items[j], visiting + {key})
        {
          var child := ChildPath(key, pairs[i].value.items[j].text);
          assert IncludesAt(pairs[i], key, j, child);
          SoundOfChild(files, dir, path, isEntry, visiting, child);
          SoundMakesTreeOk(files, dir, child, false, visiting + {key});
        }
      }
    }
  }

  /** A workflow can be merged exactly if on every chain of includes from the entry no
      file recurs, every file is good, and every included one lies in the directory. */
  lemma TreeOkIffChainsSound(files: Files, dir: string, entry: string)
    ensures TreeOk(files, dir, entry, true, {}) <==> AllChainsSound(files, dir, entry, true, {})
  {
    if TreeOk(files, dir, entry, true, {}) {
      forall chain | IsChain(files, chain) && chain[0] == entry
        ensures SoundChain(files, dir, chain, true, {})
      {
        TreeOkMakesSound(files, dir, chain, true, {});
      }
    }
    if AllChainsSound(files, dir, entry, true, {}) {
      SoundMakesTreeOk(files, dir, entry, true, {});
    }
  }

  // ---------------------------------------------------------------- the whole

  predicate HasInclude(pairs: seq<Pair>) {
    exists i | 0 <= i < |pairs| :: pairs[i].key == INCLUDE
  }

  function SettingPairs(settings: Settings, order: seq<string>): seq<Pair>
    requires forall key | key in order :: key in settings.values
  {
    if order == [] then []
    else
      var last := order[|order| - 1];
      SettingPairs(settings, order[..|order| - 1]) + [Pair(last, settings.values[last])]
  }

  function ListPair(list: string, nodes: seq<Node>): seq<Pair> {
    if nodes == [] then [] else [Pair(list, List(nodes))]
  }

  /** The settings are in the order of the entry file, the lists follow. */
  function Marshal(settings: Settings, items: seq<Item>): seq<Pair>
    requires forall key | key in settings.order :: key in settings.values
  {
    SettingPairs(settings, settings.order)
    + ListPair("params", Of(items, "params")) + ListPair("agents", Of(items, "agents"))
    + ListPair("tasks", Of(items, "tasks"))
  }

  predicate SetsAt(pairs: seq<Pair>, i: int, key: string) {
    0 <= i < |pairs| && pairs[i].key == key && IsSetting(pairs[i])
  }

  ghost predicate LastSetting(pairs: seq<Pair>, i: int, key: string, value: Node) {
    SetsAt(pairs, i, key) && pairs[i].value == value && forall j | i < j < |pairs| :: pairs[j].key != key
  }

  ghost predicate KeysAreSet(settings: Settings, pairs: seq<Pair>) {
    forall key :: key in settings.values <==> exists i :: SetsAt(pairs, i, key)
  }

  ghost predicate ValuesAreLast(settings: Settings, pairs: seq<Pair>) {
    forall key | key in settings.values :: exists i :: LastSetting(pairs, i, key, settings.values[key])
  }

  /** The settings of a file: each key that is not merged occurs once, with its last
      value. */
  ghost predicate Consistent(settings: Settings, pairs: seq<Pair>) {
    && NoDup(settings.order) && Elems(settings.order) == settings.values.Keys
    && KeysAreSet(settings, pairs) && ValuesAreLast(settings, pairs)
  }

  lemma SetsAtGrows(pairs: seq<Pair>, key: string)
    requires pairs != []
    ensures var init, last := pairs[..|pairs| - 1], pairs[|pairs| - 1];
      (exists i :: SetsAt(pairs, i, key))
          <==> (exists i :: SetsAt(init, i, key)) || (IsSetting(last) && last.key == key)
  {
    var n := |pairs| - 1;
    if i :| SetsAt(pairs[..n], i, key) {
      assert SetsAt(pairs, i, key);
    }
    if i :| SetsAt(pairs, i, key) {
      assert i < n ==> SetsAt(pairs[..n], i, key);
    }
    if IsSetting(pairs[n]) && pairs[n].key == key {
      assert SetsAt(pairs, n, key);
    }
  }

  lemma AddingKeepsKeys(was: Settings, pairs: seq<Pair>)
    requires pairs != [] && KeysAreSet(was, pairs[..|pairs| - 1])
    ensures KeysAreSet(AddSetting(was, pairs[|pairs| - 1]), pairs)
  {
    var now := AddSetting(was, pairs[|pairs| - 1]);
    forall key
      ensures key in now.values <==> exists i :: SetsAt(pairs, i, key)
    {
      SetsAtGrows(pairs, key);
    }
  }

  lemma AddingKeepsLast(was: Settings, pairs: seq<Pair>)
    requires pairs != [] && ValuesAreLast(was, pairs[..|pairs| - 1])
    ensures ValuesAreLast(AddSetting(was, pairs[|pairs| - 1]), pairs)
  {
    var n := |pairs| - 1;
    var now := AddSetting(was, pairs[n]);
    forall key | key in now.values
      ensures exists i :: LastSetting(pairs, i, key, now.values[key])
    {
      if IsSetting(pairs[n]) && key == pairs[n].key {
        assert LastSetting(pairs, n, key, pairs[n].value);
      } else {
        var i :| LastSetting(pairs[..n], i, key, was.values[key]);
        assert pairs[i] == pairs[..n][i];
        LastGrows(pairs, i, key, was.values[key]);
      }
    }
  }

  lemma LastGrows(pairs: seq<Pair>, i: int, key: string, value: Node)
    requires pairs != [] && LastSetting(pairs[..|pairs| - 1], i, key, value)
    requires !(IsSetting(pairs[|pairs| - 1]) && pairs[|pairs| - 1].key == key)
    ensures LastSetting(pairs, i, key, value)
  {
    var init := pairs[..|pairs| - 1];
    forall j | i < j < |pairs|
      ensures pairs[j].key != key
    {
      if j < |init| {
        assert pairs[j] == init[j];
      }
    }
  }

  lemma {:induction false} SettingsAreConsistent(pairs: seq<Pair>)
    ensures Consistent(AddSettings(NO_SETTINGS, pairs), pairs)
    decreases |pairs|
  {
    if pairs == [] {
      EmptyElems(NO_SETTINGS.order);
    } else {
      var init, last := pairs[..|pairs| - 1], pairs[|pairs| - 1];
      SettingsAreConsistent(init);
      var was := AddSettings(NO_SETTINGS, init);
      AppendFacts(was.order, last.key);
      AddingKeepsKeys(was, pairs);
      AddingKeepsLast(was, pairs);
    }
  }

  lemma OrderHasValues(pairs: seq<Pair>)
    ensures var settings := AddSettings(NO_SETTINGS, pairs);
      forall key | key in settings.order :: key in settings.values
  {
    SettingsAreConsistent(pairs);
    var settings := AddSettings(NO_SETTINGS, pairs);
    assert forall key | key in settings.order :: key in Elems(settings.order);
  }

  lemma {:induction false} SettingPairsAreSettings(settings: Settings, order: seq<string>)
    requires forall key | key in order :: key in settings.values
    ensures var list := SettingPairs(settings, order);
      && |list| == |order|
      && forall i | 0 <= i < |order| :: list[i] == Pair(order[i], settings.values[order[i]])
    decreases |order|
  {
    if order != [] {
      SettingPairsAreSettings(settings, order[..|order| - 1]);
    }
  }

  /** The last of the entry file's settings of a key. */
  ghost predicate FromEntry(entryPairs: seq<Pair>, p: Pair) {
    exists j :: LastSetting(entryPairs, j, p.key, p.value)
  }

  lemma SettingsComeFromEntry(entryPairs: seq<Pair>)
    ensures
      var settings := AddSettings(NO_SETTINGS, entryPairs);
      && (forall key | key in settings.order :: key in settings.values)
      && forall p | p in SettingPairs(settings, settings.order) :: p.key != INCLUDE && FromEntry(entryPairs, p)
  {
    var settings := AddSettings(NO_SETTINGS, entryPairs);
    SettingsAreConsistent(entryPairs);
    OrderHasValues(entryPairs);
    SettingPairsAreSettings(settings, settings.order);
    forall p | p in SettingPairs(settings, settings.order)
      ensures p.key != INCLUDE && FromEntry(entryPairs, p)
    {
      var j :| LastSetting(entryPairs, j, p.key, settings.values[p.key]);
    }
  }

  /** The merged document has no include left, so that flattening it once more leaves
      it untouched; whatever is not a merged list is a setting of the entry file. */
  lemma MergedIsFlat(entryPairs: seq<Pair>, items: seq<Item>)
    ensures
      var settings := AddSettings(NO_SETTINGS, entryPairs);
      && (forall key | key in settings.order :: key in settings.values)
      && !HasInclude(Marshal(settings, items))
      && forall p | p in Marshal(settings, items) :: p.key in MERGE_KEYS || FromEntry(entryPairs, p)
  {
    SettingsComeFromEntry(entryPairs);
  }
}
