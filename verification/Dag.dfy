/** The task graph: a node table with a forward and a reverse edge index, guarded on
    every insertion by a breadth-first cycle check, with its queries and its sort, for
    every order in which the maps are ranged over. */
module Dags {
  import opened Wrappers
  import opened Graphs

  datatype Node = Node(id: string, taskType: string, data: map<string, string>)

  datatype DagError = NodeExists | ParentMissing | ChildMissing | WouldCycle | ContainsCycle

  type EdgeIndex = map<string, set<string>>

  ghost function Pairs(index: EdgeIndex): set<Edge> {
    set p, c | p in index && c in index[p] :: (p, c)
  }

  /** Whether every member of a list is in a set. */
  method AllIn(list: seq<string>, allowed: set<string>) returns (all: bool)
    ensures all <==> Elems(list) <= allowed
  {
    for j := 0 to |list|
      invariant Elems(list[..j]) <= allowed
    {
      if list[j] !in allowed {
        assert list[j] in Elems(list);
        return false;
      }
      assert list[..j + 1] == list[..j] + [list[j]];
      AppendFacts(list[..j], list[j]);
    }
    assert list[..|list|] == list;
    return true;
  }

  class Dag {
    var nodes: map<string, Node>
    var edges: EdgeIndex    // parent -> children
    var inEdges: EdgeIndex  // child -> parents

    ghost function EdgeSet(): set<Edge>
      reads this
    {
      Pairs(edges)
    }

    /** The two indexes have the nodes as keys and mirror each other. */
    ghost predicate Mirrored()
      reads this
    {
      && edges.Keys == nodes.Keys
      && Mirror(edges, inEdges)
      && (forall id :: id in nodes ==> nodes[id].id == id)
    }

    ghost predicate Valid()
      reads this
    {
      Mirrored() && Acyclic(EdgeSet())
    }

    constructor ()
      ensures Valid() && nodes == map[] && EdgeSet() == {}
    {
      nodes, edges, inEdges := map[], map[], map[];
      new;
      assert EdgeSet() == {};
    }

    method AddNode(id: string, taskType: string, data: map<string, string>) returns (r: Result<(), DagError>)
      requires Valid()
      modifies this
      ensures Valid() && EdgeSet() == old(EdgeSet())
      ensures r == if id in old(nodes) then Err(NodeExists) else Ok(())
      ensures nodes == if r.Ok? then old(nodes)[id := Node(id, taskType, data)] else old(nodes)
    {
      if id in nodes {
        return Err(NodeExists);
      }
      nodes := nodes[id := Node(id, taskType, data)];
      edges := edges[id := {}];
      inEdges := inEdges[id := {}];
      assert EdgeSet() == old(EdgeSet());
      return Ok(());
    }

    /** An edge between existing nodes is accepted exactly when the graph with
        the edge is still acyclic; a refused edge changes nothing. */
    method AddEdge(parent: string, child: string) returns (r: Result<(), DagError>)
      requires Valid()
      modifies this`edges, this`inEdges
      ensures Valid()
      ensures parent !in nodes ==> r == Err(ParentMissing)
      ensures parent in nodes && child !in nodes ==> r == Err(ChildMissing)
      ensures parent in nodes && child in nodes ==>
                r == if Acyclic(old(EdgeSet()) + {(parent, child)}) then Ok(()) else Err(WouldCycle)
      ensures EdgeSet() == old(EdgeSet()) + (if r.Ok? then {(parent, child)} else {})
    {
      if parent !in nodes {
        return Err(ParentMissing);
      }
      if child !in nodes {
        return Err(ChildMissing);
      }
      InsertKeepsAcyclicIff(EdgeSet(), parent, child);
      var closes := CanReach(child, parent);
      if closes {
        return Err(WouldCycle);
      }
      MirrorInsert(edges, inEdges, parent, child);
      edges := edges[parent := edges[parent] + {child}];
      inEdges := inEdges[child := inEdges[child] + {parent}];
      return Ok(());
    }

    /** Breadth-first search; a node may be queued more than once. */
    method CanReach(source: string, target: string) returns (found: bool)
      requires Mirrored()
      requires source in nodes
      ensures found <==> Reaches(EdgeSet(), source, target)
    {
      var visited: set<string> := {};
      var queue := [source];
      ReachesSelf(EdgeSet(), source);
      assert Elems(queue) == {source};
      while |queue| > 0
        invariant Exploring(nodes.Keys, EdgeSet(), source, visited, Elems(queue))
        invariant target !in visited
        decreases nodes.Keys - visited, |queue|
      {
        HeadFacts(queue);
        var current := queue[0];
        queue := queue[1..];
        if current == target {
          return true;
        }
        if current in visited {
          assert {current} + Elems(queue) + visited == Elems(queue) + visited;
          continue;
        }
        ExploreStep(nodes.Keys, edges, source, visited, Elems(queue), current);
        visited := visited + {current};
        var children := InSomeOrder(edges[current]);
        ConcatFacts(queue, children);
        queue := queue + children;
      }
      assert Elems(queue) == {};
      if Reaches(EdgeSet(), source, target) {
        ClosedSetHoldsReachable(EdgeSet(), visited, source, target);
      }
      return false;
    }

    /** Every node downstream of id, once each. */
    method Descendants(id: string) returns (found: seq<string>)
      requires Mirrored()
      ensures NoDup(found)
      ensures forall x :: x in Elems(found) <==> Downstream(EdgeSet(), id, x)
    {
      found := Closure(edges, id);
    }

    /** Every node upstream of id, once each. */
    method Ancestors(id: string) returns (found: seq<string>)
      requires Mirrored()
      ensures NoDup(found)
      ensures forall x :: x in Elems(found) <==> Downstream(EdgeSet(), x, id)
    {
      found := Closure(inEdges, id);
      forall e
        ensures e in Pairs(inEdges) <==> (e.1, e.0) in EdgeSet()
      {
      }
      DownstreamReversed(EdgeSet(), Pairs(inEdges), id);
    }

    /** Kahn's algorithm decides acyclicity and yields a topological order
        whatever order the maps are ranged over in. */
    method TopologicalSort() returns (r: Result<seq<string>, DagError>)
      requires Mirrored()
      ensures r.Ok? <==> Acyclic(EdgeSet())
      ensures r.Ok? ==> IsTopological(nodes.Keys, EdgeSet(), r.value)
      ensures r.Err? ==> r.error == ContainsCycle
    {
      MirrorFacts(edges, inEdges);
      var roots := WithoutParents();
      var sorted := KahnSort(edges, inEdges, roots);
      if |sorted| != |nodes| {
        return Err(ContainsCycle);
      }
      return Ok(sorted);
    }

    method WithoutParents() returns (roots: seq<string>)
      requires Mirrored()
      ensures NoDup(roots)
      ensures Elems(roots) == set id | id in nodes && inEdges[id] == {}
    {
      roots := [];
      var all := InSomeOrder(nodes.Keys);
      for i := 0 to |all|
        invariant NoDup(roots)
        invariant Elems(roots) == set id | id in Elems(all[..i]) && inEdges[id] == {}
      {
        PrefixFacts(all, i);
        if |inEdges[all[i]]| == 0 {
          AppendFacts(roots, all[i]);
          roots := roots + [all[i]];
        }
      }
      assert all[..|all|] == all;
    }

    /** The nodes without parents: those ready before anything is completed. */
    method Roots() returns (roots: seq<string>)
      requires Mirrored()
      ensures NoDup(roots)
      ensures Elems(roots) == Ready(nodes.Keys, EdgeSet(), {})
    {
      MirrorFacts(edges, inEdges);
      roots := WithoutParents();
      assert Elems(roots) == Ready(nodes.Keys, EdgeSet(), {});
    }

    /** The nodes that are not completed and whose parents all are. */
    method ReadyNodes(completed: set<string>) returns (ready: seq<string>)
      requires Mirrored()
      ensures NoDup(ready)
      ensures Elems(ready) == Ready(nodes.Keys, EdgeSet(), completed)
    {
      MirrorFacts(edges, inEdges);
      ready := [];
      var all := InSomeOrder(nodes.Keys);
      for i := 0 to |all|
        invariant NoDup(ready)
        invariant Elems(ready) == set id | id in Elems(all[..i]) && id !in completed && inEdges[id] <= completed
      {
        var id := all[i];
        PrefixFacts(all, i);
        if id in completed {
          continue;
        }
        var parents := InSomeOrder(inEdges[id]);
        var allParentsDone := AllIn(parents, completed);
        if allParentsDone {
          AppendFacts(ready, id);
          ready := ready + [id];
        }
      }
      assert all[..|all|] == all;
      assert Elems(ready) == Ready(nodes.Keys, EdgeSet(), completed);
    }

    /** A graph built through AddNode and AddEdge always passes. */
    method Validate() returns (r: Result<(), DagError>)
      requires Mirrored()
      ensures r == if Acyclic(EdgeSet()) then Ok(()) else Err(ContainsCycle)
    {
      var sorted := TopologicalSort();
      match sorted
      case Err(e) => return Err(e);
      case Ok(_) => return Ok(());
    }
  }

  ghost predicate Mirror(edges: EdgeIndex, inEdges: EdgeIndex) {
    && inEdges.Keys == edges.Keys
    && (forall p, c {:trigger c in edges[p]} :: p in edges && c in edges[p] ==> c in inEdges && p in inEdges[c])
    && (forall p, c {:trigger p in inEdges[c]} :: c in inEdges && p in inEdges[c] ==> p in edges && c in edges[p])
  }

  lemma MirrorFacts(edges: EdgeIndex, inEdges: EdgeIndex)
    requires Mirror(edges, inEdges)
    ensures Within(edges.Keys, Pairs(edges))
    ensures forall id :: id in inEdges ==> ParentsOf(Pairs(edges), id) == inEdges[id]
  {
    forall id | id in inEdges
      ensures ParentsOf(Pairs(edges), id) == inEdges[id]
    {
      forall p | p in inEdges[id]
        ensures p in ParentsOf(Pairs(edges), id)
      {
        assert (p, id) in Pairs(edges);
      }
    }
  }

  lemma MirrorInsert(edges: EdgeIndex, inEdges: EdgeIndex, parent: string, child: string)
    requires Mirror(edges, inEdges) && parent in edges && child in edges
    ensures
      var edges' := edges[parent := edges[parent] + {child}];
      var inEdges' := inEdges[child := inEdges[child] + {parent}];
      Mirror(edges', inEdges') && Pairs(edges') == Pairs(edges) + {(parent, child)}
  {
    var more := edges[parent := edges[parent] + {child}];
    forall e
      ensures e in Pairs(more) <==> e in Pairs(edges) + {(parent, child)}
    {
    }
  }

  // ---------------------------------------------------------------- reachability search

  ghost predicate Exploring(nodes: set<string>, es: set<Edge>, source: string, visited: set<string>,
                            queued: set<string>) {
    && visited <= nodes && queued <= nodes
    && source in visited + queued
    && (forall x {:trigger Reaches(es, source, x)} :: x in visited + queued ==> Reaches(es, source, x))
    && (forall e {:trigger e in es} | e in es && e.0 in visited :: e.1 in visited + queued)
  }

  lemma ExploreStep(nodes: set<string>, edges: EdgeIndex, source: string, visited: set<string>, queued: set<string>,
                    current: string)
    requires edges.Keys == nodes && Within(nodes, Pairs(edges))
    requires Exploring(nodes, Pairs(edges), source, visited, {current} + queued)
    ensures Exploring(nodes, Pairs(edges), source, visited + {current}, queued + edges[current])
  {
    forall c | c in edges[current]
      ensures Reaches(Pairs(edges), source, c) && c in nodes
    {
      assert (current, c) in Pairs(edges);
      ReachesStep(Pairs(edges), source, current, c);
    }
  }

  // ---------------------------------------------------------------- closure

  /** A path of at least one edge leads from a to b. */
  ghost predicate Downstream(es: set<Edge>, a: string, b: string) {
    exists c :: (a, c) in es && Reaches(es, c, b)
  }

  lemma DownstreamStep(es: set<Edge>, a: string, b: string, c: string)
    requires a == b || Downstream(es, a, b)
    requires (b, c) in es
    ensures Downstream(es, a, c)
  {
    if Downstream(es, a, b) {
      var m :| (a, m) in es && Reaches(es, m, b);
      ReachesStep(es, m, b, c);
    } else {
      ReachesSelf(es, c);
    }
  }

  /** The last edge of a path of at least one edge. */
  lemma DownstreamLastEdge(es: set<Edge>, a: string, b: string) returns (m: string)
    requires Downstream(es, a, b)
    ensures (m, b) in es && Reaches(es, a, m)
  {
    var c :| (a, c) in es && Reaches(es, c, b);
    ReachesSelf(es, a);
    if c == b {
      m := a;
    } else {
      m := ReachesLastEdge(es, c, b);
      ReachesStep(es, a, a, c);
      ReachesTransitive(es, a, c, m);
    }
  }

  lemma ReachesReversed(es: set<Edge>, back: set<Edge>, a: string, b: string)
    requires forall p, c :: (p, c) in es ==> (c, p) in back
    requires Reaches(es, a, b)
    ensures Reaches(back, b, a)
  {
    var path :| Connects(es, path, a, b);
    var n := |path|;
    var r := seq(n, i requires 0 <= i < n => path[n - 1 - i]);
    forall i | 0 <= i < n - 1
      ensures (r[i], r[i + 1]) in back
    {
      assert (path[n - 2 - i], path[n - 2 - i + 1]) in es;
    }
    assert Connects(back, r, b, a);
  }

  lemma DownstreamReversed(es: set<Edge>, back: set<Edge>, id: string)
    requires forall e :: e in back <==> (e.1, e.0) in es
    ensures forall x :: Downstream(back, id, x) <==> Downstream(es, x, id)
  {
    forall x
      ensures Downstream(back, id, x) <==> Downstream(es, x, id)
    {
      assert forall p, c :: (p, c) in es ==> (c, p) in back;
      assert forall p, c :: (p, c) in back ==> (c, p) in es;
      if Downstream(back, id, x) {
        var m := DownstreamLastEdge(back, id, x);
        ReachesReversed(back, es, id, m);
      }
      if Downstream(es, x, id) {
        var m := DownstreamLastEdge(es, x, id);
        ReachesReversed(es, back, x, m);
      }
    }
  }

  ghost predicate Searching(es: set<Edge>, start: string, found: set<string>, queued: set<string>,
                            expanded: set<string>) {
    && (forall x :: x in found ==> Downstream(es, start, x))
    && queued <= found + {start} <= expanded + queued
    && expanded <= found + {start}
    && (forall e {:trigger e in es} | e in es && e.0 in expanded :: e.1 in found)
  }

  lemma SearchStep(es: set<Edge>, start: string, found: set<string>, queued: set<string>, expanded: set<string>,
                   current: string, novel: set<string>)
    requires Searching(es, start, found, {current} + queued, expanded)
    requires forall c :: c in novel <==> (current, c) in es && c !in found
    ensures Searching(es, start, found + novel, queued + novel, expanded + {current})
  {
    forall x | x in novel
      ensures Downstream(es, start, x)
    {
      DownstreamStep(es, start, current, x);
    }
    forall e {:trigger e in es} | e in es && e.0 in expanded + {current}
      ensures e.1 in found + novel
    {
      assert e == (e.0, e.1);
    }
  }

  lemma SearchEnds(es: set<Edge>, start: string, found: set<string>, expanded: set<string>)
    requires Searching(es, start, found, {}, expanded)
    ensures forall x :: x in found <==> Downstream(es, start, x)
  {
    forall x | Downstream(es, start, x)
      ensures x in found
    {
      var c :| (start, c) in es && Reaches(es, c, x);
      ClosedSetHoldsReachable(es, found, c, x);
    }
  }

  /** The children of one node that were not seen before, in some order. */
  method Unseen(children: set<string>, found: seq<string>) returns (novel: seq<string>)
    ensures NoDup(novel)
    ensures Elems(novel) == children - Elems(found)
  {
    novel := [];
    var rest := children;
    while rest != {}
      invariant rest <= children && NoDup(novel)
      invariant Elems(novel) == (children - rest) - Elems(found)
      decreases rest
    {
      var child :| child in rest;
      rest := rest - {child};
      if child !in found {
        AppendFacts(novel, child);
        novel := novel + [child];
      }
    }
  }

  /** Breadth-first closure of an index; the start is in the result only if it
      can be reached again. */
  method Closure(index: EdgeIndex, start: string) returns (found: seq<string>)
    requires forall p, c {:trigger c in index[p]} :: p in index && c in index[p] ==> c in index
    ensures NoDup(found)
    ensures forall x :: x in Elems(found) <==> Downstream(Pairs(index), start, x)
  {
    var queue := [start];
    found := [];
    ghost var expanded: set<string> := {};
    assert Elems(queue) == {start} && Elems(found) == {};
    while |queue| > 0
      invariant Searching(Pairs(index), start, Elems(found), Elems(queue), expanded)
      invariant NoDup(found)
      invariant Elems(found) <= index.Keys
      decreases index.Keys - Elems(found), |queue|
    {
      HeadFacts(queue);
      var current := queue[0];
      var children := if current in index then index[current] else {};
      var novel := Unseen(children, found);
      forall c
        ensures c in Elems(novel) <==> (current, c) in Pairs(index) && c !in Elems(found)
      {
      }
      SearchStep(Pairs(index), start, Elems(found), Elems(queue[1..]), expanded, current, Elems(novel));
      ConcatFacts(queue[1..], novel);
      NovelShrinks(index.Keys, found, children, novel);
      assert novel == [] ==> found + novel == found && queue[1..] + novel == queue[1..];
      found, queue, expanded := found + novel, queue[1..] + novel, expanded + {current};
    }
    assert Elems(queue) == {};
    SearchEnds(Pairs(index), start, Elems(found), expanded);
  }

  lemma NovelShrinks(all: set<string>, found: seq<string>, children: set<string>, novel: seq<string>)
    requires NoDup(found) && Elems(found) <= all && children <= all
    requires NoDup(novel) && Elems(novel) == children - Elems(found)
    ensures NoDup(found + novel) && Elems(found + novel) == Elems(found) + Elems(novel) <= all
    ensures novel == [] || all - Elems(found + novel) < all - Elems(found)
  {
    ConcatFacts(found, novel);
    if novel != [] {
      assert novel[0] in Elems(novel);
      assert novel[0] in all - Elems(found);
    }
  }

  // ---------------------------------------------------------------- Kahn's algorithm

  /** left holds the parents of each node that are not sorted yet. */
  ghost predicate Unsorted(inEdges: EdgeIndex, done: set<string>, left: EdgeIndex) {
    && left.Keys == inEdges.Keys
    && forall id, p {:trigger p in left[id]} {:trigger p in inEdges[id]} | id in left ::
         p in left[id] <==> p in inEdges[id] && p !in done
  }

  /** The in-degrees count the parents not yet sorted, plus one for a child of
      the node sorted last that was not visited yet; a zero in-degree means
      sorted or queued. */
  ghost predicate Kahn(left: EdgeIndex, inDegree: map<string, int>, done: set<string>, queued: set<string>,
                       pending: set<string>) {
    && inDegree.Keys == left.Keys
    && done <= left.Keys && queued <= left.Keys && pending <= left.Keys
    && queued !! done
    && (forall id {:trigger inDegree[id]} {:trigger left[id]} | id in left ::
          inDegree[id] == |left[id]| + (if id in pending then 1 else 0))
    && (forall id {:trigger inDegree[id]} {:trigger left[id]} | id in left ::
          inDegree[id] == 0 <==> id in done || id in queued)
  }

  lemma RemoveOne<T>(s: set<T>, x: T, t: set<T>)
    requires forall y :: y in t <==> y in s && y != x
    ensures |t| == |s| - (if x in s then 1 else 0)
  {
    if x in s {
      assert t == s - {x};
    } else {
      assert t == s;
    }
  }

  lemma KahnPops(edges: EdgeIndex, inEdges: EdgeIndex, left: EdgeIndex, inDegree: map<string, int>,
                 done: set<string>, queued: set<string>, current: string) returns (left': EdgeIndex)
    requires Mirror(edges, inEdges)
    requires Unsorted(inEdges, done, left)
    requires Kahn(left, inDegree, done, queued, {})
    requires current in queued
    ensures inEdges[current] <= done
    ensures Unsorted(inEdges, done + {current}, left')
    ensures Kahn(left', inDegree, done + {current}, queued - {current}, edges[current])
  {
    left' := map id | id in left :: set p | p in left[id] && p != current;
    forall id, p | id in left'
      ensures p in left'[id] <==> p in inEdges[id] && p !in done + {current}
    {
      assert id in left;
      assert p in left'[id] <==> p in left[id] && p != current;
    }
    assert left[current] == {};
    assert current !in left[current];
    forall id | id in left
      ensures |left'[id]| == |left[id]| - (if id in edges[current] then 1 else 0)
    {
      RemoveOne(left[id], current, left'[id]);
    }
  }

  /** The loop over the children of the node sorted last. */
  method RelaxChildren(children: set<string>, ghost left: EdgeIndex, ghost done: set<string>,
                       queue: seq<string>, degrees: map<string, int>)
    returns (queue': seq<string>, inDegree: map<string, int>)
    requires Kahn(left, degrees, done, Elems(queue), children)
    requires NoDup(queue)
    ensures Kahn(left, inDegree, done, Elems(queue'), {})
    ensures NoDup(queue')
  {
    queue', inDegree := queue, degrees;
    var rest := children;
    while rest != {}
      invariant rest <= children && NoDup(queue')
      invariant Kahn(left, inDegree, done, Elems(queue'), rest)
      decreases rest
    {
      var child :| child in rest;
      rest := rest - {child};
      inDegree := inDegree[child := inDegree[child] - 1];
      if inDegree[child] == 0 {
        AppendFacts(queue', child);
        queue' := queue' + [child];
      }
    }
  }

  /** The queue loop: what is sorted when the queue runs empty is a run of the
      scheduler, and it is complete exactly when the graph is acyclic. */
  method KahnSort(edges: EdgeIndex, inEdges: EdgeIndex, roots: seq<string>) returns (sorted: seq<string>)
    requires Mirror(edges, inEdges)
    requires NoDup(roots) && Elems(roots) == set id | id in inEdges && inEdges[id] == {}
    ensures |sorted| == |edges.Keys| <==> Acyclic(Pairs(edges))
    ensures |sorted| == |edges.Keys| ==> IsTopological(edges.Keys, Pairs(edges), sorted)
  {
    var inDegree: map<string, int> := map id | id in inEdges :: |inEdges[id]|;
    var queue := roots;
    ghost var left := inEdges;
    sorted := [];
    MirrorFacts(edges, inEdges);
    KahnStarts(inEdges, inDegree, Elems(queue));
    EmptyElems(sorted);
    while |queue| > 0
      invariant Sorting(edges.Keys, Pairs(edges), inEdges, left, inDegree, sorted, queue, {})
      decreases edges.Keys - Elems(sorted)
    {
      var current := queue[0];
      left := KahnStep(edges, inEdges, left, inDegree, sorted, queue);
      queue := queue[1..];
      sorted := sorted + [current];
      queue, inDegree := RelaxChildren(edges[current], left, Elems(sorted), queue, inDegree);
    }
    EmptyElems(queue);
    KahnEnds(edges.Keys, Pairs(edges), inEdges, left, inDegree, sorted);
  }

  /** The state of the sort: the counters, a duplicate-free queue and a sorted
      list that is a run of the scheduler. */
  ghost predicate Sorting(nodes: set<string>, es: set<Edge>, inEdges: EdgeIndex, left: EdgeIndex,
                          inDegree: map<string, int>, sorted: seq<string>, queue: seq<string>, pending: set<string>) {
    && Kahn(left, inDegree, Elems(sorted), Elems(queue), pending)
    && Unsorted(inEdges, Elems(sorted), left)
    && NoDup(queue)
    && ReadyRun(nodes, es, sorted)
  }

  lemma KahnStarts(inEdges: EdgeIndex, inDegree: map<string, int>, roots: set<string>)
    requires inDegree.Keys == inEdges.Keys
    requires forall id | id in inEdges :: inDegree[id] == |inEdges[id]|
    requires roots == set id | id in inEdges && inEdges[id] == {}
    ensures Kahn(inEdges, inDegree, {}, roots, {})
    ensures Unsorted(inEdges, {}, inEdges)
  {
  }

  lemma KahnStep(edges: EdgeIndex, inEdges: EdgeIndex, left: EdgeIndex, inDegree: map<string, int>,
                 sorted: seq<string>, queue: seq<string>)
    returns (left': EdgeIndex)
    requires Mirror(edges, inEdges) && |queue| > 0
    requires Sorting(edges.Keys, Pairs(edges), inEdges, left, inDegree, sorted, queue, {})
    ensures queue[0] in edges.Keys - Elems(sorted)
    ensures Elems(sorted + [queue[0]]) == Elems(sorted) + {queue[0]}
    ensures Sorting(edges.Keys, Pairs(edges), inEdges, left', inDegree, sorted + [queue[0]], queue[1..],
          edges[queue[0]])
  {
    var current := queue[0];
    HeadFacts(queue);
    AppendFacts(sorted, current);
    left' := KahnPops(edges, inEdges, left, inDegree, Elems(sorted), Elems(queue), current);
    assert Elems(queue) - {current} == Elems(queue[1..]);
    MirrorFacts(edges, inEdges);
    ReadyRunGrows(edges.Keys, Pairs(edges), sorted, current);
  }

  lemma ReadyRunGrows(nodes: set<string>, es: set<Edge>, s: seq<string>, id: string)
    requires ReadyRun(nodes, es, s) && id in Ready(nodes, es, Elems(s))
    ensures ReadyRun(nodes, es, s + [id])
  {
    var next := s + [id];
    forall i | 0 <= i < |next|
      ensures next[i] in Ready(nodes, es, Elems(next[..i]))
    {
      if i < |s| {
        assert next[..i] == s[..i];
      } else {
        assert next[..i] == s;
      }
    }
  }

  lemma KahnEnds(nodes: set<string>, es: set<Edge>, inEdges: EdgeIndex, left: EdgeIndex, inDegree: map<string, int>,
                 sorted: seq<string>)
    requires Within(nodes, es) && inEdges.Keys == nodes
    requires Unsorted(inEdges, Elems(sorted), left)
    requires Kahn(left, inDegree, Elems(sorted), {}, {})
    requires forall id :: id in nodes ==> ParentsOf(es, id) == inEdges[id]
    requires ReadyRun(nodes, es, sorted)
    ensures |sorted| == |nodes| <==> Acyclic(es)
    ensures |sorted| == |nodes| ==> IsTopological(nodes, es, sorted)
  {
    CompleteBySize(nodes, es, sorted);
    if Elems(sorted) == nodes {
      ReadyRunsAreTopologicalOrders(nodes, es, sorted);
      TopologicalImpliesAcyclic(nodes, es, sorted);
    } else {
      if Acyclic(es) {
        SomeNodeIsReady(nodes, es, Elems(sorted));
      }
    }
  }

  lemma CompleteBySize(nodes: set<string>, es: set<Edge>, s: seq<string>)
    requires ReadyRun(nodes, es, s) && Elems(s) <= nodes
    ensures |s| == |nodes| <==> Elems(s) == nodes
  {
    NoDupSize(s);
    if |s| == |nodes| {
      SubsetOfSameSize(Elems(s), nodes);
    }
  }

}
