/** Finite directed graphs: reachability, acyclicity, insertion of edges, topological
    orders and the runs of a scheduler. */
module Graphs {
  import opened Wrappers

  type Edge = (string, string)

  ghost function Elems<T>(s: seq<T>): set<T> {
    set x | x in s
  }

  ghost predicate NoDup<T>(s: seq<T>) {
    forall i, j :: 0 <= i < j < |s| ==> s[i] != s[j]
  }

  lemma AppendAssociates<T>(s: seq<T>, t: seq<T>, x: T)
    ensures s + (t + [x]) == s + t + [x]
  {
  }

  lemma ConcatAssociates<T>(a: seq<T>, b: seq<T>, c: seq<T>)
    ensures a + b + c == a + (b + c)
  {
  }

  lemma SplitLast<T>(s: seq<T>)
    requires |s| > 0
    ensures s == s[..|s| - 1] + [s[|s| - 1]]
  {
  }

  lemma SplitAt<T>(s: seq<T>, n: nat)
    requires n <= |s|
    ensures s == s[..n] + s[n..]
  {
  }

  lemma NextPrefix<T>(s: seq<T>, n: nat)
    requires n < |s|
    ensures s[..n + 1] == s[..n] + [s[n]] && s[..n + 1][..n] == s[..n]
  {
  }

  lemma AppendFacts<T>(s: seq<T>, x: T)
    ensures Elems(s + [x]) == Elems(s) + {x}
    ensures NoDup(s) && x !in Elems(s) ==> NoDup(s + [x])
  {
    forall y
      ensures y in Elems(s + [x]) <==> y in Elems(s) + {x}
    {
      assert y in s + [x] <==> y in s || y == x;
    }
    if NoDup(s) && x !in Elems(s) {
      forall i, j | 0 <= i < j < |s + [x]|
        ensures (s + [x])[i] != (s + [x])[j]
      {
        assert s[i] in s;
      }
    }
  }

  lemma EmptyElems<T>(s: seq<T>)
    ensures Elems(s) == {} <==> s == []
  {
    if s != [] {
      assert s[0] in Elems(s);
    }
  }

  lemma HeadFacts<T>(s: seq<T>)
    requires |s| > 0
    ensures Elems(s) == {s[0]} + Elems(s[1..])
    ensures NoDup(s) ==> NoDup(s[1..]) && s[0] !in Elems(s[1..])
  {
    var t := s[1..];
    forall y
      ensures y in Elems(s) <==> y in {s[0]} + Elems(t)
    {
      assert s == [s[0]] + t;
      assert y in s <==> y == s[0] || y in t;
    }
    if NoDup(s) {
      forall i | 0 <= i < |t|
        ensures t[i] != s[0]
      {
        assert t[i] == s[i + 1];
      }
      forall i, j | 0 <= i < j < |t|
        ensures t[i] != t[j]
      {
        assert t[i] == s[i + 1] && t[j] == s[j + 1];
      }
    }
  }

  lemma ConcatFacts<T>(s: seq<T>, t: seq<T>)
    ensures Elems(s + t) == Elems(s) + Elems(t)
    ensures NoDup(s) && NoDup(t) && Elems(s) !! Elems(t) ==> NoDup(s + t)
  {
    forall y
      ensures y in Elems(s + t) <==> y in Elems(s) + Elems(t)
    {
      assert y in s + t <==> y in s || y in t;
    }
    if NoDup(s) && NoDup(t) && Elems(s) !! Elems(t) {
      forall i, j | 0 <= i < j < |s + t|
        ensures (s + t)[i] != (s + t)[j]
      {
        if i < |s| <= j {
          assert s[i] in Elems(s) && t[j - |s|] in Elems(t);
        }
      }
    }
  }

  /** One more element of a list of distinct elements. */
  lemma PrefixFacts<T>(s: seq<T>, i: nat)
    requires NoDup(s) && i < |s|
    ensures Elems(s[..i + 1]) == Elems(s[..i]) + {s[i]}
    ensures s[i] !in Elems(s[..i]) && s[i] in Elems(s)
  {
    assert s[..i + 1] == s[..i] + [s[i]];
    AppendFacts(s[..i], s[i]);
    forall k | 0 <= k < i
      ensures s[..i][k] != s[i]
    {
      assert s[k] != s[i];
    }
  }

  lemma {:induction false} NoDupSize<T>(list: seq<T>)
    requires NoDup(list)
    ensures |Elems(list)| == |list|
    decreases |list|
  {
    if |list| > 0 {
      HeadFacts(list);
      NoDupSize(list[1..]);
    } else {
      assert Elems(list) == {};
    }
  }

  lemma SubsetOfSameSize<T>(a: set<T>, b: set<T>)
    requires a <= b && |a| == |b|
    ensures a == b
  {
    assert b == a + (b - a);
  }

  lemma SmallerSet<T>(a: set<T>, b: set<T>)
    requires a < b
    ensures |a| < |b|
  {
    assert b == a + (b - a);
    assert b - a != {};
  }

  /** The members of a set in some order: every order is a possible result, as
      for a range over a Go map. */
  method InSomeOrder<T(==)>(s: set<T>) returns (list: seq<T>)
    ensures NoDup(list) && Elems(list) == s
  {
    list := [];
    var rest := s;
    while rest != {}
      invariant rest <= s && NoDup(list) && Elems(list) == s - rest
      decreases rest
    {
      var x :| x in rest;
      AppendFacts(list, x);
      list, rest := list + [x], rest - {x};
    }
  }

  ghost predicate IsPath(es: set<Edge>, path: seq<string>) {
    && |path| > 0
    && forall i :: 0 <= i < |path| - 1 ==> (path[i], path[i + 1]) in es
  }

  ghost predicate Connects(es: set<Edge>, path: seq<string>, a: string, b: string) {
    IsPath(es, path) && path[0] == a && path[|path| - 1] == b
  }

  /** There is a path, possibly of no edges, from a to b. */
  ghost predicate Reaches(es: set<Edge>, a: string, b: string) {
    exists path :: Connects(es, path, a, b)
  }

  /** No edge leads back to its own source. */
  ghost predicate Acyclic(es: set<Edge>) {
    forall a, b {:trigger (a, b) in es} | (a, b) in es :: !Reaches(es, b, a)
  }

  ghost predicate Within(nodes: set<string>, es: set<Edge>) {
    forall e {:trigger e in es} | e in es :: e.0 in nodes && e.1 in nodes
  }

  ghost function ParentsOf(es: set<Edge>, id: string): set<string> {
    set e | e in es && e.1 == id :: e.0
  }

  // ---------------------------------------------------------------- reachability

  lemma ReachesSelf(es: set<Edge>, a: string)
    ensures Reaches(es, a, a)
  {
    assert Connects(es, [a], a, a);
  }

  lemma ReachesStep(es: set<Edge>, a: string, b: string, c: string)
    requires Reaches(es, a, b) && (b, c) in es
    ensures Reaches(es, a, c)
  {
    var path :| Connects(es, path, a, b);
    assert Connects(es, path + [c], a, c);
  }

  lemma ReachesTransitive(es: set<Edge>, a: string, b: string, c: string)
    requires Reaches(es, a, b) && Reaches(es, b, c)
    ensures Reaches(es, a, c)
  {
    var left :| Connects(es, left, a, b);
    var right :| Connects(es, right, b, c);
    var path := left + right[1..];
    forall i | 0 <= i < |path| - 1
      ensures (path[i], path[i + 1]) in es
    {
      if i >= |left| - 1 {
        assert path[i] == right[i - |left| + 1];
      }
    }
    assert Connects(es, path, a, c);
  }

  lemma ReachesMonotone(es: set<Edge>, more: set<Edge>, a: string, b: string)
    requires es <= more && Reaches(es, a, b)
    ensures Reaches(more, a, b)
  {
    var path :| Connects(es, path, a, b);
    assert Connects(more, path, a, b);
  }

  /** The last edge of a non-trivial path. */
  lemma ReachesLastEdge(es: set<Edge>, a: string, b: string) returns (m: string)
    requires Reaches(es, a, b) && a != b
    ensures Reaches(es, a, m) && (m, b) in es
  {
    var path :| Connects(es, path, a, b);
    m := path[|path| - 2];
    assert Connects(es, path[..|path| - 1], a, m);
  }

  /** A set that holds a and is closed under successors holds all that a reaches. */
  lemma {:induction false} ClosedSetHoldsReached(es: set<Edge>, s: set<string>, path: seq<string>)
    requires IsPath(es, path) && path[0] in s
    requires forall e {:trigger e in es} | e in es && e.0 in s :: e.1 in s
    ensures path[|path| - 1] in s
    decreases |path|
  {
    if |path| > 1 {
      assert (path[0], path[1]) in es;
      assert forall i :: 0 <= i < |path[1..]| - 1 ==>
        (path[1..][i], path[1..][i + 1]) == (path[i + 1], path[i + 2]);
      ClosedSetHoldsReached(es, s, path[1..]);
    }
  }

  lemma ClosedSetHoldsReachable(es: set<Edge>, s: set<string>, a: string, b: string)
    requires a in s && Reaches(es, a, b)
    requires forall e {:trigger e in es} | e in es && e.0 in s :: e.1 in s
    ensures b in s
  {
    var path :| Connects(es, path, a, b);
    ClosedSetHoldsReached(es, s, path);
  }

  // ---------------------------------------------------------------- inserting edges

  lemma AcyclicSubset(es: set<Edge>, more: set<Edge>)
    requires es <= more && Acyclic(more)
    ensures Acyclic(es)
  {
    forall a, b | (a, b) in es
      ensures !Reaches(es, b, a)
    {
      if Reaches(es, b, a) {
        ReachesMonotone(es, more, b, a);
      }
    }
  }

  /** A path that may use the new edge either avoids it or passes through it. */
  lemma {:induction false} PathWithNewEdge(es: set<Edge>, p: string, c: string, path: seq<string>)
    requires IsPath(es + {(p, c)}, path)
    ensures
      var a, b := path[0], path[|path| - 1];
      Reaches(es, a, b) || (Reaches(es, a, p) && Reaches(es, c, b))
    decreases |path|
  {
    var a, b := path[0], path[|path| - 1];
    if |path| == 1 {
      ReachesSelf(es, a);
    } else {
      var front := path[..|path| - 1];
      var m := front[|front| - 1];
      PathWithNewEdge(es, p, c, front);
      assert (m, b) in es + {(p, c)};
      if (m, b) in es {
        if Reaches(es, a, m) {
          ReachesStep(es, a, m, b);
        } else {
          ReachesStep(es, c, m, b);
        }
      } else {
        ReachesSelf(es, c);
      }
    }
  }

  /** The incremental cycle check is exact: the new edge closes a cycle if and
      only if its target already reaches its source. */
  lemma InsertKeepsAcyclicIff(es: set<Edge>, p: string, c: string)
    requires Acyclic(es)
    ensures Acyclic(es + {(p, c)}) <==> !Reaches(es, c, p)
  {
    var more := es + {(p, c)};
    if Reaches(es, c, p) {
      ReachesMonotone(es, more, c, p);
      assert (p, c) in more;
    } else {
      forall a, b | (a, b) in more
        ensures !Reaches(more, b, a)
      {
        if Reaches(more, b, a) {
          var path :| Connects(more, path, b, a);
          PathWithNewEdge(es, p, c, path);
          if (a, b) in es {
            ReachesStep(es, c, a, b);
            ReachesTransitive(es, c, b, p);
          }
        }
      }
    }
  }

  /** Inserting a list of edges in order, refusing the list at the first edge
      whose target already reaches its source. */
  ghost function InsertAll(es: set<Edge>, list: seq<Edge>): Option<set<Edge>>
    decreases |list|
  {
    if list == [] then Some(es)
    else if Reaches(es, list[0].1, list[0].0) then None
    else InsertAll(es + {list[0]}, list[1..])
  }

  lemma {:induction false} InsertAllIsUnion(es: set<Edge>, list: seq<Edge>)
    requires Acyclic(es)
    ensures InsertAll(es, list) ==
            if Acyclic(es + Elems(list)) then Some(es + Elems(list)) else None
    decreases |list|
  {
    if list == [] {
      assert es + Elems(list) == es;
    } else {
      var (p, c) := list[0];
      InsertKeepsAcyclicIff(es, p, c);
      assert es + Elems(list) == (es + {list[0]}) + Elems(list[1..]);
      if Reaches(es, c, p) {
        if Acyclic(es + Elems(list)) {
          AcyclicSubset(es + {list[0]}, es + Elems(list));
        }
      } else {
        InsertAllIsUnion(es + {list[0]}, list[1..]);
      }
    }
  }

  /** Whether a collection of edges is accepted, and the graph it leaves, do
      not depend on the order or the repetition of the insertions. */
  lemma InsertionOrderIsIrrelevant(es: set<Edge>, list: seq<Edge>, other: seq<Edge>)
    requires Acyclic(es)
    requires Elems(list) == Elems(other)
    ensures InsertAll(es, list) == InsertAll(es, other)
  {
    InsertAllIsUnion(es, list);
    InsertAllIsUnion(es, other);
  }

  // ---------------------------------------------------------------- scheduling

  /** The nodes not yet done all of whose parents are done. */
  ghost function Ready(nodes: set<string>, es: set<Edge>, done: set<string>): set<string> {
    set id | id in nodes && id !in done && ParentsOf(es, id) <= done
  }

  /** Every member of s is ready once the members before it are done. */
  ghost predicate ReadyRun(nodes: set<string>, es: set<Edge>, s: seq<string>) {
    forall i | 0 <= i < |s| :: s[i] in Ready(nodes, es, Elems(s[..i]))
  }

  ghost predicate IsTopological(nodes: set<string>, es: set<Edge>, s: seq<string>) {
    && NoDup(s)
    && Elems(s) == nodes
    && forall i, j :: 0 <= i < |s| && 0 <= j < |s| && (s[i], s[j]) in es ==> i < j
  }

  ghost predicate ParentClosed(es: set<Edge>, done: set<string>) {
    forall e {:trigger e in es} | e in es && e.1 in done :: e.0 in done
  }

  /** Every non-empty set of nodes of an acyclic graph has a member without a
      parent in the set. */
  lemma {:induction false} MinimalMember(es: set<Edge>, s: set<string>) returns (m: string)
    requires Acyclic(es) && s != {}
    ensures m in s && ParentsOf(es, m) !! s
    decreases s
  {
    var x :| x in s;
    var above := set y | y in s && y != x && Reaches(es, y, x);
    if above == {} {
      m := x;
      forall y | y in ParentsOf(es, x)
        ensures y !in s
      {
        assert (y, x) in es;
        ReachesSelf(es, y);
        ReachesStep(es, y, y, x);
        assert y in s && y != x ==> y in above;
      }
    } else {
      assert x !in above;
      m := MinimalMember(es, above);
      forall y | y in ParentsOf(es, m)
        ensures y !in s
      {
        assert (y, m) in es;
        ReachesSelf(es, y);
        ReachesStep(es, y, y, m);
        ReachesTransitive(es, y, m, x);
      }
    }
  }

  /** While any node is not done, some node is ready. */
  lemma SomeNodeIsReady(nodes: set<string>, es: set<Edge>, done: set<string>)
    requires Within(nodes, es) && Acyclic(es)
    requires !(nodes <= done)
    ensures Ready(nodes, es, done) != {}
  {
    var x :| x in nodes && x !in done;
    assert x in nodes - done;
    var m := MinimalMember(es, nodes - done);
    assert m in Ready(nodes, es, done);
  }

  /** Completing a ready node keeps the done set closed under parents. */
  lemma CompletingReadyKeepsParentClosed(nodes: set<string>, es: set<Edge>, done: set<string>, id: string)
    requires ParentClosed(es, done)
    requires id in Ready(nodes, es, done)
    ensures ParentClosed(es, done + {id})
  {
    forall e | e in es && e.1 in done + {id}
      ensures e.0 in done + {id}
    {
      if e.1 == id {
        assert e.0 in ParentsOf(es, id);
      }
    }
  }

  /** Nodes that are ready together do not depend on one another. */
  lemma ReadyNodesAreIndependent(nodes: set<string>, es: set<Edge>, done: set<string>, a: string, b: string)
    requires ParentClosed(es, done)
    requires a in Ready(nodes, es, done) && b in Ready(nodes, es, done)
    requires a != b
    ensures !Reaches(es, a, b)
  {
    if Reaches(es, a, b) {
      var m := ReachesLastEdge(es, a, b);
      assert m in ParentsOf(es, b);
      var path :| Connects(es, path, a, m);
      ParentClosedHoldsAncestors(es, done, path);
    }
  }

  lemma {:induction false} ParentClosedHoldsAncestors(es: set<Edge>, done: set<string>, path: seq<string>)
    requires ParentClosed(es, done)
    requires IsPath(es, path) && path[|path| - 1] in done
    ensures path[0] in done
    decreases |path|
  {
    if |path| > 1 {
      var n := |path| - 1;
      assert (path[n - 1], path[n]) in es;
      ParentClosedHoldsAncestors(es, done, path[..n]);
    }
  }

  /** Without a parent-closed done set two ready nodes may depend on one another. */
  lemma ReadyNodesMayDependOtherwise()
    ensures
      var es := {("a", "b"), ("b", "c")};
      var ready := Ready({"a", "b", "c"}, es, {"b"});
      "a" in ready && "c" in ready && Reaches(es, "a", "c")
  {
    var es := {("a", "b"), ("b", "c")};
    assert "abc"[0..1] == "a" && "abc"[1..2] == "b";
    assert "a"[0] != "b"[0] && "a"[0] != "c"[0] && "b"[0] != "c"[0];
    assert ParentsOf(es, "a") == {};
    assert ParentsOf(es, "c") == {"b"};
    assert Connects(es, ["a", "b", "c"], "a", "c");
  }

  /** The complete runs of the scheduler are exactly the topological orders. */
  lemma ReadyRunsAreTopologicalOrders(nodes: set<string>, es: set<Edge>, s: seq<string>)
    requires Within(nodes, es)
    ensures (ReadyRun(nodes, es, s) && Elems(s) == nodes) <==> IsTopological(nodes, es, s)
  {
    if ReadyRun(nodes, es, s) && Elems(s) == nodes {
      forall i, j | 0 <= i < j < |s|
        ensures s[i] != s[j]
      {
        assert s[j] in Ready(nodes, es, Elems(s[..j]));
        assert s[i] in s[..j];
      }
      forall i, j | 0 <= i < |s| && 0 <= j < |s| && (s[i], s[j]) in es
        ensures i < j
      {
        assert s[j] in Ready(nodes, es, Elems(s[..j]));
        assert s[i] in ParentsOf(es, s[j]);
        var k :| 0 <= k < j && s[..j][k] == s[i];
        assert s[k] == s[i];
      }
    }
    if IsTopological(nodes, es, s) {
      forall i | 0 <= i < |s|
        ensures s[i] in Ready(nodes, es, Elems(s[..i]))
      {
        assert s[i] in Elems(s);
        forall y | y in ParentsOf(es, s[i])
          ensures y in Elems(s[..i])
        {
          assert (y, s[i]) in es;
          assert y in Elems(s);
          var k :| 0 <= k < |s| && s[k] == y;
          assert s[..i][k] == y;
        }
      }
    }
  }

  /** No choice of the scheduler is a dead end: every run extends to a complete one. */
  lemma {:induction false} ReadyRunDrains(nodes: set<string>, es: set<Edge>, s: seq<string>)
    returns (whole: seq<string>)
    requires Within(nodes, es) && Acyclic(es)
    requires ReadyRun(nodes, es, s)
    ensures s <= whole && ReadyRun(nodes, es, whole) && Elems(whole) == nodes
    decreases nodes - Elems(s)
  {
    if nodes <= Elems(s) {
      forall x | x in Elems(s)
        ensures x in nodes
      {
        var i :| 0 <= i < |s| && s[i] == x;
        assert s[i] in Ready(nodes, es, Elems(s[..i]));
      }
      whole := s;
    } else {
      SomeNodeIsReady(nodes, es, Elems(s));
      var id :| id in Ready(nodes, es, Elems(s));
      var next := s + [id];
      forall i | 0 <= i < |next|
        ensures next[i] in Ready(nodes, es, Elems(next[..i]))
      {
        if i < |s| {
          assert next[..i] == s[..i];
        } else {
          assert next[..i] == s;
        }
      }
      assert id in Elems(next);
      assert Elems(s) <= Elems(next);
      whole := ReadyRunDrains(nodes, es, next);
    }
  }

  /** A graph with a topological order has no cycle. */
  lemma TopologicalImpliesAcyclic(nodes: set<string>, es: set<Edge>, s: seq<string>)
    requires Within(nodes, es) && IsTopological(nodes, es, s)
    ensures Acyclic(es)
  {
    forall a, b | (a, b) in es
      ensures !Reaches(es, b, a)
    {
      assert a in Elems(s) && b in Elems(s);
      var i :| 0 <= i < |s| && s[i] == a;
      var j :| 0 <= j < |s| && s[j] == b;
      assert (s[i], s[j]) in es;
      var later := Elems(s[j..]);
      assert s[j] == s[j..][0];
      forall f | f in es && f.0 in later
        ensures f.1 in later
      {
        var k :| 0 <= k < |s[j..]| && s[j..][k] == f.0;
        assert f.1 in Elems(s);
        var l :| 0 <= l < |s| && s[l] == f.1;
        assert (s[j + k], s[l]) in es;
        assert s[j..][l - j] == f.1;
      }
      forall k | 0 <= k < |s[j..]|
        ensures s[j..][k] != a
      {
        assert s[j + k] != s[i];
      }
      if Reaches(es, b, a) {
        ClosedSetHoldsReachable(es, later, b, a);
      }
    }
  }
}
