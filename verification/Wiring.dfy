/** Task instances grouped by iteration key, the edges they are meant to have,
    and the loops that add those edges to a task graph. */
module Wiring {
  import opened Wrappers
  import opened Graphs
  import opened Dags
  import opened RunModel

  /** An instance before its dependencies are resolved. */
  function Blank(t: TaskDef, key: string): TaskInstance {
    var p := if key in t.artifacts then t.artifacts[key] else Paths([], []);
    TaskInstance(t, key, MakeFullID(key, t.id), [], p.readPaths, p.writePaths)
  }

  function Unwired(ti: TaskInstance): TaskInstance {
    ti.(dependsOn := [])
  }

  // ---------------------------------------------------------------- intended edges

  ghost predicate DistinctIDs(slots: seq<TaskInstance>) {
    forall i, j | 0 <= i < j < |slots| :: slots[i].fullID != slots[j].fullID
  }

  ghost function IDs(slots: seq<TaskInstance>): set<string> {
    set ti | ti in slots :: ti.fullID
  }

  /** w writes a file that the other instance r reads. */
  ghost predicate Feeds(w: TaskInstance, r: TaskInstance) {
    w.fullID != r.fullID && exists path :: path != "" && path in w.writePaths && path in r.readPaths
  }

  ghost function ArtifactEdges(slots: seq<TaskInstance>): set<Edge> {
    set w, r | w in slots && r in slots && Feeds(w, r) :: (w.fullID, r.fullID)
  }

  /** The edges into the given nodes. */
  ghost function Into(es: set<Edge>, ids: set<string>): set<Edge> {
    set e | e in es && e.1 in ids
  }

  ghost function Fan(parents: set<string>, child: string): set<Edge> {
    set p | p in parents :: (p, child)
  }

  lemma FanInto(es: set<Edge>, ids: set<string>, id: string)
    ensures Into(es, ids + {id}) == Into(es, ids) + Fan(ParentsOf(es, id), id)
  {
    forall e
      ensures e in Into(es, ids + {id}) <==> e in Into(es, ids) + Fan(ParentsOf(es, id), id)
    {
      assert e == (e.0, e.1);
      if e in Fan(ParentsOf(es, id), id) {
        var f :| f in es && f.1 == id && f.0 == e.0;
        assert f == (f.0, f.1);
      }
    }
  }

  // ---------------------------------------------------------------- adding edges

  /** Adds an edge from every listed parent; the order of the parents does not
      matter for whether all edges are accepted. */
  method AddEdges(dag: Dag, parents: seq<string>, child: string) returns (r: Result<(), DagError>)
    requires dag.Valid() && child in dag.nodes
    modifies dag`edges, dag`inEdges
    ensures dag.Valid()
    ensures r.Ok? <==> Elems(parents) <= dag.nodes.Keys && Acyclic(old(dag.EdgeSet()) + Fan(Elems(parents), child))
    ensures r.Ok? ==> dag.EdgeSet() == old(dag.EdgeSet()) + Fan(Elems(parents), child)
  {
    ghost var before := dag.EdgeSet();
    EmptyElems(parents[..0]);
    assert before + Fan({}, child) == before;
    for j := 0 to |parents|
      invariant dag.Valid()
      invariant Elems(parents[..j]) <= dag.nodes.Keys
      invariant dag.EdgeSet() == before + Fan(Elems(parents[..j]), child)
    {
      assert parents[j] in Elems(parents);
      assert parents[..j + 1] == parents[..j] + [parents[j]];
      AppendFacts(parents[..j], parents[j]);
      FanGrows(before, Elems(parents[..j]), parents[j], child);
      var added := dag.AddEdge(parents[j], child);
      if added.Err? {
        if parents[j] in dag.nodes {
          PrefixElems(parents, j + 1);
          FanMonotone(before, Elems(parents[..j + 1]), Elems(parents), child);
        }
        return Err(added.error);
      }
    }
    assert parents[..|parents|] == parents;
    return Ok(());
  }

  lemma PrefixElems(s: seq<string>, n: nat)
    requires n <= |s|
    ensures Elems(s[..n]) <= Elems(s)
  {
    forall x | x in Elems(s[..n])
      ensures x in Elems(s)
    {
      var i :| 0 <= i < n && s[..n][i] == x;
      assert s[i] == x;
    }
  }

  lemma FanGrows(es: set<Edge>, parents: set<string>, p: string, child: string)
    ensures es + Fan(parents + {p}, child) == es + Fan(parents, child) + {(p, child)}
  {
  }

  // ---------------------------------------------------------------- buckets

  ghost predicate At(buckets: Buckets, k: string, i: int) {
    k in buckets && 0 <= i < |buckets[k]|
  }

  ghost predicate HasPlace(buckets: Buckets, ti: TaskInstance) {
    exists k, i :: At(buckets, k, i) && Unwired(buckets[k][i]) == ti
  }

  /** The buckets hold every slot, each at one place, under its iteration key. */
  ghost predicate Placed(buckets: Buckets, slots: seq<TaskInstance>) {
    && (forall k, i {:trigger At(buckets, k, i)} | At(buckets, k, i) ::
          buckets[k][i].key == k && Unwired(buckets[k][i]) in slots)
    && (forall ti {:trigger HasPlace(buckets, ti)} | ti in slots :: HasPlace(buckets, ti))
    && (forall k, i, l, j {:trigger At(buckets, k, i), At(buckets, l, j)} | At(buckets, k, i) && At(buckets, l, j) ::
          buckets[k][i].fullID == buckets[l][j].fullID ==> k == l && i == j)
  }

  /** The dependencies listed on each instance are the given ones. */
  ghost predicate Lists(buckets: Buckets, deps: map<string, set<string>>) {
    forall k, i {:trigger At(buckets, k, i)} | At(buckets, k, i) ::
      buckets[k][i].fullID in deps && Elems(buckets[k][i].dependsOn) == deps[buckets[k][i].fullID]
  }

  function WithDeps(buckets: Buckets, k: string, i: int, deps: seq<string>): Buckets
    requires k in buckets && 0 <= i < |buckets[k]|
  {
    buckets[k := buckets[k][i := buckets[k][i].(dependsOn := deps)]]
  }

  /** The two differ only in the dependencies of their instances. */
  ghost predicate SameSlots(buckets: Buckets, more: Buckets) {
    forall l, j {:trigger At(more, l, j)} {:trigger At(buckets, l, j)} ::
      (At(more, l, j) <==> At(buckets, l, j)) && (At(more, l, j) ==> Unwired(more[l][j]) == Unwired(buckets[l][j]))
  }

  lemma SameSlotsPlaced(buckets: Buckets, more: Buckets, slots: seq<TaskInstance>)
    requires Placed(buckets, slots) && SameSlots(buckets, more)
    ensures Placed(more, slots)
  {
    forall l, j | At(more, l, j)
      ensures more[l][j].key == l && Unwired(more[l][j]) in slots
    {
      assert At(buckets, l, j);
      UnwiredFields(more[l][j], buckets[l][j]);
    }
    forall ti | ti in slots
      ensures HasPlace(more, ti)
    {
      assert HasPlace(buckets, ti);
      var l, j :| At(buckets, l, j) && Unwired(buckets[l][j]) == ti;
      assert At(more, l, j);
    }
    forall k, i, l, j | At(more, k, i) && At(more, l, j) && more[k][i].fullID == more[l][j].fullID
      ensures k == l && i == j
    {
      assert At(buckets, k, i) && At(buckets, l, j);
      UnwiredFields(more[k][i], buckets[k][i]);
      UnwiredFields(more[l][j], buckets[l][j]);
    }
  }

  lemma UnwiredFields(a: TaskInstance, b: TaskInstance)
    requires Unwired(a) == Unwired(b)
    ensures a.def == b.def && a.key == b.key && a.fullID == b.fullID
    ensures a.readPaths == b.readPaths && a.writePaths == b.writePaths
  {
    assert Unwired(a).fullID == a.fullID && Unwired(b).fullID == b.fullID;
    assert Unwired(a).key == a.key && Unwired(b).key == b.key;
    assert Unwired(a).def == a.def && Unwired(b).def == b.def;
    assert Unwired(a).readPaths == a.readPaths && Unwired(b).readPaths == b.readPaths;
    assert Unwired(a).writePaths == a.writePaths && Unwired(b).writePaths == b.writePaths;
  }

  lemma WithDepsFacts(buckets: Buckets, slots: seq<TaskInstance>, was: map<string, set<string>>,
                      k: string, i: int, deps: seq<string>)
    requires Placed(buckets, slots) && Lists(buckets, was) && At(buckets, k, i)
    ensures Placed(WithDeps(buckets, k, i, deps), slots)
    ensures SameSlots(buckets, WithDeps(buckets, k, i, deps))
    ensures Lists(WithDeps(buckets, k, i, deps), was[buckets[k][i].fullID := Elems(deps)])
  {
    var more := WithDeps(buckets, k, i, deps);
    forall l, j
      ensures At(more, l, j) <==> At(buckets, l, j)
      ensures At(more, l, j) ==> Unwired(more[l][j]) == Unwired(buckets[l][j])
    {
    }
    SameSlotsPlaced(buckets, more, slots);
    WithDepsLists(buckets, slots, was, k, i, deps);
  }

  lemma WithDepsLists(buckets: Buckets, slots: seq<TaskInstance>, was: map<string, set<string>>,
                      k: string, i: int, deps: seq<string>)
    requires Placed(buckets, slots) && Lists(buckets, was) && At(buckets, k, i)
    ensures Lists(WithDeps(buckets, k, i, deps), was[buckets[k][i].fullID := Elems(deps)])
  {
    var more := WithDeps(buckets, k, i, deps);
    var now := was[buckets[k][i].fullID := Elems(deps)];
    forall l, j | At(more, l, j)
      ensures more[l][j].fullID in now && Elems(more[l][j].dependsOn) == now[more[l][j].fullID]
    {
      assert At(buckets, l, j);
      if l == k && j == i {
      } else {
        assert more[l][j] == buckets[l][j];
        assert buckets[l][j].fullID != buckets[k][i].fullID;
      }
    }
  }

  // ---------------------------------------------------------------- ranging over the buckets

  /** A list of all places of the buckets. */
  ghost predicate AllPlaces(buckets: Buckets, places: seq<(string, nat)>) {
    forall p {:trigger p in places} :: p in places <==> At(buckets, p.0, p.1)
  }

  lemma PlaceIsAt(buckets: Buckets, more: Buckets, places: seq<(string, nat)>, n: nat)
    requires AllPlaces(buckets, places) && SameSlots(buckets, more) && n < |places|
    ensures At(buckets, places[n].0, places[n].1) && At(more, places[n].0, places[n].1)
  {
    assert places[n] in places;
  }

  /** The places of all instances: the keys in any order, each list front to back. */
  method Places(buckets: Buckets) returns (places: seq<(string, nat)>)
    ensures AllPlaces(buckets, places)
  {
    places := [];
    var keys := InSomeOrder(buckets.Keys);
    for n := 0 to |keys|
      invariant forall p {:trigger p in places} :: p in places <==> At(buckets, p.0, p.1) && p.0 in Elems(keys[..n])
    {
      PrefixFacts(keys, n);
      var k := keys[n];
      var list := seq(|buckets[k]|, i requires 0 <= i < |buckets[k]| => (k, i as nat));
      forall p
        ensures p in list <==> At(buckets, p.0, p.1) && p.0 == k
      {
        if At(buckets, p.0, p.1) && p.0 == k {
          assert list[p.1] == p;
        }
      }
      places := places + list;
    }
    assert keys[..|keys|] == keys;
  }

  // ---------------------------------------------------------------- file-derived edges

  ghost function WriterIDs(slots: seq<TaskInstance>, path: string): set<string> {
    set ti | ti in slots && path != "" && path in ti.writePaths :: ti.fullID
  }

  ghost function Lookup(m: map<string, seq<string>>, path: string): set<string> {
    if path in m then Elems(m[path]) else {}
  }

  ghost predicate IndexesWriters(m: map<string, seq<string>>, slots: seq<TaskInstance>) {
    forall path {:trigger Lookup(m, path)} {:trigger WriterIDs(slots, path)} ::
        Lookup(m, path) == WriterIDs(slots, path)
  }

  /** Which instances write each path, in the order the map range visits them. */
  method WritersByPath(buckets: Buckets, ghost slots: seq<TaskInstance>) returns (m: map<string, seq<string>>)
    requires Placed(buckets, slots)
    ensures IndexesWriters(m, slots)
  {
    m := map[];
    var places := Places(buckets);
    ghost var seen: seq<TaskInstance> := [];
    for n := 0 to |places|
      invariant |seen| == n
      invariant forall j | 0 <= j < n :: SeenAt(buckets, places[j], seen[j])
      invariant forall path {:trigger Lookup(m, path)} :: Lookup(m, path) == WriterIDs(seen, path)
    {
      assert places[n] in places;
      var ti := buckets[places[n].0][places[n].1];
      m := AddWriter(m, ti, seen);
      seen := seen + [Unwired(ti)];
    }
    SeenIsSlots(buckets, slots, places, seen);
    forall path
      ensures Lookup(m, path) == WriterIDs(slots, path)
    {
      assert Lookup(m, path) == WriterIDs(seen, path);
      assert WriterIDs(seen, path) == WriterIDs(slots, path);
    }
  }

  ghost predicate SeenAt(buckets: Buckets, place: (string, nat), ti: TaskInstance) {
    At(buckets, place.0, place.1) && ti == Unwired(buckets[place.0][place.1])
  }

  lemma SeenIsSlots(buckets: Buckets, slots: seq<TaskInstance>, places: seq<(string, nat)>, seen: seq<TaskInstance>)
    requires Placed(buckets, slots)
    requires AllPlaces(buckets, places)
    requires |seen| == |places| && forall j | 0 <= j < |places| :: SeenAt(buckets, places[j], seen[j])
    ensures forall ti :: ti in seen <==> ti in slots
  {
    forall ti | ti in slots
      ensures ti in seen
    {
      assert HasPlace(buckets, ti);
      var k, i :| At(buckets, k, i) && Unwired(buckets[k][i]) == ti;
      assert (k, i as nat) in places;
      var j :| 0 <= j < |places| && places[j] == (k, i);
      assert SeenAt(buckets, places[j], seen[j]);
    }
    forall j | 0 <= j < |seen|
      ensures seen[j] in slots
    {
      assert SeenAt(buckets, places[j], seen[j]);
    }
  }

  method AddWriter(m: map<string, seq<string>>, ti: TaskInstance, ghost seen: seq<TaskInstance>)
    returns (more: map<string, seq<string>>)
    requires forall path {:trigger Lookup(m, path)} :: Lookup(m, path) == WriterIDs(seen, path)
    ensures forall path {:trigger Lookup(more, path)} :: Lookup(more, path) == WriterIDs(seen + [Unwired(ti)], path)
  {
    more := m;
    for n := 0 to |ti.writePaths|
      invariant forall path {:trigger Lookup(more, path)} ::
        Lookup(more, path)
            == WriterIDs(seen, path) + (if path != "" && path in ti.writePaths[..n] then {ti.fullID} else {})
    {
      var path := ti.writePaths[n];
      assert ti.writePaths[..n + 1] == ti.writePaths[..n] + [path];
      if path == "" {
        continue;
      }
      var have := if path in more then more[path] else [];
      AppendFacts(have, ti.fullID);
      ghost var was := more;
      more := more[path := have + [ti.fullID]];
      forall p
        ensures Lookup(more, p) == Lookup(was, p) + (if p == path then {ti.fullID} else {})
      {
        EmptyElems<string>([]);
      }
    }
    assert ti.writePaths[..|ti.writePaths|] == ti.writePaths;
    forall path
      ensures Lookup(more, path) == WriterIDs(seen + [Unwired(ti)], path)
    {
      WriterIDsGrow(seen, Unwired(ti), path);
    }
  }

  lemma WriterIDsGrow(seen: seq<TaskInstance>, ti: TaskInstance, path: string)
    ensures WriterIDs(seen + [ti], path) ==
            WriterIDs(seen, path) + (if path != "" && path in ti.writePaths then {ti.fullID} else {})
  {
    forall x
      ensures x in seen + [ti] <==> x in seen || x == ti
    {
    }
  }

  function Candidates(paths: seq<string>, m: map<string, seq<string>>): seq<string> {
    if paths == [] then []
    else (if paths[0] in m then m[paths[0]] else []) + Candidates(paths[1..], m)
  }

  lemma {:induction false} CandidatesFacts(paths: seq<string>, m: map<string, seq<string>>)
    ensures forall w :: w in Elems(Candidates(paths, m)) <==> exists path :: path in paths && w in Lookup(m, path)
    decreases |paths|
  {
    if paths != [] {
      var first := if paths[0] in m then m[paths[0]] else [];
      EmptyElems<string>([]);
      assert Elems(first) == Lookup(m, paths[0]);
      ConcatFacts(first, Candidates(paths[1..], m));
      CandidatesFacts(paths[1..], m);
      assert paths == [paths[0]] + paths[1..];
    }
  }

  /** Adds to one instance the writers of the paths it reads, skipping the
      instance itself and dependencies it already has. */
  method WireReads(dag: Dag, ti: TaskInstance, writers: map<string, seq<string>>)
    returns (r: Result<seq<string>, DagError>)
    requires dag.Valid() && ti.fullID in dag.nodes
    requires Elems(Candidates(ti.readPaths, writers)) <= dag.nodes.Keys
    requires Fan(Elems(ti.dependsOn), ti.fullID) <= dag.EdgeSet()
    modifies dag`edges, dag`inEdges
    ensures dag.Valid()
    ensures
      var sources := Elems(Candidates(ti.readPaths, writers)) - {ti.fullID};
      && (r.Ok? <==> Acyclic(old(dag.EdgeSet()) + Fan(sources, ti.fullID)))
      && (r.Ok? ==>
            && dag.EdgeSet() == old(dag.EdgeSet()) + Fan(sources, ti.fullID)
            && Elems(r.value) == Elems(ti.dependsOn) + sources)
  {
    var candidates := Candidates(ti.readPaths, writers);
    r := ReadCandidates(dag, candidates, ti.dependsOn, ti.fullID);
    if r.Ok? {
      AllRead(candidates, old(dag.EdgeSet()), dag.EdgeSet(), Elems(ti.dependsOn), Elems(r.value), ti.fullID);
    }
  }

  /** Adds the edges from the candidates that are not dependencies yet. */
  method ReadCandidates(dag: Dag, candidates: seq<string>, own: seq<string>, id: string)
    returns (r: Result<seq<string>, DagError>)
    requires dag.Valid() && id in dag.nodes && Elems(candidates) <= dag.nodes.Keys
    requires Fan(Elems(own), id) <= dag.EdgeSet()
    modifies dag`edges, dag`inEdges
    ensures dag.Valid()
    ensures r.Ok?
          ==> ReadUpTo(candidates, |candidates|, old(dag.EdgeSet()), dag.EdgeSet(), Elems(own), Elems(r.value), id)
    ensures r.Err? ==> !Acyclic(old(dag.EdgeSet()) + Fan(Elems(candidates) - {id}, id))
  {
    ghost var before := dag.EdgeSet();
    var deps := own;
    var existing := set d | d in deps;
    NothingReadYet(candidates, before, Elems(own), id);
    for j := 0 to |candidates|
      invariant dag.Valid() && existing == Elems(deps)
      invariant ReadUpTo(candidates, j, before, dag.EdgeSet(), Elems(own), existing, id)
    {
      var writer := candidates[j];
      ReadOneMore(candidates, j, before, dag.EdgeSet(), Elems(own), existing, id);
      if writer == id {
        continue;
      }
      if writer in existing {
        continue;
      }
      AppendFacts(deps, writer);
      existing := existing + {writer};
      deps := deps + [writer];
      var added := dag.AddEdge(writer, id);
      if added.Err? {
        return Err(added.error);
      }
    }
    return Ok(deps);
  }

  /** The first candidates, the instance itself excepted, have become its parents
      and dependencies. */
  ghost predicate ReadUpTo(candidates: seq<string>, j: nat, before: set<Edge>, now: set<Edge>, own: set<string>,
                           existing: set<string>, id: string)
    requires j <= |candidates|
  {
    var seen := Elems(candidates[..j]) - {id};
    now == before + Fan(seen, id) && existing == own + seen
  }

  lemma AllRead(candidates: seq<string>, before: set<Edge>, now: set<Edge>, own: set<string>, existing: set<string>,
                id: string)
    requires ReadUpTo(candidates, |candidates|, before, now, own, existing, id)
    ensures now == before + Fan(Elems(candidates) - {id}, id) && existing == own + (Elems(candidates) - {id})
  {
    assert candidates[..|candidates|] == candidates;
  }

  lemma NothingReadYet(candidates: seq<string>, before: set<Edge>, own: set<string>, id: string)
    ensures ReadUpTo(candidates, 0, before, before, own, own, id)
  {
    EmptyElems(candidates[..0]);
    assert before + Fan({}, id) == before;
  }

  lemma ReadOneMore(candidates: seq<string>, j: nat, before: set<Edge>, now: set<Edge>, own: set<string>,
                    existing: set<string>, id: string)
    requires j < |candidates| && ReadUpTo(candidates, j, before, now, own, existing, id)
    requires Fan(own, id) <= before
    ensures candidates[j] in Elems(candidates)
    ensures candidates[j] == id || candidates[j] in existing ==>
      ReadUpTo(candidates, j + 1, before, now, own, existing, id)
    ensures candidates[j] != id ==>
      && ReadUpTo(candidates, j + 1, before, now + {(candidates[j], id)}, own, existing + {candidates[j]}, id)
      && (!Acyclic(now + {(candidates[j], id)}) ==> !Acyclic(before + Fan(Elems(candidates) - {id}, id)))
  {
    var writer := candidates[j];
    var seen := Elems(candidates[..j]) - {id};
    CandidateStep(candidates, j, id, seen);
    if writer != id {
      NewWriter(before, own, seen, writer, id);
      if writer in existing {
        KnownWriter(before, own, seen, writer, id);
      }
      if !Acyclic(now + {(writer, id)}) {
        SeenMonotone(before, candidates, j + 1, id, seen + {writer});
      }
    }
  }

  lemma CandidateStep(candidates: seq<string>, j: nat, id: string, seen: set<string>)
    requires j < |candidates| && seen == Elems(candidates[..j]) - {id}
    ensures candidates[j] in Elems(candidates)
    ensures Elems(candidates[..j + 1]) - {id} == if candidates[j] == id then seen else seen + {candidates[j]}
  {
    assert candidates[..j + 1] == candidates[..j] + [candidates[j]];
    AppendFacts(candidates[..j], candidates[j]);
  }

  lemma SeenMonotone(before: set<Edge>, candidates: seq<string>, n: nat, id: string, seen: set<string>)
    requires n <= |candidates| && seen == Elems(candidates[..n]) - {id} && !Acyclic(before + Fan(seen, id))
    ensures !Acyclic(before + Fan(Elems(candidates) - {id}, id))
  {
    PrefixElems(candidates, n);
    FanMonotone(before, seen, Elems(candidates) - {id}, id);
  }

  lemma NewWriter(before: set<Edge>, deps: set<string>, seen: set<string>, writer: string, id: string)
    ensures before + Fan(seen + {writer}, id) == before + Fan(seen, id) + {(writer, id)}
    ensures deps + seen + {writer} == deps + (seen + {writer})
  {
    FanGrows(before, seen, writer, id);
  }

  lemma KnownWriter(before: set<Edge>, deps: set<string>, seen: set<string>, writer: string, id: string)
    requires Fan(deps, id) <= before && writer in deps + seen
    ensures before + Fan(seen, id) == before + Fan(seen + {writer}, id)
    ensures deps + seen == deps + (seen + {writer})
  {
    FanGrows(before, seen, writer, id);
    assert (writer, id) in before + Fan(seen, id) by {
      assert writer in deps ==> (writer, id) in Fan(deps, id);
      assert writer in seen ==> (writer, id) in Fan(seen, id);
    }
  }

  lemma FanMonotone(before: set<Edge>, some: set<string>, all: set<string>, id: string)
    requires some <= all && !Acyclic(before + Fan(some, id))
    ensures !Acyclic(before + Fan(all, id))
  {
    if Acyclic(before + Fan(all, id)) {
      AcyclicSubset(before + Fan(some, id), before + Fan(all, id));
    }
  }

  lemma SourcesAreArtifactParents(slots: seq<TaskInstance>, writers: map<string, seq<string>>, ti: TaskInstance)
    requires DistinctIDs(slots) && ti in slots
    requires IndexesWriters(writers, slots)
    ensures Elems(Candidates(ti.readPaths, writers)) - {ti.fullID} == ParentsOf(ArtifactEdges(slots), ti.fullID)
    ensures Elems(Candidates(ti.readPaths, writers)) <= IDs(slots)
  {
    var es := ArtifactEdges(slots);
    CandidatesFacts(ti.readPaths, writers);
    forall w
      ensures w in Elems(Candidates(ti.readPaths, writers)) ==> w in IDs(slots)
      ensures w in Elems(Candidates(ti.readPaths, writers)) - {ti.fullID} <==> w in ParentsOf(es, ti.fullID)
    {
      if w in Elems(Candidates(ti.readPaths, writers)) {
        var path :| path in ti.readPaths && w in Lookup(writers, path);
        assert w in WriterIDs(slots, path);
        var v :| v in slots && path in v.writePaths && v.fullID == w && path != "";
        if w != ti.fullID {
          assert Feeds(v, ti);
          assert (v.fullID, ti.fullID) in es;
        }
      }
      if w in ParentsOf(es, ti.fullID) {
        var e :| e in es && e.1 == ti.fullID && e.0 == w;
        var v, r :| v in slots && r in slots && Feeds(v, r) && (v.fullID, r.fullID) == e;
        SameIDSameSlot(slots, r, ti);
        var path :| path != "" && path in v.writePaths && path in r.readPaths;
        assert w in WriterIDs(slots, path);
        assert w in Lookup(writers, path);
      }
    }
  }

  lemma SameIDSameSlot(slots: seq<TaskInstance>, a: TaskInstance, b: TaskInstance)
    requires DistinctIDs(slots) && a in slots && b in slots && a.fullID == b.fullID
    ensures a == b
  {
    var i :| 0 <= i < |slots| && slots[i] == a;
    var j :| 0 <= j < |slots| && slots[j] == b;
    assert i == j;
  }

  ghost predicate Visited(buckets: Buckets, place: (string, nat), done: set<string>) {
    At(buckets, place.0, place.1) && buckets[place.0][place.1].fullID in done
  }

  ghost predicate VisitedAll(buckets: Buckets, places: seq<(string, nat)>, done: set<string>) {
    forall j | 0 <= j < |places| :: Visited(buckets, places[j], done)
  }

  lemma VisitedGrows(buckets: Buckets, places: seq<(string, nat)>, n: nat, done: set<string>, id: string)
    requires n < |places| && VisitedAll(buckets, places[..n], done)
    requires Visited(buckets, places[n], {id})
    ensures VisitedAll(buckets, places[..n + 1], done + {id})
  {
    var more := places[..n + 1];
    forall j | 0 <= j < |more|
      ensures Visited(buckets, more[j], done + {id})
    {
      if j < n {
        assert places[..n][j] == more[j];
      }
    }
  }

  /** The dependencies listed so far: file-derived ones for the visited instances. */
  ghost predicate Augmented(was: map<string, set<string>>, now: map<string, set<string>>, es: set<Edge>,
                            done: set<string>) {
    && now.Keys == was.Keys
    && forall id | id in was :: now[id] == was[id] + (if id in done then ParentsOf(es, id) else {})
  }

  /** Every instance comes to depend on all other instances that write a path
      it reads; whether this closes a cycle does not depend on the visiting order. */
  method WireArtifactDeps(dag: Dag, buckets: Buckets, ghost slots: seq<TaskInstance>,
                          ghost was: map<string, set<string>>)
    returns (r: Result<Buckets, DagError>, ghost now: map<string, set<string>>)
    requires dag.Valid() && Placed(buckets, slots) && DistinctIDs(slots)
    requires IDs(slots) == was.Keys <= dag.nodes.Keys
    requires Lists(buckets, was)
    requires ListedIn(was, dag.EdgeSet())
    modifies dag`edges, dag`inEdges
    ensures dag.Valid()
    ensures r.Ok? <==> Acyclic(old(dag.EdgeSet()) + ArtifactEdges(slots))
    ensures r.Ok? ==>
              && dag.EdgeSet() == old(dag.EdgeSet()) + ArtifactEdges(slots)
              && Placed(r.value, slots) && Lists(r.value, now)
              && Augmented(was, now, ArtifactEdges(slots), IDs(slots))
  {
    ghost var base := dag.EdgeSet();
    ghost var es := ArtifactEdges(slots);
    now := was;
    var writersByPath := WritersByPath(buckets, slots);
    if writersByPath == map[] {
      NoWriters(slots, was);
      assert base + es == base;
      return Ok(buckets), now;
    }
    r, now := WireReaders(dag, buckets, writersByPath, slots, was);
  }

  /** The loop over all instances. */
  method WireReaders(dag: Dag, buckets: Buckets, writersByPath: map<string, seq<string>>,
                     ghost slots: seq<TaskInstance>, ghost was: map<string, set<string>>)
    returns (r: Result<Buckets, DagError>, ghost now: map<string, set<string>>)
    requires dag.Valid() && Placed(buckets, slots) && DistinctIDs(slots)
    requires IDs(slots) == was.Keys <= dag.nodes.Keys
    requires Lists(buckets, was) && ListedIn(was, dag.EdgeSet())
    requires IndexesWriters(writersByPath, slots)
    modifies dag`edges, dag`inEdges
    ensures dag.Valid()
    ensures r.Ok? <==> Acyclic(old(dag.EdgeSet()) + ArtifactEdges(slots))
    ensures r.Ok? ==>
              && dag.EdgeSet() == old(dag.EdgeSet()) + ArtifactEdges(slots)
              && Placed(r.value, slots) && Lists(r.value, now)
              && Augmented(was, now, ArtifactEdges(slots), IDs(slots))
  {
    ghost var base := dag.EdgeSet();
    ghost var es := ArtifactEdges(slots);
    now := was;
    var places := Places(buckets);
    var more := buckets;
    ghost var done: set<string> := {};
    assert base + Into(es, {}) == base;
    for n := 0 to |places|
      invariant dag.Valid() && dag.EdgeSet() == base + Into(es, done)
      invariant Progress(buckets, more, slots, now) && Augmented(was, now, es, done)
      invariant VisitedAll(buckets, places[..n], done)
    {
      PlaceIsAt(buckets, more, places, n);
      var wired;
      wired, now :=
          WireInstance(dag, buckets, more, places[n].0, places[n].1, writersByPath, slots, base, was, now, done);
      if wired.Err? {
        return Err(wired.error), now;
      }
      more := wired.value;
      VisitedGrows(buckets, places, n, done, buckets[places[n].0][places[n].1].fullID);
      done := done + {buckets[places[n].0][places[n].1].fullID};
    }
    assert places[..|places|] == places;
    AllVisited(buckets, slots, places, done);
    IntoAll(es, slots, done);
    AugmentedAll(was, now, es, done, IDs(slots));
    return Ok(more), now;
  }

  /** Every listed dependency is an edge. */
  ghost predicate ListedIn(deps: map<string, set<string>>, es: set<Edge>) {
    forall id | id in deps :: Fan(deps[id], id) <= es
  }

  ghost predicate Progress(buckets: Buckets, more: Buckets, slots: seq<TaskInstance>, now: map<string, set<string>>) {
    SameSlots(buckets, more) && Placed(more, slots) && Lists(more, now)
  }

  /** The loop body: the instance at one place gets the writers of what it reads. */
  method WireInstance(dag: Dag, ghost buckets: Buckets, more: Buckets, k: string, i: nat,
                      writersByPath: map<string, seq<string>>, ghost slots: seq<TaskInstance>, ghost base: set<Edge>,
                      ghost was: map<string, set<string>>, ghost before: map<string, set<string>>,
                      ghost done: set<string>)
    returns (r: Result<Buckets, DagError>, ghost now: map<string, set<string>>)
    requires dag.Valid() && DistinctIDs(slots)
    requires IDs(slots) == was.Keys <= dag.nodes.Keys
    requires At(buckets, k, i) && At(more, k, i)
    requires Progress(buckets, more, slots, before) && Augmented(was, before, ArtifactEdges(slots), done)
    requires IndexesWriters(writersByPath, slots)
    requires ListedIn(was, base)
    requires dag.EdgeSet() == base + Into(ArtifactEdges(slots), done)
    modifies dag`edges, dag`inEdges
    ensures dag.Valid()
    ensures r.Err? ==> !Acyclic(base + ArtifactEdges(slots))
    ensures r.Ok? ==>
              var done' := done + {buckets[k][i].fullID};
              && dag.EdgeSet() == base + Into(ArtifactEdges(slots), done')
              && Progress(buckets, r.value, slots, now) && Augmented(was, now, ArtifactEdges(slots), done')
  {
    ghost var es := ArtifactEdges(slots);
    now := before;
    var ti := more[k][i];
    UnwiredFields(ti, buckets[k][i]);
    SlotOf(more, slots, before, k, i);
    SourcesAreArtifactParents(slots, writersByPath, Unwired(ti));
    FanInto(es, done, ti.fullID);
    if |ti.readPaths| == 0 {
      EmptyElems<string>([]);
      NothingRead(base, es, was, now, done, ti.fullID);
      return Ok(more), now;
    }
    ListedEdgesPresent(base, es, was, now, done, ti.fullID);
    var wired := WireReads(dag, ti, writersByPath);
    if wired.Err? {
      IntoCyclic(base, es, done, ti.fullID);
      return Err(wired.error), now;
    }
    WithDepsFacts(more, slots, now, k, i, wired.value);
    SameSlotsTransitive(buckets, more, WithDeps(more, k, i, wired.value));
    AugmentedStep(was, now, es, done, ti.fullID, Elems(wired.value));
    now := now[ti.fullID := Elems(wired.value)];
    IntoStep(base, es, done, ti.fullID);
    return Ok(WithDeps(more, k, i, wired.value)), now;
  }

  lemma SlotOf(more: Buckets, slots: seq<TaskInstance>, now: map<string, set<string>>, k: string, i: int)
    requires Placed(more, slots) && Lists(more, now) && At(more, k, i)
    ensures
      var ti := more[k][i];
      && Unwired(ti) in slots && Unwired(ti).fullID == ti.fullID && Unwired(ti).readPaths == ti.readPaths
      && ti.fullID in IDs(slots)
      && ti.fullID in now && Elems(ti.dependsOn) == now[ti.fullID]
  {
  }

  lemma AugmentedStep(was: map<string, set<string>>, now: map<string, set<string>>, es: set<Edge>, done: set<string>,
                      id: string, deps: set<string>)
    requires Augmented(was, now, es, done) && id in was
    requires deps == now[id] + ParentsOf(es, id)
    ensures Augmented(was, now[id := deps], es, done + {id})
  {
  }

  lemma IntoStep(base: set<Edge>, es: set<Edge>, done: set<string>, id: string)
    ensures base + Into(es, done + {id}) == (base + Into(es, done)) + Fan(ParentsOf(es, id), id)
  {
    FanInto(es, done, id);
  }

  lemma NoWriters(slots: seq<TaskInstance>, was: map<string, set<string>>)
    requires IndexesWriters(map[], slots)
    ensures ArtifactEdges(slots) == {}
    ensures Augmented(was, was, ArtifactEdges(slots), IDs(slots))
  {
    forall w, r | w in slots && r in slots
      ensures !Feeds(w, r)
    {
      forall path
        ensures path != "" && path in w.writePaths ==> w.fullID in WriterIDs(slots, path)
      {
      }
    }
  }

  lemma NothingRead(base: set<Edge>, es: set<Edge>, was: map<string, set<string>>, now: map<string, set<string>>,
                    done: set<string>, id: string)
    requires Augmented(was, now, es, done) && ParentsOf(es, id) == {}
    requires Into(es, done + {id}) == Into(es, done) + Fan(ParentsOf(es, id), id)
    ensures Augmented(was, now, es, done + {id})
    ensures base + Into(es, done + {id}) == base + Into(es, done)
  {
  }

  lemma ListedEdgesPresent(base: set<Edge>, es: set<Edge>, was: map<string, set<string>>, now: map<string, set<string>>,
                           done: set<string>, id: string)
    requires Augmented(was, now, es, done) && id in was
    requires Fan(was[id], id) <= base
    ensures Fan(now[id], id) <= base + Into(es, done)
  {
    forall e | e in Fan(now[id], id)
      ensures e in base + Into(es, done)
    {
      var p :| p in now[id] && e == (p, id);
      if p in was[id] {
        assert e in Fan(was[id], id);
      } else {
        var f :| f in es && f.1 == id && f.0 == p;
        assert f == e;
      }
    }
  }

  lemma IntoCyclic(base: set<Edge>, es: set<Edge>, done: set<string>, id: string)
    requires !Acyclic((base + Into(es, done)) + Fan(ParentsOf(es, id), id))
    ensures !Acyclic(base + es)
  {
    IntoStep(base, es, done, id);
    if Acyclic(base + es) {
      AcyclicSubset(base + Into(es, done + {id}), base + es);
    }
  }

  lemma SameSlotsTransitive(a: Buckets, b: Buckets, c: Buckets)
    requires SameSlots(a, b) && SameSlots(b, c)
    ensures SameSlots(a, c)
  {
    forall l, j
      ensures At(c, l, j) <==> At(a, l, j)
      ensures At(c, l, j) ==> Unwired(c[l][j]) == Unwired(a[l][j])
    {
      assert At(b, l, j) <==> At(a, l, j);
    }
  }

  lemma AllVisited(buckets: Buckets, slots: seq<TaskInstance>, places: seq<(string, nat)>, done: set<string>)
    requires Placed(buckets, slots)
    requires AllPlaces(buckets, places)
    requires VisitedAll(buckets, places, done)
    ensures IDs(slots) <= done
  {
    forall ti | ti in slots
      ensures ti.fullID in done
    {
      assert HasPlace(buckets, ti);
      var k, i :| At(buckets, k, i) && Unwired(buckets[k][i]) == ti;
      assert (k, i as nat) in places;
      var j :| 0 <= j < |places| && places[j] == (k, i);
      assert Visited(buckets, places[j], done);
      assert Unwired(buckets[k][i]).fullID == buckets[k][i].fullID;
    }
  }

  lemma IntoAll(es: set<Edge>, slots: seq<TaskInstance>, done: set<string>)
    requires IDs(slots) <= done && forall e | e in es :: e.1 in IDs(slots)
    ensures Into(es, done) == es
  {
  }

  lemma AugmentedAll(was: map<string, set<string>>, now: map<string, set<string>>, es: set<Edge>,
                     done: set<string>, ids: set<string>)
    requires Augmented(was, now, es, done) && was.Keys == ids <= done
    ensures Augmented(was, now, es, ids)
  {
  }
}
