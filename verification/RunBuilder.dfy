/** Builds the task graph of a run: expands for_each tasks into instances and wires
    declared and file-derived dependencies. */
module RunBuilder {
  import opened Wrappers
  import opened Graphs
  import opened Dags
  import opened Text
  import opened RunGraphs
  import opened RunModel
  import opened Wiring

  /** What decides the declared dependencies of an instance: the names of the
      for_each variables, the tasks with several instances (task-level mode)
      or with a single one (run-level mode), and the iteration keys. */
  datatype Context =
    | TaskLevel(vars: set<string>, expandedDefs: set<string>, keys: set<string>)
    | RunLevel(vars: set<string>, aggregators: set<string>, keys: set<string>)

  function FullIDs(keys: seq<string>, dep: string): seq<string> {
    if keys == [] then [] else FullIDs(keys[..|keys| - 1], dep) + [MakeFullID(keys[|keys| - 1], dep)]
  }

  /** The instances one declared dependency stands for. */
  ghost function DepInstances(ctx: Context, ti: TaskInstance, dep: string): seq<string> {
    match ctx
    case TaskLevel(_, expandedDefs, keys) =>
      if dep !in expandedDefs then [dep]
      else if ti.key != "" then [MakeFullID(ti.key, dep)]
      else FullIDs(Ascend(keys), dep)
    case RunLevel(_, aggregators, keys) =>
      if dep in aggregators then [dep]
      else if ti.def.id !in aggregators then [MakeFullID(ti.key, dep)]
      else FullIDs(Ascend(keys), dep)
  }

  ghost function AllInstances(ctx: Context, ti: TaskInstance, deps: seq<string>): seq<string> {
    if deps == [] then []
    else AllInstances(ctx, ti, deps[..|deps| - 1]) + DepInstances(ctx, ti, deps[|deps| - 1])
  }

  /** The declared dependencies of an instance; an aggregator keeps those that
      are named like a for_each variable. */
  function Declared(ctx: Context, ti: TaskInstance): seq<string> {
    if ctx.RunLevel? && ti.def.id in ctx.aggregators then ti.def.deps else FilterVars(ti.def.deps, ctx.vars)
  }

  ghost function DepsOf(ctx: Context, ti: TaskInstance): seq<string> {
    AllInstances(ctx, ti, Declared(ctx, ti))
  }

  lemma {:induction false} AllInstancesMembers(ctx: Context, ti: TaskInstance, deps: seq<string>)
    ensures forall x :: x in Elems(AllInstances(ctx, ti, deps)) <==>
              exists d :: d in deps && x in Elems(DepInstances(ctx, ti, d))
    decreases |deps|
  {
    if deps != [] {
      var front, last := deps[..|deps| - 1], deps[|deps| - 1];
      AllInstancesMembers(ctx, ti, front);
      ConcatFacts(AllInstances(ctx, ti, front), DepInstances(ctx, ti, last));
      assert deps == front + [last];
      assert forall d :: d in deps <==> d in front || d == last;
    }
  }

  ghost function PrimaryEdges(ctx: Context, slots: seq<TaskInstance>): set<Edge> {
    set ti, p | ti in slots && p in Elems(DepsOf(ctx, ti)) :: (p, ti.fullID)
  }

  lemma PrimaryEdgesGrow(ctx: Context, slots: seq<TaskInstance>, ti: TaskInstance)
    ensures PrimaryEdges(ctx, slots + [ti]) == PrimaryEdges(ctx, slots) + Fan(Elems(DepsOf(ctx, ti)), ti.fullID)
  {
    forall u
      ensures u in slots + [ti] <==> u in slots || u == ti
    {
    }
  }

  lemma PrimaryEdgesPrefix(ctx: Context, slots: seq<TaskInstance>, all: seq<TaskInstance>)
    requires slots <= all && Acyclic(PrimaryEdges(ctx, all))
    ensures Acyclic(PrimaryEdges(ctx, slots))
  {
    forall u | u in slots
      ensures u in all
    {
      var i :| 0 <= i < |slots| && slots[i] == u;
      assert all[i] == u;
    }
    AcyclicSubset(PrimaryEdges(ctx, slots), PrimaryEdges(ctx, all));
  }

  lemma PrimaryParents(ctx: Context, slots: seq<TaskInstance>, ti: TaskInstance)
    requires DistinctIDs(slots) && ti in slots
    ensures ParentsOf(PrimaryEdges(ctx, slots), ti.fullID) == Elems(DepsOf(ctx, ti))
  {
    var es := PrimaryEdges(ctx, slots);
    forall p
      ensures p in ParentsOf(es, ti.fullID) <==> p in Elems(DepsOf(ctx, ti))
    {
      if p in Elems(DepsOf(ctx, ti)) {
        assert (p, ti.fullID) in es;
      }
      if p in ParentsOf(es, ti.fullID) {
        var e :| e in es && e.1 == ti.fullID && e.0 == p;
        var u, q :| u in slots && q in Elems(DepsOf(ctx, u)) && (q, u.fullID) == e;
        SameIDSameSlot(slots, u, ti);
      }
    }
  }

  lemma {:induction false} FullIDsFacts(keys: seq<string>, dep: string)
    ensures Elems(FullIDs(keys, dep)) == set k | k in Elems(keys) :: MakeFullID(k, dep)
    decreases |keys|
  {
    if keys == [] {
      EmptyElems(keys);
      EmptyElems(FullIDs(keys, dep));
    } else {
      var front, last := keys[..|keys| - 1], keys[|keys| - 1];
      FullIDsFacts(front, dep);
      assert keys == front + [last];
      AppendFacts(front, last);
      AppendFacts(FullIDs(front, dep), MakeFullID(last, dep));
    }
  }

  // ---------------------------------------------------------------- resolving dependencies

  type Recorded = map<string, map<string, string>>

  /** The recorded instances of an expanded task, by iteration key. */
  function Iterations(expanded: Recorded, dep: string): map<string, string> {
    if dep in expanded then expanded[dep] else map[]
  }

  /** Where the builder looks up one iteration of an expanded task; "" when absent. */
  function UpstreamID(expanded: Recorded, dep: string, key: string): string {
    if key in Iterations(expanded, dep) then Iterations(expanded, dep)[key] else ""
  }

  ghost predicate MissesUpstream(expanded: Recorded, expandedDefs: set<string>, key: string, dep: string) {
    dep in expandedDefs && key != "" && UpstreamID(expanded, dep, key) == ""
  }

  /** The recorded instances of the given iterations, in that order. */
  ghost function Gathered(expanded: Recorded, dep: string, keys: seq<string>): seq<string> {
    if keys == [] then []
    else Gathered(expanded, dep, keys[..|keys| - 1]) + [UpstreamID(expanded, dep, keys[|keys| - 1])]
  }

  ghost function LookedUp(expanded: Recorded, expandedDefs: set<string>, key: string, dep: string): seq<string> {
    if dep !in expandedDefs then [dep]
    else if key != "" then [UpstreamID(expanded, dep, key)]
    else Gathered(expanded, dep, Ascend(Iterations(expanded, dep).Keys))
  }

  ghost function AllLookedUp(expanded: Recorded, expandedDefs: set<string>, key: string,
                             deps: seq<string>): seq<string> {
    if deps == [] then []
    else
      AllLookedUp(expanded, expandedDefs, key, deps[..|deps| - 1])
          + LookedUp(expanded, expandedDefs, key, deps[|deps| - 1])
  }

  /** Resolves declared dependencies to instances, front to back, with the
      iterations of a fan-in in ascending key order. */
  method ResolveDeps(key: string, allDeps: seq<string>, taskIDs: set<string>, expandedDefs: set<string>,
                     expanded: Recorded)
    returns (r: Result<seq<string>, BuildError>)
    ensures r == Err(UnknownDependency) <==> !(Elems(allDeps) <= taskIDs)
    ensures r == Err(MissingUpstream) <==>
              Elems(allDeps) <= taskIDs && exists d :: d in allDeps && MissesUpstream(expanded, expandedDefs, key, d)
    ensures r.Ok? ==> r.value == AllLookedUp(expanded, expandedDefs, key, allDeps)
    ensures r.Err? ==> r.error in {UnknownDependency, MissingUpstream}
  {
    var declared := AllIn(allDeps, taskIDs);
    if !declared {
      return Err(UnknownDependency);
    }
    var resolved: seq<string> := [];
    for j := 0 to |allDeps|
      invariant resolved == AllLookedUp(expanded, expandedDefs, key, allDeps[..j])
      invariant forall i | 0 <= i < j :: !MissesUpstream(expanded, expandedDefs, key, allDeps[i])
    {
      var dep := allDeps[j];
      NextPrefix(allDeps, j);
      if dep in expandedDefs && key != "" {
        var parentID := UpstreamID(expanded, dep, key);
        if parentID == "" {
          assert dep in allDeps && MissesUpstream(expanded, expandedDefs, key, dep);
          return Err(MissingUpstream);
        }
        resolved := resolved + [parentID];
      } else if dep in expandedDefs {
        var found := FanIn(expanded, dep);
        resolved := resolved + found;
      } else {
        resolved := resolved + [dep];
      }
    }
    assert allDeps[..|allDeps|] == allDeps;
    return Ok(resolved);
  }

  /** Every iteration of one expanded task. */
  method FanIn(expanded: Recorded, dep: string) returns (found: seq<string>)
    ensures found == Gathered(expanded, dep, Ascend(Iterations(expanded, dep).Keys))
  {
    var inRangeOrder := InSomeOrder(Iterations(expanded, dep).Keys);
    var keys := Sort(inRangeOrder);
    AscendingIsUnique(keys, Ascend(Iterations(expanded, dep).Keys));
    found := Gather(expanded, dep, keys);
  }

  method Gather(expanded: Recorded, dep: string, keys: seq<string>) returns (found: seq<string>)
    ensures found == Gathered(expanded, dep, keys)
  {
    found := [];
    for j := 0 to |keys|
      invariant found == Gathered(expanded, dep, keys[..j])
    {
      NextPrefix(keys, j);
      found := found + [UpstreamID(expanded, dep, keys[j])];
    }
    assert keys[..|keys|] == keys;
  }

  /** The recorded instances are those of every expanded task and iteration. */
  ghost predicate Records(expanded: Recorded, ctx: Context) {
    && ctx.TaskLevel?
    && forall d | d in ctx.expandedDefs ::
         && Iterations(expanded, d).Keys == ctx.keys
         && forall k | k in ctx.keys :: UpstreamID(expanded, d, k) == MakeFullID(k, d)
  }

  /** With every instance recorded, the lookup gives the intended instances
      and never misses one. */
  lemma {:induction false} RecordsResolve(ctx: Context, expanded: Recorded, ti: TaskInstance, deps: seq<string>)
    requires Records(expanded, ctx)
    requires ti.key != "" ==> ti.key in ctx.keys
    ensures AllLookedUp(expanded, ctx.expandedDefs, ti.key, deps) == AllInstances(ctx, ti, deps)
    ensures forall d | d in deps :: !MissesUpstream(expanded, ctx.expandedDefs, ti.key, d)
    decreases |deps|
  {
    if deps != [] {
      var last := deps[|deps| - 1];
      RecordsResolve(ctx, expanded, ti, deps[..|deps| - 1]);
      assert deps == deps[..|deps| - 1] + [last];
      if last in ctx.expandedDefs {
        GatheredIsFullIDs(ctx, expanded, last, Ascend(ctx.keys));
      }
    }
  }

  lemma {:induction false} GatheredIsFullIDs(ctx: Context, expanded: Recorded, dep: string, keys: seq<string>)
    requires Records(expanded, ctx) && dep in ctx.expandedDefs && Elems(keys) <= ctx.keys
    ensures Gathered(expanded, dep, keys) == FullIDs(keys, dep)
    decreases |keys|
  {
    if keys != [] {
      PrefixElems(keys, |keys| - 1);
      assert keys[|keys| - 1] in Elems(keys);
      GatheredIsFullIDs(ctx, expanded, dep, keys[..|keys| - 1]);
    }
  }

  // ---------------------------------------------------------------- wiring one instance after the other

  /** The wiring after the instances done: the edges into them are those intended, and
      they list their parents. */
  ghost predicate WiredUpTo(edges: set<Edge>, buckets: Buckets, more: Buckets, ctx: Context, slots: seq<TaskInstance>,
                            now: map<string, set<string>>, done: set<string>) {
    && edges == Into(PrimaryEdges(ctx, slots), done)
    && Progress(buckets, more, slots, now)
    && Augmented(NoDeps(IDs(slots)), now, PrimaryEdges(ctx, slots), done)
  }

  /** Lists the resolved dependencies on the instance and adds their edges. */
  method WireInstanceDeps(dag: Dag, ghost buckets: Buckets, more: Buckets, k: string, i: nat, resolved: seq<string>,
                          ghost ctx: Context, ghost slots: seq<TaskInstance>,
                          ghost before: map<string, set<string>>, ghost done: set<string>)
    returns (r: Result<Buckets, DagError>, ghost now: map<string, set<string>>)
    requires dag.Valid() && DistinctIDs(slots) && IDs(slots) <= dag.nodes.Keys
    requires At(buckets, k, i) && At(more, k, i)
    requires WiredUpTo(dag.EdgeSet(), buckets, more, ctx, slots, before, done)
    requires resolved == DepsOf(ctx, Unwired(more[k][i])) && Elems(resolved) <= dag.nodes.Keys
    modifies dag`edges, dag`inEdges
    ensures dag.Valid()
    ensures r.Err? ==> !Acyclic(PrimaryEdges(ctx, slots))
    ensures r.Ok? ==>
              WiredUpTo(dag.EdgeSet(), buckets, r.value, ctx, slots, now, done + {buckets[k][i].fullID})
  {
    ghost var es := PrimaryEdges(ctx, slots);
    now := before;
    var ti := more[k][i];
    UnwiredFields(ti, buckets[k][i]);
    SlotOf(more, slots, before, k, i);
    PrimaryParents(ctx, slots, Unwired(ti));
    FanInto(es, done, ti.fullID);
    var added := AddEdges(dag, resolved, ti.fullID);
    if added.Err? {
      if Acyclic(es) {
        AcyclicSubset(Into(es, done + {ti.fullID}), es);
      }
      return Err(added.error), now;
    }
    WithDepsFacts(more, slots, now, k, i, resolved);
    SameSlotsTransitive(buckets, more, WithDeps(more, k, i, resolved));
    now := now[ti.fullID := Elems(resolved)];
    return Ok(WithDeps(more, k, i, resolved)), now;
  }

  // ---------------------------------------------------------------- materialising instances

  function Bucket(buckets: Buckets, k: string): seq<TaskInstance> {
    if k in buckets then buckets[k] else []
  }

  function Append(buckets: Buckets, ti: TaskInstance): Buckets {
    buckets[ti.key := Bucket(buckets, ti.key) + [ti]]
  }

  ghost function NoDeps(ids: set<string>): map<string, set<string>> {
    map id | id in ids :: {}
  }

  /** A graph of bare nodes, one for each instance; the singletons are listed apart
      from the buckets of the others. */
  ghost predicate Collected(dag: Dag, buckets: Buckets, singletons: seq<TaskInstance>, slots: seq<TaskInstance>)
    reads dag
  {
    && dag.Valid() && dag.EdgeSet() == {} && dag.nodes.Keys == IDs(slots) && DistinctIDs(slots)
    && singletons == Part(slots, Single) && Placed(buckets, Part(slots, Expanded))
    && NothingListed(buckets)
  }

  ghost predicate NothingListed(buckets: Buckets) {
    forall k, i {:trigger At(buckets, k, i)} | At(buckets, k, i) :: buckets[k][i].dependsOn == []
  }

  lemma AppendFactsForSlots(slots: seq<TaskInstance>, ti: TaskInstance)
    requires DistinctIDs(slots)
    ensures IDs(slots + [ti]) == IDs(slots) + {ti.fullID}
    ensures DistinctIDs(slots + [ti]) <==> ti.fullID !in IDs(slots)
  {
    var more := slots + [ti];
    forall u
      ensures u in more <==> u in slots || u == ti
    {
    }
    if ti.fullID in IDs(slots) {
      var u :| u in slots && u.fullID == ti.fullID;
      var i :| 0 <= i < |slots| && slots[i] == u;
      assert more[i].fullID == more[|slots|].fullID;
    } else {
      forall i, j | 0 <= i < j < |more|
        ensures more[i].fullID != more[j].fullID
      {
        assert slots[i] in slots;
      }
    }
  }

  lemma AppendPlaced(buckets: Buckets, slots: seq<TaskInstance>, ti: TaskInstance)
    requires Placed(buckets, slots) && ti.fullID !in IDs(slots)
    ensures Placed(Append(buckets, ti), slots + [Unwired(ti)])
  {
    var more := Append(buckets, ti);
    var last := |Bucket(buckets, ti.key)|;
    AppendedAt(buckets, ti);
    forall u | u in slots + [Unwired(ti)]
      ensures HasPlace(more, u)
    {
      if u in slots {
        assert HasPlace(buckets, u);
        var k, i :| At(buckets, k, i) && Unwired(buckets[k][i]) == u;
        assert At(more, k, i);
      } else {
        assert At(more, ti.key, last);
      }
    }
    forall k, i | At(buckets, k, i)
      ensures buckets[k][i].fullID != ti.fullID
    {
      assert Unwired(buckets[k][i]).fullID == buckets[k][i].fullID;
      assert Unwired(buckets[k][i]) in slots;
    }
  }

  /** The places after an append: those before it and one more. */
  lemma AppendedAt(buckets: Buckets, ti: TaskInstance)
    ensures
      var more, last := Append(buckets, ti), |Bucket(buckets, ti.key)|;
      && At(more, ti.key, last) && more[ti.key][last] == ti
      && forall k, i {:trigger At(more, k, i)} {:trigger At(buckets, k, i)} ::
           && (At(more, k, i) <==> At(buckets, k, i) || (k == ti.key && i == last))
           && (At(buckets, k, i) ==> more[k][i] == buckets[k][i] && !(k == ti.key && i == last))
  {
  }

  // ---------------------------------------------------------------- which instances are filed

  /** The instances of tasks without a for_each, those of tasks with one, or all but
      those of tasks with one whose iteration key is empty. */
  datatype Kind = Single | Expanded | Keyed

  predicate Belongs(ti: TaskInstance, kind: Kind) {
    match kind
    case Single => ti.def.forEach == map[]
    case Expanded => ti.def.forEach != map[]
    case Keyed => ti.def.forEach == map[] || ti.key != ""
  }

  function Part(slots: seq<TaskInstance>, kind: Kind): seq<TaskInstance> {
    if slots == [] then []
    else Part(slots[..|slots| - 1], kind) + if Belongs(slots[|slots| - 1], kind) then [slots[|slots| - 1]] else []
  }

  /** The singletons replace what is filed under the empty key, if there are any. */
  function Filed(slots: seq<TaskInstance>): seq<TaskInstance> {
    if Part(slots, Single) == [] then slots else Part(slots, Keyed)
  }

  lemma {:induction false} PartMembers(slots: seq<TaskInstance>, kind: Kind)
    ensures forall ti :: ti in Part(slots, kind) <==> ti in slots && Belongs(ti, kind)
    ensures IDs(Part(slots, kind)) <= IDs(slots)
    decreases |slots|
  {
    if slots != [] {
      var init, last := slots[..|slots| - 1], slots[|slots| - 1];
      PartMembers(init, kind);
      SplitLast(slots);
      assert forall ti :: ti in slots <==> ti in init || ti == last;
    }
  }

  lemma {:induction false} PartIsDistinct(slots: seq<TaskInstance>, kind: Kind)
    requires DistinctIDs(slots)
    ensures DistinctIDs(Part(slots, kind))
    decreases |slots|
  {
    if slots != [] {
      var init, last := slots[..|slots| - 1], slots[|slots| - 1];
      assert DistinctIDs(init);
      PartIsDistinct(init, kind);
      PartMembers(init, kind);
      SplitLast(slots);
      AppendFactsForSlots(init, last);
      AppendFactsForSlots(Part(init, kind), last);
    }
  }

  lemma {:induction false} WholePartIff(slots: seq<TaskInstance>, kind: Kind)
    ensures Part(slots, kind) == slots <==> forall ti | ti in slots :: Belongs(ti, kind)
    decreases |slots|
  {
    if slots != [] {
      var init, last := slots[..|slots| - 1], slots[|slots| - 1];
      WholePartIff(init, kind);
      SplitLast(slots);
      PartMembers(slots, kind);
      if forall ti | ti in slots :: Belongs(ti, kind) {
        assert forall ti | ti in init :: ti in slots;
      }
    }
  }

  lemma FiledFacts(slots: seq<TaskInstance>)
    ensures forall ti :: ti in Filed(slots) <==> ti in slots && (Part(slots, Single) == [] || Belongs(ti, Keyed))
    ensures IDs(Filed(slots)) <= IDs(slots)
    ensures DistinctIDs(slots) ==> DistinctIDs(Filed(slots))
  {
    PartMembers(slots, Keyed);
    if DistinctIDs(slots) {
      PartIsDistinct(slots, Keyed);
    }
  }

  lemma PartAppend(slots: seq<TaskInstance>, ti: TaskInstance, kind: Kind)
    ensures Part(slots + [ti], kind) == if Belongs(ti, kind) then Part(slots, kind) + [ti] else Part(slots, kind)
  {
    assert (slots + [ti])[..|slots|] == slots;
  }

  /** Adds the node of an instance, and lists it with the singletons or files it under
      its key. */
  method AddInstance(dag: Dag, buckets: Buckets, singletons: seq<TaskInstance>, ti: TaskInstance,
                     ghost slots: seq<TaskInstance>)
    returns (r: Result<(Buckets, seq<TaskInstance>), DagError>)
    requires Collected(dag, buckets, singletons, slots) && ti.dependsOn == []
    modifies dag
    ensures r.Ok? <==> DistinctIDs(slots + [ti])
    ensures r.Ok? ==> Collected(dag, r.value.0, r.value.1, slots + [ti])
  {
    AppendFactsForSlots(slots, ti);
    var added := dag.AddNode(ti.fullID, ti.def.action, map["instance_key" := ti.key, "task_def_id" := ti.def.id]);
    if added.Err? {
      return Err(added.error);
    }
    PartAppend(slots, ti, Single);
    PartAppend(slots, ti, Expanded);
    if ti.def.forEach == map[] {
      return Ok((buckets, singletons + [ti]));
    }
    PartMembers(slots, Expanded);
    assert Unwired(ti) == ti;
    AppendPlaced(buckets, Part(slots, Expanded), ti);
    AppendedAt(buckets, ti);
    return Ok((Append(buckets, ti), singletons));
  }

  /** Filing the singletons under the empty key. */
  lemma SingletonsFiled(buckets: Buckets, slots: seq<TaskInstance>)
    requires DistinctIDs(slots) && Placed(buckets, Part(slots, Expanded)) && NothingListed(buckets)
    requires BareSingles(slots)
    ensures Placed(View(buckets, Part(slots, Single)), Filed(slots))
          && NothingListed(View(buckets, Part(slots, Single)))
  {
    var singles := Part(slots, Single);
    PartMembers(slots, Single);
    PartMembers(slots, Expanded);
    FiledFacts(slots);
    if singles == [] {
      SinglesOrExpanded(slots);
      SamePlaced(buckets, Part(slots, Expanded), slots);
    } else {
      SingletonsPlaced(buckets, slots, singles);
    }
  }

  lemma SinglesOrExpanded(slots: seq<TaskInstance>)
    ensures Part(slots, Single) == [] <==> Part(slots, Expanded) == slots
  {
    PartMembers(slots, Single);
    PartMembers(slots, Expanded);
    WholePartIff(slots, Expanded);
    if Part(slots, Single) != [] {
      assert Part(slots, Single)[0] in Part(slots, Single);
    }
  }

  lemma SamePlaced(buckets: Buckets, slots: seq<TaskInstance>, same: seq<TaskInstance>)
    requires Placed(buckets, slots) && slots == same
    ensures Placed(buckets, same)
  {
  }

  /** The singletons have no key and nothing listed. */
  ghost predicate BareSingles(slots: seq<TaskInstance>) {
    forall ti | ti in slots && ti.def.forEach == map[] :: ti.key == "" && ti.dependsOn == []
  }

  /** Where the singletons were filed: everything under a key is as before. */
  lemma ViewAt(buckets: Buckets, slots: seq<TaskInstance>, singles: seq<TaskInstance>, k: string, i: int)
    requires Placed(buckets, Part(slots, Expanded)) && NothingListed(buckets) && BareSingles(slots)
    requires singles == Part(slots, Single) && singles != [] && At(View(buckets, singles), k, i)
    ensures var ti := View(buckets, singles)[k][i];
      && ti.key == k && ti.dependsOn == [] && Unwired(ti) == ti && ti in Filed(slots) && ti in slots
      && (if k == "" then ti == singles[i] else At(buckets, k, i) && ti == buckets[k][i])
  {
    PartMembers(slots, Single);
    PartMembers(slots, Expanded);
    FiledFacts(slots);
    if k == "" {
      assert singles[i] in singles;
    } else {
      assert At(buckets, k, i);
      UnwiredFields(buckets[k][i], Unwired(buckets[k][i]));
    }
  }

  lemma FiledHasPlace(buckets: Buckets, slots: seq<TaskInstance>, singles: seq<TaskInstance>, ti: TaskInstance)
    requires Placed(buckets, Part(slots, Expanded)) && BareSingles(slots)
    requires singles == Part(slots, Single) && singles != [] && ti in Filed(slots)
    ensures HasPlace(View(buckets, singles), ti)
  {
    PartMembers(slots, Single);
    PartMembers(slots, Expanded);
    FiledFacts(slots);
    var view := View(buckets, singles);
    if ti.def.forEach == map[] {
      var i :| 0 <= i < |singles| && singles[i] == ti;
      assert At(view, "", i) && Unwired(ti) == ti;
    } else {
      assert ti in Part(slots, Expanded) && HasPlace(buckets, ti);
      var k, i :| At(buckets, k, i) && Unwired(buckets[k][i]) == ti;
      UnwiredFields(buckets[k][i], ti);
      assert At(view, k, i);
    }
  }

  lemma SingletonsPlaced(buckets: Buckets, slots: seq<TaskInstance>, singles: seq<TaskInstance>)
    requires DistinctIDs(slots) && Placed(buckets, Part(slots, Expanded)) && NothingListed(buckets)
          && BareSingles(slots)
    requires singles == Part(slots, Single) && singles != []
    ensures Placed(View(buckets, singles), Filed(slots)) && NothingListed(View(buckets, singles))
  {
    var view := View(buckets, singles);
    forall k, i | At(view, k, i)
      ensures view[k][i].key == k && Unwired(view[k][i]) in Filed(slots) && view[k][i].dependsOn == []
    {
      ViewAt(buckets, slots, singles, k, i);
    }
    forall ti | ti in Filed(slots)
      ensures HasPlace(view, ti)
    {
      FiledHasPlace(buckets, slots, singles, ti);
    }
    PartIsDistinct(slots, Single);
    forall k, i, l, j | At(view, k, i) && At(view, l, j) && view[k][i].fullID == view[l][j].fullID
      ensures k == l && i == j
    {
      ViewAt(buckets, slots, singles, k, i);
      ViewAt(buckets, slots, singles, l, j);
      SameIDSameSlot(slots, view[k][i], view[l][j]);
    }
  }

  // ---------------------------------------------------------------- task-level expansion

  function KeysOf(t: TaskDef, deferred: set<string>, keys: seq<string>): seq<string> {
    if t.id in deferred then [] else OwnKeys(t, keys)
  }

  function OwnKeys(t: TaskDef, keys: seq<string>): seq<string> {
    if t.forEach == map[] then [""] else keys
  }

  function SlotsOf(t: TaskDef, keys: seq<string>): seq<TaskInstance> {
    if keys == [] then [] else SlotsOf(t, keys[..|keys| - 1]) + [Blank(t, keys[|keys| - 1])]
  }

  /** The instances that exist at parse time, in creation order. */
  function TaskSlots(tasks: seq<TaskDef>, deferred: set<string>, keys: seq<string>): seq<TaskInstance> {
    if tasks == [] then []
    else
      var last := tasks[|tasks| - 1];
      TaskSlots(tasks[..|tasks| - 1], deferred, keys) + SlotsOf(last, KeysOf(last, deferred, keys))
  }

  lemma {:induction false} SlotsOfPrefix(t: TaskDef, keys: seq<string>, m: nat)
    requires m <= |keys|
    ensures SlotsOf(t, keys[..m]) <= SlotsOf(t, keys)
    decreases |keys|
  {
    if m == |keys| {
      assert keys[..m] == keys;
    } else {
      SlotsOfPrefix(t, keys[..|keys| - 1], m);
      assert keys[..|keys| - 1][..m] == keys[..m];
    }
  }

  lemma {:induction false} TaskSlotsPrefix(tasks: seq<TaskDef>, deferred: set<string>, keys: seq<string>, n: nat)
    requires n <= |tasks|
    ensures TaskSlots(tasks[..n], deferred, keys) <= TaskSlots(tasks, deferred, keys)
    decreases |tasks|
  {
    if n == |tasks| {
      assert tasks[..n] == tasks;
    } else {
      var front := tasks[..|tasks| - 1];
      assert front[..n] == tasks[..n];
      TaskSlotsPrefix(front, deferred, keys, n);
    }
  }

  lemma DistinctPrefix(slots: seq<TaskInstance>, all: seq<TaskInstance>)
    requires slots <= all && DistinctIDs(all)
    ensures DistinctIDs(slots)
  {
    assert forall i | 0 <= i < |slots| :: slots[i] == all[i];
  }

  /** The buckets as the caller sees them: singletons are filed under "". */
  function View(buckets: Buckets, singletons: seq<TaskInstance>): Buckets {
    if |singletons| > 0 then buckets["" := singletons] else buckets
  }

  function Row(keys: seq<string>, id: string): map<string, string> {
    map k | k in keys :: MakeFullID(k, id)
  }

  /** What the table of expanded instances holds after some of the tasks. */
  ghost predicate Recording(expanded: Recorded, tasks: seq<TaskDef>, deferred: set<string>, keys: seq<string>) {
    && (forall d | d in expanded :: d !in deferred && expanded[d] == Row(keys, d))
    && (forall t | t in tasks && t.forEach != map[] && t.id !in deferred :: t.id in expanded)
  }

  /** Creates every instance and its node, and files the instances; fails exactly
      when two instances would get the same id. */
  method Materialise(tasks: seq<TaskDef>, deferred: set<string>, keys: seq<string>)
    returns (dag: Dag, r: Result<(Buckets, Recorded), DagError>)
    ensures fresh(dag)
    ensures r.Ok? <==> DistinctIDs(TaskSlots(tasks, deferred, keys))
    ensures r.Ok? ==>
              var slots := TaskSlots(tasks, deferred, keys);
              && dag.Valid() && dag.EdgeSet() == {} && dag.nodes.Keys == IDs(slots)
              && Placed(r.value.0, Filed(slots)) && NothingListed(r.value.0)
    ensures r.Ok? ==> Recording(r.value.1, tasks, deferred, keys)
  {
    dag := new Dag();
    var buckets: Buckets := map[];
    var singletons: seq<TaskInstance> := [];
    var expanded: Recorded := map[];
    ghost var slots: seq<TaskInstance> := [];
    for n := 0 to |tasks|
      invariant fresh(dag)
      invariant slots == TaskSlots(tasks[..n], deferred, keys)
      invariant Collected(dag, buckets, singletons, slots)
      invariant Recording(expanded, tasks[..n], deferred, keys)
    {
      var t := tasks[n];
      OneMoreTask(tasks, n, deferred, keys);
      RecordingStep(expanded, tasks, n, deferred, keys);
      if t.id in deferred {
        continue;
      }
      var added := AddIterations(dag, buckets, singletons, t, OwnKeys(t, keys), slots);
      if added.Err? {
        DistinctUpTo(tasks, deferred, keys, n + 1);
        return dag, Err(added.error);
      }
      buckets, singletons := added.value.0, added.value.1;
      if t.forEach != map[] {
        expanded := expanded[t.id := Row(keys, t.id)];
      }
      slots := TaskSlots(tasks[..n + 1], deferred, keys);
    }
    assert tasks[..|tasks|] == tasks;
    SingletonsAreBare(tasks, deferred, keys);
    SingletonsFiled(buckets, slots);
    r := Ok((View(buckets, singletons), expanded));
  }

  lemma OneMoreTask(tasks: seq<TaskDef>, n: nat, deferred: set<string>, keys: seq<string>)
    requires n < |tasks|
    ensures TaskSlots(tasks[..n + 1], deferred, keys)
         == if tasks[n].id in deferred then TaskSlots(tasks[..n], deferred, keys)
            else TaskSlots(tasks[..n], deferred, keys) + SlotsOf(tasks[n], OwnKeys(tasks[n], keys))
  {
    NextPrefix(tasks, n);
  }

  lemma DistinctUpTo(tasks: seq<TaskDef>, deferred: set<string>, keys: seq<string>, n: nat)
    requires n <= |tasks|
    ensures DistinctIDs(TaskSlots(tasks, deferred, keys)) ==> DistinctIDs(TaskSlots(tasks[..n], deferred, keys))
  {
    TaskSlotsPrefix(tasks, deferred, keys, n);
    if DistinctIDs(TaskSlots(tasks, deferred, keys)) {
      DistinctPrefix(TaskSlots(tasks[..n], deferred, keys), TaskSlots(tasks, deferred, keys));
    }
  }

  lemma SingletonsAreBare(tasks: seq<TaskDef>, deferred: set<string>, keys: seq<string>)
    ensures BareSingles(TaskSlots(tasks, deferred, keys))
  {
    forall ti | ti in TaskSlots(tasks, deferred, keys) && ti.def.forEach == map[]
      ensures ti.key == "" && ti.dependsOn == []
    {
      TaskSlotsMembers(tasks, deferred, keys, ti);
    }
  }

  lemma RecordingStep(expanded: Recorded, tasks: seq<TaskDef>, n: nat, deferred: set<string>, keys: seq<string>)
    requires n < |tasks| && Recording(expanded, tasks[..n], deferred, keys)
    ensures
      var t := tasks[n];
      Recording(if t.id in deferred || t.forEach == map[] then expanded else expanded[t.id := Row(keys, t.id)],
                tasks[..n + 1], deferred, keys)
  {
    NextPrefix(tasks, n);
    forall t | t in tasks[..n + 1] && t.forEach != map[] && t.id !in deferred
      ensures t in tasks[..n] || t == tasks[n]
    {
    }
  }

  /** The instances of one task that is not deferred: one per iteration, or one under
      the empty key. */
  method AddIterations(dag: Dag, before: Buckets, singles: seq<TaskInstance>, t: TaskDef, keys: seq<string>,
                       ghost slots: seq<TaskInstance>)
    returns (r: Result<(Buckets, seq<TaskInstance>), DagError>)
    requires Collected(dag, before, singles, slots)
    modifies dag
    ensures r.Ok? <==> DistinctIDs(slots + SlotsOf(t, keys))
    ensures r.Ok? ==> Collected(dag, r.value.0, r.value.1, slots + SlotsOf(t, keys))
  {
    var buckets, singletons := before, singles;
    assert slots + SlotsOf(t, keys[..0]) == slots;
    for m := 0 to |keys|
      invariant Collected(dag, buckets, singletons, slots + SlotsOf(t, keys[..m]))
    {
      IterationStep(slots, t, keys, m);
      var added := AddInstance(dag, buckets, singletons, Blank(t, keys[m]), slots + SlotsOf(t, keys[..m]));
      if added.Err? {
        return Err(added.error);
      }
      buckets, singletons := added.value.0, added.value.1;
    }
    assert keys[..|keys|] == keys;
    return Ok((buckets, singletons));
  }

  lemma IterationStep(slots: seq<TaskInstance>, t: TaskDef, keys: seq<string>, m: nat)
    requires m < |keys|
    ensures slots + SlotsOf(t, keys[..m]) + [Blank(t, keys[m])] == slots + SlotsOf(t, keys[..m + 1])
    ensures DistinctIDs(slots + SlotsOf(t, keys)) ==> DistinctIDs(slots + SlotsOf(t, keys[..m]) + [Blank(t, keys[m])])
  {
    NextPrefix(keys, m);
    AppendAssociates(slots, SlotsOf(t, keys[..m]), Blank(t, keys[m]));
    SlotsOfPrefix(t, keys, m + 1);
    if DistinctIDs(slots + SlotsOf(t, keys)) {
      DistinctPrefix(slots + SlotsOf(t, keys[..m + 1]), slots + SlotsOf(t, keys));
    }
  }

  // ---------------------------------------------------------------- the intended graph

  ghost function IntendedEdges(ctx: Context, slots: seq<TaskInstance>): set<Edge> {
    PrimaryEdges(ctx, slots) + ArtifactEdges(slots)
  }

  ghost predicate AllDepsDeclared(ctx: Context, slots: seq<TaskInstance>, taskIDs: set<string>) {
    forall ti | ti in slots :: Elems(Declared(ctx, ti)) <= taskIDs
  }

  /** The graph of the run has exactly the intended edges between the given
      instances, and every one of them is filed and lists its parents. */
  ghost predicate Wired(run: ParsedRun, ctx: Context, slots: seq<TaskInstance>)
    reads run.dag
  {
    && run.dag.Valid()
    && run.dag.EdgeSet() == IntendedEdges(ctx, slots)
    && Placed(run.expanded, slots)
    && forall k, i {:trigger At(run.expanded, k, i)} | At(run.expanded, k, i) ::
         Elems(run.expanded[k][i].dependsOn) == ParentsOf(run.dag.EdgeSet(), run.expanded[k][i].fullID)
  }

  /** What the parents of an instance are: its declared dependencies and every
      other instance that writes a path it reads. */
  lemma IntendedParents(ctx: Context, slots: seq<TaskInstance>, ti: TaskInstance)
    requires DistinctIDs(slots) && ti in slots
    ensures ParentsOf(IntendedEdges(ctx, slots), ti.fullID) ==
            Elems(DepsOf(ctx, ti)) + set w | w in slots && Feeds(w, ti) :: w.fullID
  {
    PrimaryParents(ctx, slots, ti);
    var es := ArtifactEdges(slots);
    forall p
      ensures p in ParentsOf(es, ti.fullID) <==> exists w :: w in slots && Feeds(w, ti) && w.fullID == p
    {
      if w :| w in slots && Feeds(w, ti) && w.fullID == p {
        assert (w.fullID, ti.fullID) in es;
      }
      if p in ParentsOf(es, ti.fullID) {
        var e :| e in es && e.1 == ti.fullID && e.0 == p;
        var w, r :| w in slots && r in slots && Feeds(w, r) && (w.fullID, r.fullID) == e;
        SameIDSameSlot(slots, r, ti);
      }
    }
    ParentsOfUnion(PrimaryEdges(ctx, slots), es, ti.fullID);
  }

  lemma ParentsOfUnion(a: set<Edge>, b: set<Edge>, id: string)
    ensures ParentsOf(a + b, id) == ParentsOf(a, id) + ParentsOf(b, id)
  {
    forall p
      ensures p in ParentsOf(a + b, id) <==> p in ParentsOf(a, id) + ParentsOf(b, id)
    {
      if p in ParentsOf(a, id) {
        var e :| e in a && e.1 == id && e.0 == p;
        assert e in a + b;
      }
      if p in ParentsOf(b, id) {
        var e :| e in b && e.1 == id && e.0 == p;
        assert e in a + b;
      }
    }
  }

  // ---------------------------------------------------------------- task-level build

  ghost function DeferredOf(tasks: seq<TaskDef>): set<string> {
    var shared := SharedForEach(tasks);
    if IsDynamic(shared) then Dependents(tasks, shared.Keys) else {}
  }

  function IterationKeys(tasks: seq<TaskDef>, iterations: seq<string>): seq<string> {
    if IsDynamic(SharedForEach(tasks)) then [] else iterations
  }

  ghost function TaskLevelSlots(p: Run, iterations: seq<string>): seq<TaskInstance> {
    TaskSlots(p.tasks, DeferredOf(p.tasks), IterationKeys(p.tasks, iterations))
  }

  ghost function TaskLevelContext(p: Run, iterations: seq<string>): Context {
    TaskLevel(SharedForEach(p.tasks).Keys, ExpandedIDs(p.tasks), Elems(IterationKeys(p.tasks, iterations)))
  }

  /** Instance ids are distinct, declared dependencies of the filed instances name
      tasks, and the intended graph has no cycle. */
  ghost predicate TaskLevelBuilds(p: Run, iterations: seq<string>) {
    var ctx, slots := TaskLevelContext(p, iterations), TaskLevelSlots(p, iterations);
    && DistinctIDs(slots)
    && AllDepsDeclared(ctx, Filed(slots), TaskIDs(p.tasks))
    && Acyclic(IntendedEdges(ctx, Filed(slots)))
  }

  /** Some task that is not deferred has a for_each, or has none. */
  ghost predicate HasTask(tasks: seq<TaskDef>, deferred: set<string>, expanded: bool) {
    exists t :: t in tasks && t.id !in deferred && (t.forEach != map[] <==> expanded)
  }

  lemma SinglesIff(tasks: seq<TaskDef>, deferred: set<string>, keys: seq<string>)
    ensures Part(TaskSlots(tasks, deferred, keys), Single) != [] <==> HasTask(tasks, deferred, false)
  {
    var slots := TaskSlots(tasks, deferred, keys);
    var singles := Part(slots, Single);
    PartMembers(slots, Single);
    if singles != [] {
      assert singles[0] in singles;
      TaskSlotsMembers(tasks, deferred, keys, singles[0]);
    }
    if t :| t in tasks && t.id !in deferred && t.forEach == map[] {
      TaskSlotsMembers(tasks, deferred, keys, Blank(t, ""));
      assert Blank(t, "") in singles;
    }
  }

  lemma AllKeyedIff(tasks: seq<TaskDef>, deferred: set<string>, keys: seq<string>)
    ensures (forall ti | ti in TaskSlots(tasks, deferred, keys) :: Belongs(ti, Keyed))
       <==> "" !in keys || !HasTask(tasks, deferred, true)
  {
    var slots := TaskSlots(tasks, deferred, keys);
    forall ti | ti in slots && !Belongs(ti, Keyed)
      ensures "" in keys && HasTask(tasks, deferred, true)
    {
      TaskSlotsMembers(tasks, deferred, keys, ti);
    }
    if "" in keys && HasTask(tasks, deferred, true) {
      var u :| u in tasks && u.id !in deferred && u.forEach != map[];
      TaskSlotsMembers(tasks, deferred, keys, Blank(u, ""));
      assert !Belongs(Blank(u, ""), Keyed);
    }
  }

  /** Every instance is filed exactly if no iteration has the empty key, or there are
      no singletons, or no expanded tasks. */
  lemma AllFiledIff(tasks: seq<TaskDef>, deferred: set<string>, keys: seq<string>)
    ensures Filed(TaskSlots(tasks, deferred, keys)) == TaskSlots(tasks, deferred, keys)
       <==> "" !in keys || !HasTask(tasks, deferred, false) || !HasTask(tasks, deferred, true)
  {
    SinglesIff(tasks, deferred, keys);
    AllKeyedIff(tasks, deferred, keys);
    WholePartIff(TaskSlots(tasks, deferred, keys), Keyed);
  }

  /** An instance that is not filed has a node without parents, whatever it depends on. */
  lemma UnfiledHasNoParents(ctx: Context, slots: seq<TaskInstance>, ti: TaskInstance)
    requires DistinctIDs(slots) && ti in slots && ti !in Filed(slots)
    ensures ParentsOf(IntendedEdges(ctx, Filed(slots)), ti.fullID) == {}
  {
    FiledFacts(slots);
    var filed := Filed(slots);
    forall e | e in IntendedEdges(ctx, filed)
      ensures e.1 != ti.fullID
    {
      var u :| u in filed && u.fullID == e.1;
      if u.fullID == ti.fullID {
        SameIDSameSlot(slots, u, ti);
      }
    }
  }

  lemma {:induction false} SlotsOfMembers(t: TaskDef, keys: seq<string>)
    ensures forall ti :: ti in SlotsOf(t, keys) <==> exists k :: k in keys && ti == Blank(t, k)
    decreases |keys|
  {
    if keys != [] {
      SlotsOfMembers(t, keys[..|keys| - 1]);
      assert keys == keys[..|keys| - 1] + [keys[|keys| - 1]];
    }
  }

  lemma {:induction false} TaskSlotsMembers(tasks: seq<TaskDef>, deferred: set<string>, keys: seq<string>,
      ti: TaskInstance)
    ensures ti in TaskSlots(tasks, deferred, keys) <==>
            exists t, k :: t in tasks && k in KeysOf(t, deferred, keys) && ti == Blank(t, k)
    decreases |tasks|
  {
    if tasks != [] {
      var front, last := tasks[..|tasks| - 1], tasks[|tasks| - 1];
      TaskSlotsMembers(front, deferred, keys, ti);
      SlotsOfMembers(last, KeysOf(last, deferred, keys));
      assert tasks == front + [last];
      assert forall t :: t in tasks <==> t in front || t == last;
    }
  }

  /** Either nothing is deferred, or every iteration is still to come. */
  ghost predicate ConsistentMode(tasks: seq<TaskDef>, vars: set<string>, deferred: set<string>, keys: seq<string>) {
    deferred == {} || (keys == [] && ClosedUnderDependents(tasks, vars, deferred))
  }

  lemma SlotExists(tasks: seq<TaskDef>, deferred: set<string>, keys: seq<string>, t: TaskDef, k: string)
    requires t in tasks && k in KeysOf(t, deferred, keys)
    ensures MakeFullID(k, t.id) in IDs(TaskSlots(tasks, deferred, keys))
  {
    TaskSlotsMembers(tasks, deferred, keys, Blank(t, k));
  }

  /** No instance has a deferred dependency, so what it depends on exists. */
  lemma {:induction false} DependencyInstancesExist(tasks: seq<TaskDef>, ctx: Context, deferred: set<string>,
      keys: seq<string>, ti: TaskInstance, d: string)
    requires ctx == TaskLevel(ctx.vars, ExpandedIDs(tasks), Elems(keys))
    requires ConsistentMode(tasks, ctx.vars, deferred, keys)
    requires ti in TaskSlots(tasks, deferred, keys)
    requires d in FilterVars(ti.def.deps, ctx.vars) && d in TaskIDs(tasks)
    ensures d !in deferred
    ensures Elems(DepInstances(ctx, ti, d)) <= IDs(TaskSlots(tasks, deferred, keys))
  {
    TaskSlotsMembers(tasks, deferred, keys, ti);
    var t, k :| t in tasks && k in KeysOf(t, deferred, keys) && ti == Blank(t, k);
    var i :| 0 <= i < |tasks| && tasks[i] == t;
    if deferred != {} {
      assert ClosedAt(tasks[i], ctx.vars, deferred);
    }
    if d !in ctx.expandedDefs {
      var u :| u in tasks && u.id == d;
      SlotExists(tasks, deferred, keys, u, "");
      ElemsOfOne(d);
    } else {
      var u :| u in tasks && u.forEach != map[] && u.id == d;
      assert deferred == {} && KeysOf(u, deferred, keys) == keys;
      if ti.key != "" {
        SlotExists(tasks, deferred, keys, u, ti.key);
        ElemsOfOne(MakeFullID(ti.key, d));
      } else {
        FullIDsFacts(Ascend(ctx.keys), d);
        forall kk | kk in ctx.keys
          ensures MakeFullID(kk, d) in IDs(TaskSlots(tasks, deferred, keys))
        {
          SlotExists(tasks, deferred, keys, u, kk);
        }
      }
    }
  }

  lemma ElemsOfOne(x: string)
    ensures Elems([x]) == {x}
  {
  }

  lemma {:induction false} AllInstancesExist(tasks: seq<TaskDef>, ctx: Context, deferred: set<string>,
      keys: seq<string>, ti: TaskInstance, deps: seq<string>)
    requires ctx == TaskLevel(ctx.vars, ExpandedIDs(tasks), Elems(keys))
    requires ConsistentMode(tasks, ctx.vars, deferred, keys)
    requires ti in TaskSlots(tasks, deferred, keys)
    requires Elems(deps) <= Elems(FilterVars(ti.def.deps, ctx.vars)) * TaskIDs(tasks)
    ensures Elems(AllInstances(ctx, ti, deps)) <= IDs(TaskSlots(tasks, deferred, keys))
    decreases |deps|
  {
    if deps == [] {
      EmptyElems(AllInstances(ctx, ti, deps));
    } else {
      var front, last := deps[..|deps| - 1], deps[|deps| - 1];
      PrefixElems(deps, |deps| - 1);
      assert last in Elems(deps);
      AllInstancesExist(tasks, ctx, deferred, keys, ti, front);
      DependencyInstancesExist(tasks, ctx, deferred, keys, ti, last);
      ConcatFacts(AllInstances(ctx, ti, front), DepInstances(ctx, ti, last));
    }
  }

  lemma KeyIsIteration(tasks: seq<TaskDef>, deferred: set<string>, keys: seq<string>, ti: TaskInstance)
    requires ti in TaskSlots(tasks, deferred, keys)
    ensures ti.key != "" ==> ti.key in keys
  {
    TaskSlotsMembers(tasks, deferred, keys, ti);
  }

  lemma RecordingIsComplete(expanded: Recorded, tasks: seq<TaskDef>, vars: set<string>, deferred: set<string>,
                            keys: seq<string>)
    requires Recording(expanded, tasks, deferred, keys)
    requires ConsistentMode(tasks, vars, deferred, keys)
    ensures Records(expanded, TaskLevel(vars, ExpandedIDs(tasks), Elems(keys)))
  {
    forall d | d in ExpandedIDs(tasks)
      ensures Iterations(expanded, d).Keys == Elems(keys)
      ensures forall k | k in Elems(keys) :: UpstreamID(expanded, d, k) == MakeFullID(k, d)
    {
      var t :| t in tasks && t.forEach != map[] && t.id == d;
      assert deferred == {} ==> t.id in expanded;
      if keys == [] {
        EmptyElems(keys);
      }
    }
  }

  /** Wires the declared dependencies of every instance, in whatever order the
      buckets are ranged over. */
  method WireDeclared(dag: Dag, buckets: Buckets, tasks: seq<TaskDef>, vars: set<string>, expanded: Recorded,
                      ghost deferred: set<string>, keys: seq<string>, ghost slots: seq<TaskInstance>)
    returns (r: Result<Buckets, BuildError>, ghost now: map<string, set<string>>)
    requires slots == Filed(TaskSlots(tasks, deferred, keys)) && DistinctIDs(TaskSlots(tasks, deferred, keys))
    requires ConsistentMode(tasks, vars, deferred, keys)
    requires Recording(expanded, tasks, deferred, keys)
    requires dag.Valid() && dag.EdgeSet() == {} && dag.nodes.Keys == IDs(TaskSlots(tasks, deferred, keys))
    requires Placed(buckets, slots) && NothingListed(buckets)
    modifies dag`edges, dag`inEdges
    ensures dag.Valid()
    ensures
      var ctx := TaskLevel(vars, ExpandedIDs(tasks), Elems(keys));
      && (r.Ok? <==> AllDepsDeclared(ctx, slots, TaskIDs(tasks)) && Acyclic(PrimaryEdges(ctx, slots)))
      && (r.Ok? ==>
            && dag.EdgeSet() == PrimaryEdges(ctx, slots)
            && Placed(r.value, slots) && Lists(r.value, now)
            && Augmented(NoDeps(IDs(slots)), now, PrimaryEdges(ctx, slots), IDs(slots)))
  {
    ghost var ctx := TaskLevel(vars, ExpandedIDs(tasks), Elems(keys));
    ghost var done: set<string> := {};
    var places := Places(buckets);
    var more := buckets;
    now := NoDeps(IDs(slots));
    FiledFacts(TaskSlots(tasks, deferred, keys));
    WiringStarts(buckets, ctx, slots);
    for n := 0 to |places|
      invariant dag.Valid() && WiredUpTo(dag.EdgeSet(), buckets, more, ctx, slots, now, done)
      invariant VisitedAll(buckets, places[..n], done) && DeclaredUpTo(buckets, places[..n], ctx, TaskIDs(tasks))
    {
      PlaceIsAt(buckets, more, places, n);
      var wired;
      wired, now := WireDeps(dag, buckets, more, places[n].0, places[n].1, tasks, vars, expanded, deferred, keys,
                              ctx, slots, now, done);
      if wired.Err? {
        return Err(wired.error), now;
      }
      more := wired.value;
      VisitedGrows(buckets, places, n, done, buckets[places[n].0][places[n].1].fullID);
      DeclaredGrows(buckets, places, n, ctx, TaskIDs(tasks));
      done := done + {buckets[places[n].0][places[n].1].fullID};
    }
    assert places[..|places|] == places;
    AllVisited(buckets, slots, places, done);
    AllVisitedDeclared(buckets, slots, places, ctx, TaskIDs(tasks));
    WiringEnds(dag.EdgeSet(), buckets, more, ctx, slots, now, done);
    return Ok(more), now;
  }

  lemma WiringStarts(buckets: Buckets, ctx: Context, slots: seq<TaskInstance>)
    requires Placed(buckets, slots) && NothingListed(buckets)
    ensures WiredUpTo({}, buckets, buckets, ctx, slots, NoDeps(IDs(slots)), {})
  {
    ListsNothing(buckets, slots);
    assert Into(PrimaryEdges(ctx, slots), {}) == {};
  }

  lemma WiringEnds(edges: set<Edge>, buckets: Buckets, more: Buckets, ctx: Context, slots: seq<TaskInstance>,
                   now: map<string, set<string>>, done: set<string>)
    requires WiredUpTo(edges, buckets, more, ctx, slots, now, done) && IDs(slots) <= done
    ensures edges == PrimaryEdges(ctx, slots) && Placed(more, slots) && Lists(more, now)
    ensures Augmented(NoDeps(IDs(slots)), now, PrimaryEdges(ctx, slots), IDs(slots))
  {
    IntoAll(PrimaryEdges(ctx, slots), slots, done);
    AugmentedAll(NoDeps(IDs(slots)), now, PrimaryEdges(ctx, slots), done, IDs(slots));
  }

  lemma ListsNothing(buckets: Buckets, slots: seq<TaskInstance>)
    requires Placed(buckets, slots) && NothingListed(buckets)
    ensures Lists(buckets, NoDeps(IDs(slots)))
  {
    EmptyElems<string>([]);
    forall k, i | At(buckets, k, i)
      ensures buckets[k][i].fullID in IDs(slots)
    {
      UnwiredFields(buckets[k][i], Unwired(buckets[k][i]));
    }
  }

  ghost predicate DeclaredAt(buckets: Buckets, place: (string, nat), ctx: Context, taskIDs: set<string>) {
    At(buckets, place.0, place.1) && Elems(Declared(ctx, Unwired(buckets[place.0][place.1]))) <= taskIDs
  }

  ghost predicate DeclaredUpTo(buckets: Buckets, places: seq<(string, nat)>, ctx: Context, taskIDs: set<string>) {
    forall j | 0 <= j < |places| :: DeclaredAt(buckets, places[j], ctx, taskIDs)
  }

  lemma DeclaredGrows(buckets: Buckets, places: seq<(string, nat)>, n: nat, ctx: Context, taskIDs: set<string>)
    requires n < |places| && DeclaredUpTo(buckets, places[..n], ctx, taskIDs)
          && DeclaredAt(buckets, places[n], ctx, taskIDs)
    ensures DeclaredUpTo(buckets, places[..n + 1], ctx, taskIDs)
  {
    var more := places[..n + 1];
    forall j | 0 <= j < |more|
      ensures DeclaredAt(buckets, more[j], ctx, taskIDs)
    {
      if j < n {
        assert places[..n][j] == more[j];
      }
    }
  }

  lemma AllVisitedDeclared(buckets: Buckets, slots: seq<TaskInstance>, places: seq<(string, nat)>, ctx: Context,
                           taskIDs: set<string>)
    requires Placed(buckets, slots)
    requires AllPlaces(buckets, places)
    requires DeclaredUpTo(buckets, places, ctx, taskIDs)
    ensures AllDepsDeclared(ctx, slots, taskIDs)
  {
    forall ti | ti in slots
      ensures Elems(Declared(ctx, ti)) <= taskIDs
    {
      assert HasPlace(buckets, ti);
      var k, i :| At(buckets, k, i) && Unwired(buckets[k][i]) == ti;
      assert (k, i as nat) in places;
      var j :| 0 <= j < |places| && places[j] == (k, i);
      assert DeclaredAt(buckets, places[j], ctx, taskIDs);
    }
  }

  /** The lookup resolves the dependencies of an instance, and to instances that exist. */
  lemma SlotResolves(tasks: seq<TaskDef>, vars: set<string>, deferred: set<string>, keys: seq<string>,
                     expanded: Recorded, slot: TaskInstance)
    requires ConsistentMode(tasks, vars, deferred, keys) && Recording(expanded, tasks, deferred, keys)
    requires slot in TaskSlots(tasks, deferred, keys)
    ensures
      var ctx := TaskLevel(vars, ExpandedIDs(tasks), Elems(keys));
      var deps := FilterVars(slot.def.deps, vars);
      && Declared(ctx, slot) == deps && AllLookedUp(expanded, ExpandedIDs(tasks), slot.key, deps) == DepsOf(ctx, slot)
      && (forall d | d in deps :: !MissesUpstream(expanded, ExpandedIDs(tasks), slot.key, d))
      && (Elems(deps) <= TaskIDs(tasks) ==> Elems(DepsOf(ctx, slot)) <= IDs(TaskSlots(tasks, deferred, keys)))
  {
    var ctx := TaskLevel(vars, ExpandedIDs(tasks), Elems(keys));
    var deps := FilterVars(slot.def.deps, vars);
    KeyIsIteration(tasks, deferred, keys, slot);
    RecordingIsComplete(expanded, tasks, vars, deferred, keys);
    RecordsResolve(ctx, expanded, slot, deps);
    if Elems(deps) <= TaskIDs(tasks) {
      AllInstancesExist(tasks, ctx, deferred, keys, slot, deps);
    }
  }

  /** What the dependencies of one instance stand for. */
  method ResolveFiled(ti: TaskInstance, tasks: seq<TaskDef>, vars: set<string>, expanded: Recorded,
                      ghost deferred: set<string>, ghost keys: seq<string>, ghost ctx: Context)
    returns (r: Result<seq<string>, BuildError>)
    requires ConsistentMode(tasks, vars, deferred, keys) && Recording(expanded, tasks, deferred, keys)
    requires ctx == TaskLevel(vars, ExpandedIDs(tasks), Elems(keys)) && Unwired(ti) in TaskSlots(tasks, deferred, keys)
    ensures r.Ok? <==> Elems(Declared(ctx, Unwired(ti))) <= TaskIDs(tasks)
    ensures r.Ok? ==> r.value == DepsOf(ctx, Unwired(ti)) && Elems(r.value) <= IDs(TaskSlots(tasks, deferred, keys))
  {
    SlotResolves(tasks, vars, deferred, keys, expanded, Unwired(ti));
    var allDeps := FilterVars(ti.def.deps, vars);
    r := ResolveDeps(ti.key, allDeps, TaskIDs(tasks), ExpandedIDs(tasks), expanded);
  }

  /** The wiring of one instance. */
  method WireDeps(dag: Dag, ghost buckets: Buckets, more: Buckets, k: string, i: nat, tasks: seq<TaskDef>,
                  vars: set<string>, expanded: Recorded, ghost deferred: set<string>, keys: seq<string>,
                  ghost ctx: Context, ghost slots: seq<TaskInstance>, ghost before: map<string, set<string>>,
                  ghost done: set<string>)
    returns (r: Result<Buckets, BuildError>, ghost now: map<string, set<string>>)
    requires slots == Filed(TaskSlots(tasks, deferred, keys)) && DistinctIDs(TaskSlots(tasks, deferred, keys))
    requires ConsistentMode(tasks, vars, deferred, keys)
    requires Recording(expanded, tasks, deferred, keys)
    requires dag.Valid() && dag.nodes.Keys == IDs(TaskSlots(tasks, deferred, keys))
    requires At(buckets, k, i) && At(more, k, i)
    requires ctx == TaskLevel(vars, ExpandedIDs(tasks), Elems(keys))
    requires WiredUpTo(dag.EdgeSet(), buckets, more, ctx, slots, before, done)
    modifies dag`edges, dag`inEdges
    ensures dag.Valid()
    ensures r.Err? ==> !(AllDepsDeclared(ctx, slots, TaskIDs(tasks)) && Acyclic(PrimaryEdges(ctx, slots)))
    ensures r.Ok? ==> DeclaredAt(buckets, (k, i), ctx, TaskIDs(tasks))
    ensures r.Ok? ==>
              WiredUpTo(dag.EdgeSet(), buckets, r.value, ctx, slots, now, done + {buckets[k][i].fullID})
  {
    now := before;
    var ti := more[k][i];
    ghost var slot := Unwired(ti);
    FiledFacts(TaskSlots(tasks, deferred, keys));
    SlotOf(more, slots, before, k, i);
    var resolved := ResolveFiled(ti, tasks, vars, expanded, deferred, keys, ctx);
    if resolved.Err? {
      assert slot in slots;
      return Err(resolved.error), now;
    }
    var wired;
    wired, now := WireInstanceDeps(dag, buckets, more, k, i, resolved.value, ctx, slots, before, done);
    if wired.Err? {
      return Err(BadGraph(wired.error)), now;
    }
    UnwiredFields(ti, buckets[k][i]);
    return Ok(wired.value), now;
  }

  /** Adds the file-derived edges on top of the declared ones and validates. */
  method FinishWiring(dag: Dag, buckets: Buckets, ghost ctx: Context, ghost slots: seq<TaskInstance>,
                      ghost was: map<string, set<string>>, defs: seq<DeferredTaskDef>)
    returns (r: Result<ParsedRun, BuildError>)
    requires dag.Valid() && Placed(buckets, slots) && DistinctIDs(slots)
    requires IDs(slots) <= dag.nodes.Keys && dag.EdgeSet() == PrimaryEdges(ctx, slots)
    requires Lists(buckets, was) && Augmented(NoDeps(IDs(slots)), was, PrimaryEdges(ctx, slots), IDs(slots))
    modifies dag`edges, dag`inEdges
    ensures r.Ok? <==> Acyclic(IntendedEdges(ctx, slots))
    ensures r.Ok? ==> r.value.dag == dag && r.value.deferredDefs == defs && Wired(r.value, ctx, slots)
  {
    ParentsAreListed(was, PrimaryEdges(ctx, slots), IDs(slots));
    var wired, now := WireArtifactDeps(dag, buckets, slots, was);
    if wired.Err? {
      return Err(BadGraph(wired.error));
    }
    var valid := dag.Validate();
    EveryParentListed(wired.value, ctx, slots, was, now);
    return if valid.Err? then Err(BadGraph(ContainsCycle)) else Ok(ParsedRun(dag, wired.value, defs));
  }

  lemma ParentsAreListed(was: map<string, set<string>>, es: set<Edge>, ids: set<string>)
    requires Augmented(NoDeps(ids), was, es, ids)
    ensures ListedIn(was, es)
  {
    forall id | id in was
      ensures Fan(was[id], id) <= es
    {
      forall e | e in Fan(was[id], id)
        ensures e in es
      {
        var f :| f in es && f.1 == id && f.0 == e.0;
        assert f == e;
      }
    }
  }

  lemma EveryParentListed(buckets: Buckets, ctx: Context, slots: seq<TaskInstance>,
                          was: map<string, set<string>>, now: map<string, set<string>>)
    requires Placed(buckets, slots) && Lists(buckets, now)
    requires Augmented(NoDeps(IDs(slots)), was, PrimaryEdges(ctx, slots), IDs(slots))
    requires Augmented(was, now, ArtifactEdges(slots), IDs(slots))
    ensures forall k, i {:trigger At(buckets, k, i)} | At(buckets, k, i) ::
              Elems(buckets[k][i].dependsOn) == ParentsOf(IntendedEdges(ctx, slots), buckets[k][i].fullID)
  {
    forall k, i | At(buckets, k, i)
      ensures Elems(buckets[k][i].dependsOn) == ParentsOf(IntendedEdges(ctx, slots), buckets[k][i].fullID)
    {
      var id := buckets[k][i].fullID;
      SlotOf(buckets, slots, now, k, i);
      ParentsOfUnion(PrimaryEdges(ctx, slots), ArtifactEdges(slots), id);
    }
  }

  // ---------------------------------------------------------------- the graph over the definitions

  lemma IDOfBlank(t: TaskDef, k: string)
    ensures Blank(t, k).fullID == if k == "" then t.id else k + ":" + t.id
    ensures Blank(t, k).readPaths == (if k in t.artifacts then t.artifacts[k].readPaths else [])
    ensures Blank(t, k).writePaths == (if k in t.artifacts then t.artifacts[k].writePaths else [])
    ensures Blank(t, k).def == t && Blank(t, k).key == k && Blank(t, k).dependsOn == []
  {
  }

  lemma FeedsIff(t: TaskDef, k: string, u: TaskDef, l: string)
    ensures Feeds(Blank(t, k), Blank(u, l)) <==> Blank(t, k).fullID != Blank(u, l).fullID && WritesForReader(t, k, u, l)
  {
    IDOfBlank(t, k);
    IDOfBlank(u, l);
  }

  /** The slots are the instances of the definitions, those filed among them are the
      filed ones, and declared dependencies stand for the declared parents. */
  ghost predicate Means(level: Level, p: Run, iterations: seq<string>, ctx: Context, all: seq<TaskInstance>,
                        slots: seq<TaskInstance>) {
    && (forall ti :: ti in all <==> IsInstance(level, p, iterations, ti.def, ti.key) && ti == Blank(ti.def, ti.key))
    && (forall ti :: ti in slots <==> IsFiled(level, p, iterations, ti.def, ti.key) && ti == Blank(ti.def, ti.key))
    && (forall t, k, id | IsInstance(level, p, iterations, t, k) ::
          id in Elems(DepsOf(ctx, Blank(t, k))) <==> IsDeclaredParent(level, p, iterations, t, k, id))
  }

  lemma NodesMean(level: Level, p: Run, iterations: seq<string>, ctx: Context, all: seq<TaskInstance>,
                  slots: seq<TaskInstance>)
    requires Means(level, p, iterations, ctx, all, slots)
    ensures forall id :: id in IDs(all) <==> IsNode(level, p, iterations, id)
  {
    forall id | IsNode(level, p, iterations, id)
      ensures id in IDs(all)
    {
      var t, k :| IsInstance(level, p, iterations, t, k) && id == if k == "" then t.id else k + ":" + t.id;
      IDOfBlank(t, k);
      assert Blank(t, k) in all;
    }
    forall id | id in IDs(all)
      ensures IsNode(level, p, iterations, id)
    {
      var ti :| ti in all && ti.fullID == id;
      IDOfBlank(ti.def, ti.key);
    }
  }

  lemma FileParentsMean(level: Level, p: Run, iterations: seq<string>, ctx: Context, all: seq<TaskInstance>,
                        slots: seq<TaskInstance>, u: TaskDef, l: string, id: string)
    requires Means(level, p, iterations, ctx, all, slots)
    ensures (exists w :: w in slots && Feeds(w, Blank(u, l)) && w.fullID == id)
       <==> IsFileParent(level, p, iterations, u, l, id)
  {
    IDOfBlank(u, l);
    if w :| w in slots && Feeds(w, Blank(u, l)) && w.fullID == id {
      IDOfBlank(w.def, w.key);
      FeedsIff(w.def, w.key, u, l);
    }
    if IsFileParent(level, p, iterations, u, l, id) {
      var t, k :| IsFiled(level, p, iterations, t, k) && WritesForReader(t, k, u, l)
        && id == if k == "" then t.id else k + ":" + t.id;
      IDOfBlank(t, k);
      FeedsIff(t, k, u, l);
      assert Blank(t, k) in slots;
    }
  }

  lemma ParentsMean(level: Level, p: Run, iterations: seq<string>, ctx: Context, all: seq<TaskInstance>,
                    slots: seq<TaskInstance>, u: TaskDef, l: string, id: string)
    requires Means(level, p, iterations, ctx, all, slots) && DistinctIDs(slots) && IsFiled(level, p, iterations, u, l)
    ensures id in ParentsOf(IntendedEdges(ctx, slots), Blank(u, l).fullID) <==> IsParent(level, p, iterations, u, l, id)
  {
    IDOfBlank(u, l);
    IntendedParents(ctx, slots, Blank(u, l));
    FileParentsMean(level, p, iterations, ctx, all, slots, u, l, id);
  }

  lemma EdgesMean(level: Level, p: Run, iterations: seq<string>, ctx: Context, all: seq<TaskInstance>,
                  slots: seq<TaskInstance>, a: string, b: string)
    requires Means(level, p, iterations, ctx, all, slots) && DistinctIDs(slots)
    ensures (a, b) in IntendedEdges(ctx, slots) <==> IsEdge(level, p, iterations, a, b)
  {
    var es := IntendedEdges(ctx, slots);
    if (a, b) in es {
      var u :| u in slots && u.fullID == b;
      IDOfBlank(u.def, u.key);
      ParentsMean(level, p, iterations, ctx, all, slots, u.def, u.key, a);
      assert a in ParentsOf(es, b);
    }
    if IsEdge(level, p, iterations, a, b) {
      var u, l :| IsFiled(level, p, iterations, u, l) && IsParent(level, p, iterations, u, l, a)
        && b == if l == "" then u.id else l + ":" + u.id;
      IDOfBlank(u, l);
      ParentsMean(level, p, iterations, ctx, all, slots, u, l, a);
      var e :| e in es && e.1 == b && e.0 == a;
    }
  }

  lemma PlaceMeans(level: Level, p: Run, iterations: seq<string>, ctx: Context, all: seq<TaskInstance>,
                   slots: seq<TaskInstance>, run: ParsedRun, l: string, i: int)
    requires Means(level, p, iterations, ctx, all, slots) && DistinctIDs(slots) && Wired(run, ctx, slots)
    requires l in run.expanded && 0 <= i < |run.expanded[l]|
    ensures IsInPlace(level, p, iterations, run.expanded[l][i], l)
  {
    var ti := run.expanded[l][i];
    var u := ti.def;
    assert At(run.expanded, l, i);
    assert Unwired(ti) in slots && Unwired(ti) == Blank(u, l);
    IDOfBlank(u, l);
    UnwiredFields(ti, Blank(u, l));
    forall id
      ensures id in ti.dependsOn <==> IsParent(level, p, iterations, u, l, id)
    {
      ParentsMean(level, p, iterations, ctx, all, slots, u, l, id);
      assert id in ti.dependsOn <==> id in Elems(ti.dependsOn);
    }
  }

  lemma FiledHasPlaceFor(level: Level, p: Run, iterations: seq<string>, ctx: Context, all: seq<TaskInstance>,
                         slots: seq<TaskInstance>, run: ParsedRun, u: TaskDef, l: string)
    requires Means(level, p, iterations, ctx, all, slots) && Wired(run, ctx, slots)
          && IsFiled(level, p, iterations, u, l)
    ensures HasPlaceFor(run, u, l)
  {
    IDOfBlank(u, l);
    assert HasPlace(run.expanded, Blank(u, l));
    var k, i :| At(run.expanded, k, i) && Unwired(run.expanded[k][i]) == Blank(u, l);
    UnwiredFields(run.expanded[k][i], Blank(u, l));
  }

  lemma OnePlaceEach(run: ParsedRun, ctx: Context, slots: seq<TaskInstance>, l: string, i: int, j: int)
    requires Wired(run, ctx, slots) && (forall ti | ti in slots :: ti == Blank(ti.def, ti.key))
    requires l in run.expanded && 0 <= i < j < |run.expanded[l]|
    ensures run.expanded[l][i].def != run.expanded[l][j].def
  {
    assert At(run.expanded, l, i) && At(run.expanded, l, j);
    assert Unwired(run.expanded[l][i]) in slots && Unwired(run.expanded[l][j]) in slots;
  }

  lemma GraphMeans(level: Level, p: Run, iterations: seq<string>, ctx: Context, all: seq<TaskInstance>,
                   slots: seq<TaskInstance>, run: ParsedRun)
    requires Means(level, p, iterations, ctx, all, slots) && DistinctIDs(slots)
    requires Wired(run, ctx, slots) && run.dag.nodes.Keys == IDs(all)
    ensures HasGraph(level, p, iterations, run)
  {
    NodesMean(level, p, iterations, ctx, all, slots);
    forall a, b
      ensures a in run.dag.edges && b in run.dag.edges[a] <==> IsEdge(level, p, iterations, a, b)
    {
      EdgesMean(level, p, iterations, ctx, all, slots, a, b);
      assert (a, b) in run.dag.EdgeSet() <==> a in run.dag.edges && b in run.dag.edges[a];
    }
    forall u, l | IsFiled(level, p, iterations, u, l)
      ensures HasPlaceFor(run, u, l)
    {
      FiledHasPlaceFor(level, p, iterations, ctx, all, slots, run, u, l);
    }
    forall l, i | l in run.expanded && 0 <= i < |run.expanded[l]|
      ensures IsInPlace(level, p, iterations, run.expanded[l][i], l)
    {
      PlaceMeans(level, p, iterations, ctx, all, slots, run, l, i);
    }
    forall l, i, j | l in run.expanded && 0 <= i < j < |run.expanded[l]|
      ensures run.expanded[l][i].def != run.expanded[l][j].def
    {
      OnePlaceEach(run, ctx, slots, l, i, j);
    }
  }

  lemma {:induction false} SharedIsFirst(tasks: seq<TaskDef>)
    ensures (forall i | IsFirst(tasks, i) :: tasks[i].forEach == SharedForEach(tasks))
    ensures SharedForEach(tasks) != map[] ==> exists i :: IsFirst(tasks, i)
    decreases |tasks|
  {
    if tasks != [] && tasks[0].forEach == map[] {
      var rest := tasks[1..];
      SharedIsFirst(rest);
      forall i | IsFirst(tasks, i)
        ensures tasks[i].forEach == SharedForEach(tasks)
      {
        assert forall j | 0 <= j < i - 1 :: rest[j] == tasks[j + 1];
        assert IsFirst(rest, i - 1);
      }
      if i :| IsFirst(rest, i) {
        assert forall j | 0 < j < i + 1 :: tasks[j] == rest[j - 1];
        assert IsFirst(tasks, i + 1);
      }
    } else if tasks != [] {
      assert IsFirst(tasks, 0);
    }
  }

  lemma VariablesMean(p: Run)
    ensures forall name :: IsVariable(PerTask, p, name) <==> name in SharedForEach(p.tasks).Keys
    ensures IsDynamicRun(p) <==> IsDynamic(SharedForEach(p.tasks))
    ensures forall id :: HasForEach(p.tasks, id) <==> id in ExpandedIDs(p.tasks)
    ensures forall id :: IsAggregator(p.tasks, id) <==> id in AggregatorIDs(p.tasks)
  {
    SharedIsFirst(p.tasks);
  }

  lemma DependsMeans(p: Run, t: TaskDef)
    ensures forall d :: d in FilterVars(t.deps, SharedForEach(p.tasks).Keys) <==> DependsOn(PerTask, p, t, d)
  {
    FilterVarsMembers(t.deps, SharedForEach(p.tasks).Keys);
    VariablesMean(p);
  }

  lemma DependencyEdgeMeans(p: Run, d: string, id: string)
    ensures (d, id) in DependencyEdges(p.tasks, SharedForEach(p.tasks).Keys) <==> NamedBy(p, d, id)
  {
    var vars := SharedForEach(p.tasks).Keys;
    if (d, id) in DependencyEdges(p.tasks, vars) {
      var t, e :| t in p.tasks && e in FilterVars(t.deps, vars) && (e, t.id) == (d, id);
      DependsMeans(p, t);
    }
    if NamedBy(p, d, id) {
      var t :| t in p.tasks && t.id == id && DependsOn(PerTask, p, t, d);
      DependsMeans(p, t);
    }
  }

  lemma ChainMeans(p: Run, chain: seq<string>)
    ensures IsWaitingChain(p, chain)
       <==> IsPath(DependencyEdges(p.tasks, SharedForEach(p.tasks).Keys), chain) && chain[0] in ExpandedIDs(p.tasks)
  {
    VariablesMean(p);
    forall i | 0 <= i < |chain| - 1
      ensures (chain[i], chain[i + 1]) in DependencyEdges(p.tasks, SharedForEach(p.tasks).Keys)
         <==> NamedBy(p, chain[i], chain[i + 1])
    {
      DependencyEdgeMeans(p, chain[i], chain[i + 1]);
    }
  }

  lemma ChainsMean(p: Run, id: string)
    ensures DependsOnExpanded(p.tasks, SharedForEach(p.tasks).Keys, id)
       <==> exists chain :: IsWaitingChain(p, chain) && chain[|chain| - 1] == id
  {
    var vars := SharedForEach(p.tasks).Keys;
    var es := DependencyEdges(p.tasks, vars);
    if DependsOnExpanded(p.tasks, vars, id) {
      var b :| b in ExpandedIDs(p.tasks) && Reaches(es, b, id);
      var path :| Connects(es, path, b, id);
      ChainMeans(p, path);
    }
    if chain :| IsWaitingChain(p, chain) && chain[|chain| - 1] == id {
      ChainMeans(p, chain);
      assert Connects(es, chain, chain[0], id);
    }
  }

  lemma WaitingMeans(p: Run, id: string)
    ensures id in DeferredOf(p.tasks) <==> Waits(p, id)
  {
    VariablesMean(p);
    ChainsMean(p, id);
  }

  lemma DeferralsMean(p: Run)
    ensures RecordsWaiting(p, DeferredDefs(ParseForEachRef, p.tasks, DeferredOf(p.tasks)))
  {
    forall id
      ensures Waits(p, id) <==> id in DeferredOf(p.tasks)
    {
      WaitingMeans(p, id);
    }
    var at := DeferredDefsMean(ParseForEachRef, p.tasks, DeferredOf(p.tasks), WaitingIDs(p));
  }

  /** In a dynamic run every task with a for_each, and whatever depends on one, waits. */
  lemma ExpandedWaits(p: Run, u: TaskDef, d: string)
    requires IsDynamicRun(p) && u in p.tasks
    ensures u.forEach != map[] ==> Waits(p, u.id)
    ensures DependsOn(PerTask, p, u, d) && HasForEach(p.tasks, d) ==> Waits(p, u.id)
  {
    if u.forEach != map[] {
      assert IsWaitingChain(p, [u.id]) && [u.id][0] == u.id;
    }
    if DependsOn(PerTask, p, u, d) && HasForEach(p.tasks, d) {
      var chain := [d, u.id];
      assert NamedBy(p, d, u.id);
      assert IsWaitingChain(p, chain) && chain[|chain| - 1] == u.id;
    }
  }

  lemma InstancesMean(p: Run, iterations: seq<string>, ti: TaskInstance)
    ensures ti in TaskLevelSlots(p, iterations)
       <==> IsInstance(PerTask, p, iterations, ti.def, ti.key) && ti == Blank(ti.def, ti.key)
  {
    var deferred, keys := DeferredOf(p.tasks), IterationKeys(p.tasks, iterations);
    TaskSlotsMembers(p.tasks, deferred, keys, ti);
    VariablesMean(p);
    if ti in TaskLevelSlots(p, iterations) {
      var t, k :| t in p.tasks && k in KeysOf(t, deferred, keys) && ti == Blank(t, k);
      IDOfBlank(t, k);
      WaitingMeans(p, t.id);
    }
    if IsInstance(PerTask, p, iterations, ti.def, ti.key) && ti == Blank(ti.def, ti.key) {
      WaitingMeans(p, ti.def.id);
      if IsDynamicRun(p) {
        ExpandedWaits(p, ti.def, "");
      }
      assert ti.key in KeysOf(ti.def, deferred, keys);
    }
  }

  lemma FiledMean(p: Run, iterations: seq<string>, ti: TaskInstance)
    ensures ti in Filed(TaskLevelSlots(p, iterations))
       <==> IsFiled(PerTask, p, iterations, ti.def, ti.key) && ti == Blank(ti.def, ti.key)
  {
    var all := TaskLevelSlots(p, iterations);
    FiledFacts(all);
    PartMembers(all, Single);
    InstancesMean(p, iterations, ti);
    if Part(all, Single) != [] {
      var s := Part(all, Single)[0];
      assert s in Part(all, Single);
      InstancesMean(p, iterations, s);
    }
    if s :| IsInstance(PerTask, p, iterations, s, "") && s.forEach == map[] {
      IDOfBlank(s, "");
      InstancesMean(p, iterations, Blank(s, ""));
      assert Blank(s, "") in Part(all, Single);
    }
  }

  lemma AllIterationsMean(iterations: seq<string>, d: string, id: string)
    ensures id in Elems(FullIDs(Ascend(Elems(iterations)), d))
       <==> exists k :: k in iterations && id == if k == "" then d else k + ":" + d
  {
    FullIDsFacts(Ascend(Elems(iterations)), d);
    if k :| k in iterations && id == if k == "" then d else k + ":" + d {
      assert k in Elems(iterations) && id == MakeFullID(k, d);
    }
    if id in Elems(FullIDs(Ascend(Elems(iterations)), d)) {
      var k :| k in Elems(iterations) && id == MakeFullID(k, d);
    }
  }

  lemma StandsForMeans(p: Run, iterations: seq<string>, u: TaskDef, l: string, d: string, id: string)
    requires IsInstance(PerTask, p, iterations, u, l) && DependsOn(PerTask, p, u, d)
    ensures id in Elems(DepInstances(TaskLevelContext(p, iterations), Blank(u, l), d))
       <==> StandsFor(PerTask, p, iterations, u, l, d, id)
  {
    IDOfBlank(u, l);
    VariablesMean(p);
    if d !in ExpandedIDs(p.tasks) {
      ElemsOfOne(d);
    } else {
      if IsDynamicRun(p) {
        ExpandedWaits(p, u, d);
        assert false;
      }
      if l == "" {
        AllIterationsMean(iterations, d, id);
      } else {
        ElemsOfOne(MakeFullID(l, d));
      }
    }
  }

  lemma DeclaredMean(p: Run, iterations: seq<string>, u: TaskDef, l: string, id: string)
    requires IsInstance(PerTask, p, iterations, u, l)
    ensures id in Elems(DepsOf(TaskLevelContext(p, iterations), Blank(u, l)))
       <==> IsDeclaredParent(PerTask, p, iterations, u, l, id)
  {
    var ctx := TaskLevelContext(p, iterations);
    AllInstancesMembers(ctx, Blank(u, l), Declared(ctx, Blank(u, l)));
    IDOfBlank(u, l);
    DependsMeans(p, u);
    forall d | DependsOn(PerTask, p, u, d)
      ensures id in Elems(DepInstances(ctx, Blank(u, l), d)) <==> StandsFor(PerTask, p, iterations, u, l, d, id)
    {
      StandsForMeans(p, iterations, u, l, d, id);
    }
  }

  lemma TaskLevelMeans(p: Run, iterations: seq<string>)
    ensures Means(PerTask, p, iterations, TaskLevelContext(p, iterations), TaskLevelSlots(p, iterations),
                  Filed(TaskLevelSlots(p, iterations)))
  {
    forall ti
      ensures ti in TaskLevelSlots(p, iterations)
         <==> IsInstance(PerTask, p, iterations, ti.def, ti.key) && ti == Blank(ti.def, ti.key)
      ensures ti in Filed(TaskLevelSlots(p, iterations))
         <==> IsFiled(PerTask, p, iterations, ti.def, ti.key) && ti == Blank(ti.def, ti.key)
    {
      InstancesMean(p, iterations, ti);
      FiledMean(p, iterations, ti);
    }
    forall t, k, id | IsInstance(PerTask, p, iterations, t, k)
      ensures id in Elems(DepsOf(TaskLevelContext(p, iterations), Blank(t, k)))
         <==> IsDeclaredParent(PerTask, p, iterations, t, k, id)
    {
      DeclaredMean(p, iterations, t, k, id);
    }
  }

  // ---------------------------------------------------------------- success over the definitions

  /** A path of edges back to where it starts. */
  ghost predicate IsRound(es: set<Edge>, path: seq<string>) {
    |path| > 1 && path[0] == path[|path| - 1] && forall i | 0 <= i < |path| - 1 :: (path[i], path[i + 1]) in es
  }

  lemma AcyclicHasNoRound(es: set<Edge>, path: seq<string>)
    requires Acyclic(es)
    ensures !IsRound(es, path)
  {
    if IsRound(es, path) {
      var rest := path[1..];
      assert (path[0], path[1]) in es;
      assert forall i | 0 <= i < |rest| - 1 :: (rest[i], rest[i + 1]) == (path[i + 1], path[i + 2]);
      assert Connects(es, rest, path[1], path[0]);
      assert false;
    }
  }

  lemma CycleHasRound(es: set<Edge>, a: string, b: string) returns (round: seq<string>)
    requires (a, b) in es && Reaches(es, b, a)
    ensures IsRound(es, round)
  {
    var path :| Connects(es, path, b, a);
    round := [a] + path;
    forall i | 0 <= i < |round| - 1
      ensures (round[i], round[i + 1]) in es
    {
      if i > 0 {
        assert (round[i], round[i + 1]) == (path[i - 1], path[i]);
      }
    }
  }

  lemma RoundMeans(level: Level, p: Run, iterations: seq<string>, es: set<Edge>, path: seq<string>)
    requires forall a, b :: (a, b) in es <==> IsEdge(level, p, iterations, a, b)
    requires |path| > 1 && path[0] == path[|path| - 1]
    ensures !IsRound(es, path)
       <==> exists i :: 0 <= i < |path| - 1 && !IsEdge(level, p, iterations, path[i], path[i + 1])
  {
  }

  lemma NoCycleMeans(level: Level, p: Run, iterations: seq<string>, es: set<Edge>)
    requires forall a, b :: (a, b) in es <==> IsEdge(level, p, iterations, a, b)
    ensures Acyclic(es) <==> HasNoCycle(level, p, iterations)
  {
    forall path: seq<string> | |path| > 1 && path[0] == path[|path| - 1]
      ensures !IsRound(es, path)
         <==> exists i :: 0 <= i < |path| - 1 && !IsEdge(level, p, iterations, path[i], path[i + 1])
      ensures Acyclic(es) ==> !IsRound(es, path)
    {
      RoundMeans(level, p, iterations, es, path);
      if Acyclic(es) {
        AcyclicHasNoRound(es, path);
      }
    }
    if !Acyclic(es) {
      var a, b :| (a, b) in es && Reaches(es, b, a);
      var round := CycleHasRound(es, a, b);
    }
  }

  /** Where the m-th instance of the task at i is. */
  function SlotAt(tasks: seq<TaskDef>, deferred: set<string>, keys: seq<string>, i: nat, m: nat): nat
    requires i < |tasks|
  {
    |TaskSlots(tasks[..i], deferred, keys)| + m
  }

  lemma {:induction false} SlotsOfAt(t: TaskDef, keys: seq<string>, m: nat)
    requires m < |keys|
    ensures |SlotsOf(t, keys)| == |keys| && SlotsOf(t, keys)[m] == Blank(t, keys[m])
    decreases |keys|
  {
    var init := keys[..|keys| - 1];
    if m < |init| {
      SlotsOfAt(t, init, m);
    } else if init != [] {
      SlotsOfAt(t, init, 0);
    }
  }

  lemma SlotIsAt(tasks: seq<TaskDef>, deferred: set<string>, keys: seq<string>, i: nat, m: nat)
    requires i < |tasks| && m < |KeysOf(tasks[i], deferred, keys)|
    ensures SlotAt(tasks, deferred, keys, i, m) < |TaskSlots(tasks[..i + 1], deferred, keys)|
                                               <= |TaskSlots(tasks, deferred, keys)|
    ensures TaskSlots(tasks, deferred, keys)[SlotAt(tasks, deferred, keys, i, m)]
         == Blank(tasks[i], KeysOf(tasks[i], deferred, keys)[m])
  {
    var front, own := TaskSlots(tasks[..i], deferred, keys), SlotsOf(tasks[i], KeysOf(tasks[i], deferred, keys));
    NextPrefix(tasks, i);
    assert TaskSlots(tasks[..i + 1], deferred, keys) == front + own;
    SlotsOfAt(tasks[i], KeysOf(tasks[i], deferred, keys), m);
    TaskSlotsPrefix(tasks, deferred, keys, i + 1);
    InPrefix(front, own, TaskSlots(tasks, deferred, keys), m);
  }

  lemma InPrefix<T>(front: seq<T>, own: seq<T>, all: seq<T>, m: nat)
    requires front + own <= all && m < |own|
    ensures |front| + m < |front + own| <= |all| && all[|front| + m] == own[m]
  {
    assert all[|front| + m] == (front + own)[|front| + m];
  }

  lemma {:induction false} SlotOfSome(tasks: seq<TaskDef>, deferred: set<string>, keys: seq<string>, a: nat)
      returns (i: nat, m: nat)
    requires a < |TaskSlots(tasks, deferred, keys)|
    ensures i < |tasks| && m < |KeysOf(tasks[i], deferred, keys)| && SlotAt(tasks, deferred, keys, i, m) == a
    decreases |tasks|
  {
    var front := tasks[..|tasks| - 1];
    if a < |TaskSlots(front, deferred, keys)| {
      i, m := SlotOfSome(front, deferred, keys, a);
      assert front[..i] == tasks[..i];
    } else {
      i, m := |front|, a - |TaskSlots(front, deferred, keys)|;
      SlotsLength(tasks[i], KeysOf(tasks[i], deferred, keys));
    }
  }

  lemma {:induction false} SlotsLength(t: TaskDef, keys: seq<string>)
    ensures |SlotsOf(t, keys)| == |keys|
  {
    if keys != [] {
      SlotsOfAt(t, keys, 0);
    }
  }

  lemma SlotsAreApart(tasks: seq<TaskDef>, deferred: set<string>, keys: seq<string>, i: nat, m: nat, j: nat, n: nat)
    requires i < j < |tasks| && m < |KeysOf(tasks[i], deferred, keys)|
    ensures SlotAt(tasks, deferred, keys, i, m) < SlotAt(tasks, deferred, keys, j, n)
  {
    SlotIsAt(tasks, deferred, keys, i, m);
    LongerSlots(tasks, deferred, keys, i + 1, j);
  }

  lemma LongerSlots(tasks: seq<TaskDef>, deferred: set<string>, keys: seq<string>, i: nat, j: nat)
    requires i <= j <= |tasks|
    ensures |TaskSlots(tasks[..i], deferred, keys)| <= |TaskSlots(tasks[..j], deferred, keys)|
  {
    assert tasks[..j][..i] == tasks[..i];
    TaskSlotsPrefix(tasks[..j], deferred, keys, i);
  }

  lemma NthMeans(p: Run, iterations: seq<string>, i: nat, m: nat)
    requires i < |p.tasks|
    ensures IsNth(PerTask, p, iterations, i, m)
       <==> m < |KeysOf(p.tasks[i], DeferredOf(p.tasks), IterationKeys(p.tasks, iterations))|
  {
    var t := p.tasks[i];
    WaitingMeans(p, t.id);
    VariablesMean(p);
    if IsDynamicRun(p) {
      ExpandedWaits(p, t, "");
    }
  }

  lemma NthIDMeans(p: Run, iterations: seq<string>, i: nat, m: nat)
    requires IsNth(PerTask, p, iterations, i, m)
    requires m < |KeysOf(p.tasks[i], DeferredOf(p.tasks), IterationKeys(p.tasks, iterations))|
    ensures NthID(PerTask, p, iterations, i, m)
         == Blank(p.tasks[i], KeysOf(p.tasks[i], DeferredOf(p.tasks), IterationKeys(p.tasks, iterations))[m]).fullID
  {
    var t := p.tasks[i];
    IDOfBlank(t, KeysOf(t, DeferredOf(p.tasks), IterationKeys(p.tasks, iterations))[m]);
  }

  lemma NthIsSlot(p: Run, iterations: seq<string>, i: nat, m: nat) returns (a: nat)
    requires IsNth(PerTask, p, iterations, i, m)
    ensures a < |TaskLevelSlots(p, iterations)|
    ensures a == SlotAt(p.tasks, DeferredOf(p.tasks), IterationKeys(p.tasks, iterations), i, m)
    ensures TaskLevelSlots(p, iterations)[a].fullID == NthID(PerTask, p, iterations, i, m)
  {
    var deferred, keys := DeferredOf(p.tasks), IterationKeys(p.tasks, iterations);
    NthMeans(p, iterations, i, m);
    NthIDMeans(p, iterations, i, m);
    SlotIsAt(p.tasks, deferred, keys, i, m);
    a := SlotAt(p.tasks, deferred, keys, i, m);
  }

  lemma NthAreApart(p: Run, iterations: seq<string>, i: nat, m: nat, j: nat, n: nat)
    requires IsNth(PerTask, p, iterations, i, m) && IsNth(PerTask, p, iterations, j, n) && (i, m) != (j, n)
    requires DistinctIDs(TaskLevelSlots(p, iterations))
    ensures NthID(PerTask, p, iterations, i, m) != NthID(PerTask, p, iterations, j, n)
  {
    var deferred, keys := DeferredOf(p.tasks), IterationKeys(p.tasks, iterations);
    var a := NthIsSlot(p, iterations, i, m);
    var b := NthIsSlot(p, iterations, j, n);
    NthMeans(p, iterations, i, m);
    NthMeans(p, iterations, j, n);
    if i < j {
      SlotsAreApart(p.tasks, deferred, keys, i, m, j, n);
    } else if j < i {
      SlotsAreApart(p.tasks, deferred, keys, j, n, i, m);
    }
  }

  lemma DistinctMeans(p: Run, iterations: seq<string>)
    ensures DistinctIDs(TaskLevelSlots(p, iterations)) <==> HasDistinctIDs(PerTask, p, iterations)
  {
    var slots := TaskLevelSlots(p, iterations);
    if DistinctIDs(slots) {
      forall i, m, j, n | IsNth(PerTask, p, iterations, i, m) && IsNth(PerTask, p, iterations, j, n) && (i, m) != (j, n)
        ensures NthID(PerTask, p, iterations, i, m) != NthID(PerTask, p, iterations, j, n)
      {
        NthAreApart(p, iterations, i, m, j, n);
      }
    }
    if HasDistinctIDs(PerTask, p, iterations) {
      forall a, b | 0 <= a < b < |slots|
        ensures slots[a].fullID != slots[b].fullID
      {
        var i, m := SlotIsNth(p, iterations, a);
        var j, n := SlotIsNth(p, iterations, b);
      }
    }
  }

  lemma SlotIsNth(p: Run, iterations: seq<string>, a: nat) returns (i: nat, m: nat)
    requires a < |TaskLevelSlots(p, iterations)|
    ensures IsNth(PerTask, p, iterations, i, m)
    ensures a == SlotAt(p.tasks, DeferredOf(p.tasks), IterationKeys(p.tasks, iterations), i, m)
    ensures TaskLevelSlots(p, iterations)[a].fullID == NthID(PerTask, p, iterations, i, m)
  {
    i, m := SlotOfSome(p.tasks, DeferredOf(p.tasks), IterationKeys(p.tasks, iterations), a);
    NthMeans(p, iterations, i, m);
    var _ := NthIsSlot(p, iterations, i, m);
  }

  lemma NamesMean(p: Run, iterations: seq<string>)
    ensures AllDepsDeclared(TaskLevelContext(p, iterations), Filed(TaskLevelSlots(p, iterations)), TaskIDs(p.tasks))
       <==> NamesTasks(PerTask, p, iterations)
  {
    var ctx, slots := TaskLevelContext(p, iterations), Filed(TaskLevelSlots(p, iterations));
    TaskLevelMeans(p, iterations);
    forall u, l, d | IsFiled(PerTask, p, iterations, u, l) && DependsOn(PerTask, p, u, d)
      ensures AllDepsDeclared(ctx, slots, TaskIDs(p.tasks)) ==> NamesTask(p, d)
    {
      IDOfBlank(u, l);
      DependsMeans(p, u);
      assert Blank(u, l) in slots && d in Elems(Declared(ctx, Blank(u, l)));
    }
    if NamesTasks(PerTask, p, iterations) {
      forall ti | ti in slots
        ensures Elems(Declared(ctx, ti)) <= TaskIDs(p.tasks)
      {
        IDOfBlank(ti.def, ti.key);
        DependsMeans(p, ti.def);
        forall d | d in Elems(Declared(ctx, ti))
          ensures d in TaskIDs(p.tasks)
        {
          assert NamesTask(p, d);
        }
      }
    }
  }

  /** The condition of the build, over the definitions. */
  lemma TaskLevelBuildsIff(p: Run, iterations: seq<string>)
    ensures TaskLevelBuilds(p, iterations) <==> IsGood(PerTask, p, iterations)
  {
    var ctx, all := TaskLevelContext(p, iterations), TaskLevelSlots(p, iterations);
    DistinctMeans(p, iterations);
    NamesMean(p, iterations);
    TaskLevelMeans(p, iterations);
    FiledFacts(all);
    if DistinctIDs(all) {
      forall a, b
        ensures (a, b) in IntendedEdges(ctx, Filed(all)) <==> IsEdge(PerTask, p, iterations, a, b)
      {
        EdgesMean(PerTask, p, iterations, ctx, all, Filed(all), a, b);
      }
      NoCycleMeans(PerTask, p, iterations, IntendedEdges(ctx, Filed(all)));
    }
  }

  lemma TaskLevelGraph(p: Run, iterations: seq<string>, run: ParsedRun)
    requires TaskLevelBuilds(p, iterations) && run.dag.nodes.Keys == IDs(TaskLevelSlots(p, iterations))
    requires Wired(run, TaskLevelContext(p, iterations), Filed(TaskLevelSlots(p, iterations)))
    ensures HasGraph(PerTask, p, iterations, run)
  {
    var all := TaskLevelSlots(p, iterations);
    FiledFacts(all);
    TaskLevelMeans(p, iterations);
    GraphMeans(PerTask, p, iterations, TaskLevelContext(p, iterations), all, Filed(all), run);
  }

  lemma DeferralIsConsistent(tasks: seq<TaskDef>, iterations: seq<string>)
    ensures ConsistentMode(tasks, SharedForEach(tasks).Keys, DeferredOf(tasks), IterationKeys(tasks, iterations))
  {
  }

  /** The task-level build. iterations are the keys that the shared for_each expands
      to. It succeeds exactly when the run is well formed, and
      neither that nor the graph depends on the order maps are ranged over in. */
  method BuildTaskLevel(p: Run, iterations: seq<string>) returns (r: Result<ParsedRun, BuildError>)
    ensures r.Ok? <==> TaskLevelBuilds(p, iterations)
    ensures r.Ok? ==>
              && r.value.dag.nodes.Keys == IDs(TaskLevelSlots(p, iterations))
              && Wired(r.value, TaskLevelContext(p, iterations), Filed(TaskLevelSlots(p, iterations)))
    ensures r.Ok? ==> r.value.deferredDefs == DeferredDefs(ParseForEachRef, p.tasks, DeferredOf(p.tasks))
    ensures r.Ok? <==> IsGood(PerTask, p, iterations)
    ensures r.Ok? ==> HasGraph(PerTask, p, iterations, r.value) && RecordsWaiting(p, r.value.deferredDefs)
  {
    DeferralsMean(p);
    r := AssembleTaskLevel(p, iterations);
    TaskLevelBuildsIff(p, iterations);
    if r.Ok? {
      TaskLevelGraph(p, iterations, r.value);
    }
  }

  /** The instances first, then their declared edges, then the file edges. */
  method AssembleTaskLevel(p: Run, iterations: seq<string>) returns (r: Result<ParsedRun, BuildError>)
    ensures r.Ok? <==> TaskLevelBuilds(p, iterations)
    ensures r.Ok? ==>
              && r.value.dag.nodes.Keys == IDs(TaskLevelSlots(p, iterations))
              && Wired(r.value, TaskLevelContext(p, iterations), Filed(TaskLevelSlots(p, iterations)))
    ensures r.Ok? ==> r.value.deferredDefs == DeferredDefs(ParseForEachRef, p.tasks, DeferredOf(p.tasks))
  {
    var shared := FindShared(p.tasks);
    var deferred: set<string> := {};
    var keys := iterations;
    if IsDynamic(shared) {
      deferred := DeferredTasks(p.tasks, shared.Keys);
      keys := [];
    }
    assert deferred == DeferredOf(p.tasks) && keys == IterationKeys(p.tasks, iterations);
    ghost var slots := Filed(TaskLevelSlots(p, iterations));
    ghost var ctx := TaskLevelContext(p, iterations);
    DeferralIsConsistent(p.tasks, iterations);
    var defs := CollectDeferred(ParseForEachRef, p.tasks, deferred);
    var dag, built := Materialise(p.tasks, deferred, keys);
    if built.Err? {
      return Err(BadGraph(built.error));
    }
    FiledFacts(TaskLevelSlots(p, iterations));
    var wired, now := WireDeclared(dag, built.value.0, p.tasks, shared.Keys, built.value.1, deferred, keys, slots);
    if wired.Err? {
      if Acyclic(IntendedEdges(ctx, slots)) {
        AcyclicSubset(PrimaryEdges(ctx, slots), IntendedEdges(ctx, slots));
      }
      return Err(wired.error);
    }
    r := FinishWiring(dag, wired.value, ctx, slots, now, defs);
  }
}
