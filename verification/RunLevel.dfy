/** The run-level build: every task has one instance per iteration of the run,
    except aggregators, which have one instance fed by all iterations. */
module RunLevelBuilder {
  import opened Wrappers
  import opened Graphs
  import opened Dags
  import opened Text
  import opened RunModel
  import opened Wiring
  import opened RunBuilder
  import opened RunGraphs

  // ---------------------------------------------------------------- the instances

  /** The instances of one iteration. */
  function IterationSlots(tasks: seq<TaskDef>, aggregators: set<string>, k: string): seq<TaskInstance> {
    if tasks == [] then []
    else
      var t := tasks[|tasks| - 1];
      IterationSlots(tasks[..|tasks| - 1], aggregators, k) + if t.id in aggregators then [] else [Blank(t, k)]
  }

  function AllIterationSlots(tasks: seq<TaskDef>, aggregators: set<string>, keys: seq<string>): seq<TaskInstance> {
    if keys == [] then []
    else
      AllIterationSlots(tasks, aggregators, keys[..|keys| - 1]) + IterationSlots(tasks, aggregators, keys[|keys| - 1])
  }

  function AggregatorSlots(tasks: seq<TaskDef>, aggregators: set<string>): seq<TaskInstance> {
    if tasks == [] then []
    else
      var t := tasks[|tasks| - 1];
      AggregatorSlots(tasks[..|tasks| - 1], aggregators) + if t.id in aggregators then [Blank(t, "")] else []
  }

  function RunLevelSlots(p: Run, keys: seq<string>): seq<TaskInstance> {
    var aggregators := AggregatorIDs(p.tasks);
    AllIterationSlots(p.tasks, aggregators, keys) + AggregatorSlots(p.tasks, aggregators)
  }

  function RunLevelContext(p: Run, keys: seq<string>): Context {
    RunLevel(p.forEach.Keys, AggregatorIDs(p.tasks), set k | k in keys)
  }

  /** No per-iteration instance depends on an aggregator. */
  ghost predicate IterationsFirst(ctx: Context, slots: seq<TaskInstance>)
    requires ctx.RunLevel?
  {
    forall ti | ti in slots && ti.def.id !in ctx.aggregators :: Elems(Declared(ctx, ti)) !! ctx.aggregators
  }

  /** An aggregator that the task at place i depends on is not listed after it. */
  ghost predicate ListedBefore(tasks: seq<TaskDef>, aggregators: set<string>, i: nat)
    requires i < |tasks|
  {
    forall d | d in tasks[i].deps && d in aggregators :: exists j :: 0 <= j <= i && tasks[j].id == d
  }

  ghost predicate AggregatorsInOrder(tasks: seq<TaskDef>, aggregators: set<string>) {
    forall i | 0 <= i < |tasks| && tasks[i].id in aggregators :: ListedBefore(tasks, aggregators, i)
  }

  /** Instance ids are distinct, declared dependencies name tasks, nothing
      depends on an aggregator that is created later, and the intended graph
      has no cycle. */
  ghost predicate RunLevelBuilds(p: Run, keys: seq<string>) {
    var ctx, slots := RunLevelContext(p, keys), RunLevelSlots(p, keys);
    && DistinctIDs(slots)
    && AllDepsDeclared(ctx, slots, TaskIDs(p.tasks))
    && IterationsFirst(ctx, slots)
    && AggregatorsInOrder(p.tasks, ctx.aggregators)
    && Acyclic(IntendedEdges(ctx, slots))
  }

  // ---------------------------------------------------------------- membership

  lemma {:induction false} IterationMembers(tasks: seq<TaskDef>, aggregators: set<string>, k: string)
    ensures forall ti :: ti in IterationSlots(tasks, aggregators, k) <==>
              exists t :: t in tasks && t.id !in aggregators && ti == Blank(t, k)
    decreases |tasks|
  {
    if tasks != [] {
      IterationMembers(tasks[..|tasks| - 1], aggregators, k);
      assert tasks == tasks[..|tasks| - 1] + [tasks[|tasks| - 1]];
    }
  }

  lemma {:induction false} AllIterationMembers(tasks: seq<TaskDef>, aggregators: set<string>, keys: seq<string>,
      ti: TaskInstance)
    ensures ti in AllIterationSlots(tasks, aggregators, keys) <==>
            exists t, k :: t in tasks && t.id !in aggregators && k in keys && ti == Blank(t, k)
    decreases |keys|
  {
    if keys != [] {
      var last := keys[|keys| - 1];
      AllIterationMembers(tasks, aggregators, keys[..|keys| - 1], ti);
      IterationMembers(tasks, aggregators, last);
      assert keys == keys[..|keys| - 1] + [last];
      assert forall k :: k in keys <==> k in keys[..|keys| - 1] || k == last;
    }
  }

  lemma {:induction false} AggregatorMembers(tasks: seq<TaskDef>, aggregators: set<string>)
    ensures forall ti :: ti in AggregatorSlots(tasks, aggregators) <==>
              exists t :: t in tasks && t.id in aggregators && ti == Blank(t, "")
    decreases |tasks|
  {
    if tasks != [] {
      AggregatorMembers(tasks[..|tasks| - 1], aggregators);
      assert tasks == tasks[..|tasks| - 1] + [tasks[|tasks| - 1]];
    }
  }

  lemma {:induction false} IterationsPrefix(tasks: seq<TaskDef>, aggregators: set<string>, keys: seq<string>, m: nat)
    requires m <= |keys|
    ensures AllIterationSlots(tasks, aggregators, keys[..m]) <= AllIterationSlots(tasks, aggregators, keys)
    decreases |keys|
  {
    if m == |keys| {
      assert keys[..m] == keys;
    } else {
      assert keys[..|keys| - 1][..m] == keys[..m];
      IterationsPrefix(tasks, aggregators, keys[..|keys| - 1], m);
    }
  }

  lemma {:induction false} IterationPrefix(tasks: seq<TaskDef>, aggregators: set<string>, k: string, n: nat)
    requires n <= |tasks|
    ensures IterationSlots(tasks[..n], aggregators, k) <= IterationSlots(tasks, aggregators, k)
    decreases |tasks|
  {
    if n == |tasks| {
      assert tasks[..n] == tasks;
    } else {
      assert tasks[..|tasks| - 1][..n] == tasks[..n];
      IterationPrefix(tasks[..|tasks| - 1], aggregators, k, n);
    }
  }

  lemma {:induction false} AggregatorPrefix(tasks: seq<TaskDef>, aggregators: set<string>, n: nat)
    requires n <= |tasks|
    ensures AggregatorSlots(tasks[..n], aggregators) <= AggregatorSlots(tasks, aggregators)
    decreases |tasks|
  {
    if n == |tasks| {
      assert tasks[..n] == tasks;
    } else {
      assert tasks[..|tasks| - 1][..n] == tasks[..n];
      AggregatorPrefix(tasks[..|tasks| - 1], aggregators, n);
    }
  }

  // ---------------------------------------------------------------- steps of the build

  ghost predicate AllNamed(ctx: Context, slots: seq<TaskInstance>, taskIDs: set<string>) {
    forall i | 0 <= i < |slots| :: Elems(Declared(ctx, slots[i])) <= taskIDs
  }

  ghost predicate Present(ctx: Context, ti: TaskInstance, ids: set<string>) {
    Elems(DepsOf(ctx, ti)) <= ids
  }

  ghost predicate AllPresent(ctx: Context, slots: seq<TaskInstance>, ids: set<string>) {
    forall i | 0 <= i < |slots| :: Present(ctx, slots[i], ids)
  }

  /** The instances with their dependencies filled in. */
  ghost predicate Fills(list: seq<TaskInstance>, ctx: Context, slots: seq<TaskInstance>) {
    |list| == |slots| && forall j | 0 <= j < |list| :: list[j] == slots[j].(dependsOn := DepsOf(ctx, slots[j]))
  }

  lemma FillsGrow(list: seq<TaskInstance>, ctx: Context, slots: seq<TaskInstance>, slot: TaskInstance)
    requires Fills(list, ctx, slots)
    ensures Fills(list + [slot.(dependsOn := DepsOf(ctx, slot))], ctx, slots + [slot])
  {
  }

  method ResolveIteration(ghost ctx: Context, ghost ti: TaskInstance, allDeps: seq<string>, aggregators: set<string>,
                          key: string)
    returns (resolved: seq<string>)
    requires ctx.RunLevel? && ctx.aggregators == aggregators && ti.def.id !in aggregators && ti.key == key
    ensures resolved == AllInstances(ctx, ti, allDeps)
  {
    resolved := [];
    for j := 0 to |allDeps|
      invariant resolved == AllInstances(ctx, ti, allDeps[..j])
    {
      assert allDeps[..j + 1][..j] == allDeps[..j];
      if allDeps[j] in aggregators {
        resolved := resolved + [allDeps[j]];
      } else {
        resolved := resolved + [MakeFullID(key, allDeps[j])];
      }
    }
    assert allDeps[..|allDeps|] == allDeps;
  }

  method ResolveAggregator(ghost ctx: Context, ghost ti: TaskInstance, allDeps: seq<string>, aggregators: set<string>,
                           keys: seq<string>)
    returns (resolved: seq<string>)
    requires ctx.RunLevel? && ctx.aggregators == aggregators && ctx.keys == Elems(keys) && ti.def.id in aggregators
    ensures resolved == AllInstances(ctx, ti, allDeps)
  {
    var sorted := Sort(keys);
    AscendingIsUnique(sorted, Ascend(ctx.keys));
    resolved := [];
    for j := 0 to |allDeps|
      invariant resolved == AllInstances(ctx, ti, allDeps[..j])
    {
      assert allDeps[..j + 1][..j] == allDeps[..j];
      if allDeps[j] in aggregators {
        resolved := resolved + [allDeps[j]];
      } else {
        resolved := resolved + FullIDs(sorted, allDeps[j]);
      }
    }
    assert allDeps[..|allDeps|] == allDeps;
  }

  /** A graph with a node per instance, edges only among the first ones. */
  ghost predicate Created(dag: Dag, ctx: Context, slots: seq<TaskInstance>, more: seq<TaskInstance>)
    reads dag
  {
    && dag.Valid() && DistinctIDs(slots + more)
    && dag.EdgeSet() == PrimaryEdges(ctx, slots) && dag.nodes.Keys == IDs(slots + more)
  }

  /** One instance of a task that is not an aggregator. */
  method CreateInstance(dag: Dag, t: TaskDef, taskIDs: set<string>, vars: set<string>, aggregators: set<string>,
                        key: string, ghost ctx: Context, ghost slots: seq<TaskInstance>, ghost more: seq<TaskInstance>)
    returns (r: Result<TaskInstance, BuildError>)
    requires ctx.RunLevel? && ctx.vars == vars && ctx.aggregators == aggregators && t.id !in aggregators
    requires Created(dag, ctx, slots, more)
    modifies dag
    ensures r.Ok? <==> DistinctIDs(slots + (more + [Blank(t, key)])) && Elems(Declared(ctx, Blank(t, key))) <= taskIDs
    ensures r.Ok? ==> r.value == Blank(t, key).(dependsOn := DepsOf(ctx, Blank(t, key)))
    ensures r.Ok? ==> Created(dag, ctx, slots, more + [Blank(t, key)])
  {
    ghost var slot := Blank(t, key);
    assert slots + (more + [slot]) == (slots + more) + [slot];
    var allDeps := FilterVars(t.deps, vars);
    assert Declared(ctx, slot) == allDeps;
    var declared := AllIn(allDeps, taskIDs);
    if !declared {
      return Err(UnknownDependency);
    }
    var resolved := ResolveIteration(ctx, slot, allDeps, aggregators, key);
    var ti := Blank(t, key).(dependsOn := resolved);
    AppendFactsForSlots(slots + more, slot);
    var added := dag.AddNode(ti.fullID, t.action, map["instance_key" := key, "task_def_id" := t.id]);
    if added.Err? {
      return Err(BadGraph(added.error));
    }
    return Ok(ti);
  }

  /** Creates the instances of one iteration and their nodes. */
  method CreateIteration(dag: Dag, tasks: seq<TaskDef>, vars: set<string>, aggregators: set<string>, key: string,
                         ghost ctx: Context, ghost slots: seq<TaskInstance>)
    returns (r: Result<seq<TaskInstance>, BuildError>)
    requires ctx.RunLevel? && ctx.vars == vars && ctx.aggregators == aggregators
    requires Created(dag, ctx, slots, [])
    modifies dag
    ensures
      var more := IterationSlots(tasks, aggregators, key);
      && (r.Ok? <==> DistinctIDs(slots + more) && AllNamed(ctx, more, TaskIDs(tasks)))
      && (r.Ok? ==> Fills(r.value, ctx, more) && Created(dag, ctx, slots, more))
  {
    var list: seq<TaskInstance> := [];
    ghost var more: seq<TaskInstance> := [];
    for n := 0 to |tasks|
      invariant more == IterationSlots(tasks[..n], aggregators, key)
      invariant Fills(list, ctx, more) && Created(dag, ctx, slots, more)
      invariant AllNamed(ctx, more, TaskIDs(tasks))
    {
      assert tasks[..n + 1][..n] == tasks[..n];
      if tasks[n].id in aggregators {
        continue;
      }
      var ti := CreateInstance(dag, tasks[n], TaskIDs(tasks), vars, aggregators, key, ctx, slots, more);
      if ti.Err? {
        RefusedInstance(tasks, aggregators, key, ctx, slots, n);
        return Err(ti.error);
      }
      FillsGrow(list, ctx, more, Blank(tasks[n], key));
      list := list + [ti.value];
      more := more + [Blank(tasks[n], key)];
    }
    assert tasks[..|tasks|] == tasks;
    return Ok(list);
  }

  lemma RefusedInstance(tasks: seq<TaskDef>, aggregators: set<string>, key: string, ctx: Context,
                        slots: seq<TaskInstance>, n: nat)
    requires n < |tasks| && tasks[n].id !in aggregators
    requires
      var next := IterationSlots(tasks[..n], aggregators, key) + [Blank(tasks[n], key)];
      !(DistinctIDs(slots + next) && Elems(Declared(ctx, Blank(tasks[n], key))) <= TaskIDs(tasks))
    ensures
      var all := IterationSlots(tasks, aggregators, key);
      !(DistinctIDs(slots + all) && AllNamed(ctx, all, TaskIDs(tasks)))
  {
    var all := IterationSlots(tasks, aggregators, key);
    var next := IterationSlots(tasks[..n], aggregators, key) + [Blank(tasks[n], key)];
    assert tasks[..n + 1][..n] == tasks[..n];
    IterationPrefix(tasks, aggregators, key, n + 1);
    assert next <= all && all[|next| - 1] == Blank(tasks[n], key);
    if DistinctIDs(slots + all) {
      DistinctPrefix(slots + next, slots + all);
    }
  }

  /** Adds the edges of the listed instances, one instance after the other. */
  method WireList(dag: Dag, list: seq<TaskInstance>, ghost ctx: Context, ghost slots: seq<TaskInstance>,
                  ghost more: seq<TaskInstance>)
    returns (r: Result<(), DagError>)
    requires Created(dag, ctx, slots, more) && Fills(list, ctx, more)
    modifies dag`edges, dag`inEdges
    ensures r.Ok? <==> AllPresent(ctx, more, IDs(slots + more)) && Acyclic(PrimaryEdges(ctx, slots + more))
    ensures r.Ok? ==> Created(dag, ctx, slots + more, [])
  {
    ghost var ids := IDs(slots + more);
    assert slots + more[..0] == slots;
    for j := 0 to |list|
      invariant dag.Valid() && dag.EdgeSet() == PrimaryEdges(ctx, slots + more[..j])
      invariant AllPresent(ctx, more[..j], ids)
    {
      WireListStep(ctx, slots, more, j, ids);
      var added := AddEdges(dag, list[j].dependsOn, list[j].fullID);
      if added.Err? {
        return Err(added.error);
      }
    }
    assert more[..|list|] == more && slots + more + [] == slots + more;
    return Ok(());
  }

  lemma WireListStep(ctx: Context, slots: seq<TaskInstance>, more: seq<TaskInstance>, j: nat, ids: set<string>)
    requires j < |more| && ids == IDs(slots + more) && AllPresent(ctx, more[..j], ids)
    ensures PrimaryEdges(ctx, slots + more[..j + 1]) ==
            PrimaryEdges(ctx, slots + more[..j]) + Fan(Elems(DepsOf(ctx, more[j])), more[j].fullID)
    ensures more[j].fullID in ids
    ensures Present(ctx, more[j], ids) ==> AllPresent(ctx, more[..j + 1], ids)
    ensures !Present(ctx, more[j], ids) || !Acyclic(PrimaryEdges(ctx, slots + more[..j + 1])) ==>
              !(AllPresent(ctx, more, ids) && Acyclic(PrimaryEdges(ctx, slots + more)))
  {
    assert slots + more[..j + 1] == (slots + more[..j]) + [more[j]];
    PrimaryEdgesGrow(ctx, slots + more[..j], more[j]);
    assert (slots + more)[|slots| + j] == more[j];
    PresentGrows(ctx, more, j, ids);
    if Acyclic(PrimaryEdges(ctx, slots + more)) {
      PrimaryEdgesPrefix(ctx, slots + more[..j + 1], slots + more);
    }
  }

  lemma PresentGrows(ctx: Context, more: seq<TaskInstance>, j: nat, ids: set<string>)
    requires j < |more| && AllPresent(ctx, more[..j], ids)
    ensures Present(ctx, more[j], ids) <==> AllPresent(ctx, more[..j + 1], ids)
  {
    var next := more[..j + 1];
    assert next[j] == more[j];
    forall i | 0 <= i < |next| - 1
      ensures Present(ctx, next[i], ids)
    {
      assert more[..j][i] == next[i];
    }
  }

  /** One aggregator: its only instance, its node and its edges. */
  method AddAggregator(dag: Dag, t: TaskDef, taskIDs: set<string>, aggregators: set<string>, keys: seq<string>,
                       ghost ctx: Context, ghost slots: seq<TaskInstance>)
    returns (r: Result<TaskInstance, BuildError>)
    requires ctx.RunLevel? && ctx.aggregators == aggregators && ctx.keys == Elems(keys) && t.id in aggregators
    requires Created(dag, ctx, slots, [])
    modifies dag
    ensures
      var slot := Blank(t, "");
      && (r.Ok? <==>
            && Elems(t.deps) <= taskIDs && DistinctIDs(slots + [slot])
            && Present(ctx, slot, IDs(slots + [slot])) && Acyclic(PrimaryEdges(ctx, slots + [slot])))
      && (r.Ok? ==> r.value == slot.(dependsOn := DepsOf(ctx, slot)) && Created(dag, ctx, slots + [slot], []))
  {
    ghost var slot := Blank(t, "");
    assert slots + [] == slots && slots + [slot] + [] == slots + [slot];
    var declared := AllIn(t.deps, taskIDs);
    if !declared {
      return Err(UnknownDependency);
    }
    assert Declared(ctx, slot) == t.deps;
    var resolved := ResolveAggregator(ctx, slot, t.deps, aggregators, keys);
    var ti := Blank(t, "").(dependsOn := resolved);
    AppendFactsForSlots(slots, slot);
    var added := dag.AddNode(t.id, t.action, map["instance_key" := "", "task_def_id" := t.id]);
    if added.Err? {
      return Err(BadGraph(added.error));
    }
    PrimaryEdgesGrow(ctx, slots, slot);
    var wired := AddEdges(dag, resolved, t.id);
    if wired.Err? {
      return Err(BadGraph(wired.error));
    }
    return Ok(ti);
  }

  // ---------------------------------------------------------------- why the build succeeds or fails

  /** A declared dependency of a per-iteration instance resolves to one of the
      same iteration, unless it is an aggregator. */
  lemma IterationParentsPresent(tasks: seq<TaskDef>, ctx: Context, k: string, ti: TaskInstance, ids: set<string>)
    requires ctx.RunLevel?
    requires ti in IterationSlots(tasks, ctx.aggregators, k)
    requires IDs(IterationSlots(tasks, ctx.aggregators, k)) <= ids
    requires Elems(Declared(ctx, ti)) <= TaskIDs(tasks) - ctx.aggregators
    ensures Present(ctx, ti, ids)
  {
    IterationMembers(tasks, ctx.aggregators, k);
    AllInstancesMembers(ctx, ti, Declared(ctx, ti));
    forall x | x in Elems(DepsOf(ctx, ti))
      ensures x in ids
    {
      var d :| d in Declared(ctx, ti) && x in Elems(DepInstances(ctx, ti, d));
      assert d in Elems(Declared(ctx, ti));
      ElemsOfOne(MakeFullID(ti.key, d));
      var u :| u in tasks && u.id == d;
      assert Blank(u, k) in IterationSlots(tasks, ctx.aggregators, k);
    }
  }

  /** An aggregator's dependencies on per-iteration tasks always exist. */
  lemma {:induction false} AggregatorParentsPresent(tasks: seq<TaskDef>, ctx: Context, keys: seq<string>,
      ti: TaskInstance, ids: set<string>)
    requires ctx.RunLevel? && ctx.keys == Elems(keys)
    requires ti.def.id in ctx.aggregators && Elems(ti.def.deps) <= TaskIDs(tasks)
    requires IDs(AllIterationSlots(tasks, ctx.aggregators, keys)) <= ids
    ensures Present(ctx, ti, ids) <==> Elems(ti.def.deps) * ctx.aggregators <= ids
  {
    AllInstancesMembers(ctx, ti, ti.def.deps);
    forall d | d in ti.def.deps
      ensures Elems(DepInstances(ctx, ti, d)) <= ids <==> d !in ctx.aggregators || d in ids
    {
      assert d in Elems(ti.def.deps);
      if d in ctx.aggregators {
        ElemsOfOne(d);
      } else {
        FullIDsFacts(Ascend(ctx.keys), d);
        var u :| u in tasks && u.id == d;
        forall k | k in ctx.keys
          ensures MakeFullID(k, d) in ids
        {
          AllIterationMembers(tasks, ctx.aggregators, keys, Blank(u, k));
        }
      }
    }
    forall x | x in Elems(DepsOf(ctx, ti))
      ensures exists d :: d in ti.def.deps && x in Elems(DepInstances(ctx, ti, d))
    {
    }
    if Present(ctx, ti, ids) {
      forall d | d in ti.def.deps && d in ctx.aggregators
        ensures d in ids
      {
        ElemsOfOne(d);
        assert d in Elems(DepInstances(ctx, ti, d));
      }
    }
  }

  /** The bare id of an aggregator names no earlier instance. */
  lemma AggregatorIsLater(p: Run, keys: seq<string>, d: string, n: nat)
    requires DistinctIDs(RunLevelSlots(p, keys)) && n <= |p.tasks|
    requires d in AggregatorIDs(p.tasks)
    requires d in IDs(AllIterationSlots(p.tasks, AggregatorIDs(p.tasks), keys)
                      + AggregatorSlots(p.tasks[..n], AggregatorIDs(p.tasks)))
    ensures exists j :: 0 <= j < n && p.tasks[j].id == d
  {
    var aggregators := AggregatorIDs(p.tasks);
    var early, late := AllIterationSlots(p.tasks, aggregators, keys), AggregatorSlots(p.tasks, aggregators);
    var some := AggregatorSlots(p.tasks[..n], aggregators);
    AggregatorPrefix(p.tasks, aggregators, n);
    var v: TaskInstance :| v in early + some && v.fullID == d;
    var u := AggregatorSlotOf(p.tasks, aggregators, d);
    assert u in early + late;
    SameIDSameSlot(early + late, v, u);
    AllIterationMembers(p.tasks, aggregators, keys, v);
    assert v in some;
    AggregatorMembers(p.tasks[..n], aggregators);
    var w :| w in p.tasks[..n] && w.id in aggregators && v == Blank(w, "");
    var j :| 0 <= j < n && p.tasks[..n][j] == w;
    assert p.tasks[j].id == d;
  }

  lemma AggregatorSlotOf(tasks: seq<TaskDef>, aggregators: set<string>, d: string) returns (u: TaskInstance)
    requires aggregators == AggregatorIDs(tasks) && d in aggregators
    ensures u in AggregatorSlots(tasks, aggregators)
    ensures u.fullID == d && u.def.id == d
  {
    AggregatorMembers(tasks, aggregators);
    var t :| t in tasks && t.aggregates != "" && t.id == d;
    u := Blank(t, "");
  }

  lemma IDsPrefix(slots: seq<TaskInstance>, all: seq<TaskInstance>)
    requires slots <= all
    ensures IDs(slots) <= IDs(all)
  {
    forall ti | ti in slots
      ensures ti in all
    {
      var i :| 0 <= i < |slots| && slots[i] == ti;
      assert all[i] == ti;
    }
  }

  lemma IDsOfPart(slots: seq<TaskInstance>, more: seq<TaskInstance>)
    ensures IDs(more) <= IDs(slots + more)
  {
    forall ti | ti in more
      ensures ti in slots + more
    {
    }
  }

  lemma RunSlotsPrefix(p: Run, keys: seq<string>, m: nat)
    requires m <= |keys|
    ensures AllIterationSlots(p.tasks, AggregatorIDs(p.tasks), keys[..m]) <= RunLevelSlots(p, keys)
  {
    IterationsPrefix(p.tasks, AggregatorIDs(p.tasks), keys, m);
  }

  /** In a well-formed run no iteration is refused. */
  lemma IterationAccepted(p: Run, keys: seq<string>, m: nat)
    requires RunLevelBuilds(p, keys) && m < |keys|
    ensures
      var ctx, aggregators := RunLevelContext(p, keys), AggregatorIDs(p.tasks);
      var slots, more :=
          AllIterationSlots(p.tasks, aggregators, keys[..m]), IterationSlots(p.tasks, aggregators, keys[m]);
      && DistinctIDs(slots + more) && AllNamed(ctx, more, TaskIDs(p.tasks))
      && AllPresent(ctx, more, IDs(slots + more)) && Acyclic(PrimaryEdges(ctx, slots + more))
  {
    var ctx, aggregators := RunLevelContext(p, keys), AggregatorIDs(p.tasks);
    var all := RunLevelSlots(p, keys);
    var slots, more :=
        AllIterationSlots(p.tasks, aggregators, keys[..m]), IterationSlots(p.tasks, aggregators, keys[m]);
    assert keys[..m + 1][..m] == keys[..m];
    RunSlotsPrefix(p, keys, m + 1);
    assert slots + more <= all;
    DistinctPrefix(slots + more, all);
    AcyclicSubset(PrimaryEdges(ctx, all), IntendedEdges(ctx, all));
    PrimaryEdgesPrefix(ctx, slots + more, all);
    IterationNamed(p, keys, all, slots, more, keys[m], IDs(slots + more));
  }

  lemma IterationNamed(p: Run, keys: seq<string>, all: seq<TaskInstance>, slots: seq<TaskInstance>,
                       more: seq<TaskInstance>, k: string, ids: set<string>)
    requires slots + more <= all && more == IterationSlots(p.tasks, AggregatorIDs(p.tasks), k)
    requires ids == IDs(slots + more)
    requires AllDepsDeclared(RunLevelContext(p, keys), all, TaskIDs(p.tasks))
    requires IterationsFirst(RunLevelContext(p, keys), all)
    ensures AllNamed(RunLevelContext(p, keys), more, TaskIDs(p.tasks))
    ensures AllPresent(RunLevelContext(p, keys), more, ids)
  {
    var ctx := RunLevelContext(p, keys);
    IDsOfPart(slots, more);
    IterationMembers(p.tasks, ctx.aggregators, k);
    forall i | 0 <= i < |more|
      ensures Elems(Declared(ctx, more[i])) <= TaskIDs(p.tasks)
      ensures Present(ctx, more[i], ids)
    {
      assert all[|slots| + i] == more[i];
      assert more[i] in all && more[i] in more;
      IterationParentsPresent(p.tasks, ctx, k, more[i], ids);
    }
  }

  /** The aggregator at place n finds its dependencies: they are created before it. */
  ghost predicate AggregatorFits(p: Run, keys: seq<string>, n: nat)
    requires n < |p.tasks|
  {
    var ctx, aggregators := RunLevelContext(p, keys), AggregatorIDs(p.tasks);
    p.tasks[n].id in aggregators ==>
      && Elems(p.tasks[n].deps) <= TaskIDs(p.tasks)
      && Present(ctx, Blank(p.tasks[n], ""),
                 IDs(AllIterationSlots(p.tasks, aggregators, keys) + AggregatorSlots(p.tasks[..n + 1], aggregators)))
  }

  ghost predicate AllFit(p: Run, keys: seq<string>, n: nat)
    requires n <= |p.tasks|
  {
    forall i | 0 <= i < n :: AggregatorFits(p, keys, i)
  }

  /** The aggregators that exist after some of them have been built. */
  lemma AggregatorPresentIff(p: Run, keys: seq<string>, n: nat, d: string)
    requires DistinctIDs(RunLevelSlots(p, keys)) && n < |p.tasks| && d in AggregatorIDs(p.tasks)
    ensures
      var aggregators := AggregatorIDs(p.tasks);
      d in IDs(AllIterationSlots(p.tasks, aggregators, keys) + AggregatorSlots(p.tasks[..n + 1], aggregators))
      <==> exists j :: 0 <= j <= n && p.tasks[j].id == d
  {
    var aggregators := AggregatorIDs(p.tasks);
    var early, some := AllIterationSlots(p.tasks, aggregators, keys), AggregatorSlots(p.tasks[..n + 1], aggregators);
    if d in IDs(early + some) {
      AggregatorIsLater(p, keys, d, n + 1);
    }
    if j :| 0 <= j <= n && p.tasks[j].id == d {
      AggregatorMembers(p.tasks[..n + 1], aggregators);
      assert p.tasks[..n + 1][j] == p.tasks[j];
      assert Blank(p.tasks[j], "") in some;
      IDsOfPart(early, some);
    }
  }

  /** In a run with distinct ids, finding its dependencies means for an
      aggregator that they are declared and in order. */
  lemma FitsIffInOrder(p: Run, keys: seq<string>, n: nat)
    requires DistinctIDs(RunLevelSlots(p, keys)) && n < |p.tasks|
    requires p.tasks[n].id in AggregatorIDs(p.tasks)
    ensures AggregatorFits(p, keys, n) <==>
            && Elems(p.tasks[n].deps) <= TaskIDs(p.tasks)
            && ListedBefore(p.tasks, AggregatorIDs(p.tasks), n)
  {
    var ctx, aggregators := RunLevelContext(p, keys), AggregatorIDs(p.tasks);
    var early, some := AllIterationSlots(p.tasks, aggregators, keys), AggregatorSlots(p.tasks[..n + 1], aggregators);
    if Elems(p.tasks[n].deps) <= TaskIDs(p.tasks) {
      IDsPrefix(early, early + some);
      AggregatorParentsPresent(p.tasks, ctx, keys, Blank(p.tasks[n], ""), IDs(early + some));
      forall d | d in p.tasks[n].deps && d in aggregators
        ensures d in IDs(early + some) <==> exists j :: 0 <= j <= n && p.tasks[j].id == d
      {
        AggregatorPresentIff(p, keys, n, d);
      }
      forall d
        ensures d in Elems(p.tasks[n].deps) * aggregators <==> d in p.tasks[n].deps && d in aggregators
      {
      }
    }
  }

  lemma AggregatorEdgesAccepted(p: Run, keys: seq<string>, n: nat)
    requires RunLevelBuilds(p, keys) && n < |p.tasks|
    ensures
      var ctx, aggregators := RunLevelContext(p, keys), AggregatorIDs(p.tasks);
      var slots := AllIterationSlots(p.tasks, aggregators, keys) + AggregatorSlots(p.tasks[..n + 1], aggregators);
      DistinctIDs(slots) && Acyclic(PrimaryEdges(ctx, slots))
  {
    var ctx, aggregators := RunLevelContext(p, keys), AggregatorIDs(p.tasks);
    var all := RunLevelSlots(p, keys);
    var slots := AllIterationSlots(p.tasks, aggregators, keys) + AggregatorSlots(p.tasks[..n + 1], aggregators);
    AggregatorPrefix(p.tasks, aggregators, n + 1);
    DistinctPrefix(slots, all);
    AcyclicSubset(PrimaryEdges(ctx, all), IntendedEdges(ctx, all));
    PrimaryEdgesPrefix(ctx, slots, all);
  }

  /** In a well-formed run no aggregator is refused. */
  lemma AggregatorAccepted(p: Run, keys: seq<string>, n: nat)
    requires RunLevelBuilds(p, keys) && n < |p.tasks| && p.tasks[n].id in AggregatorIDs(p.tasks)
    ensures
      var ctx, aggregators := RunLevelContext(p, keys), AggregatorIDs(p.tasks);
      var slots := AllIterationSlots(p.tasks, aggregators, keys) + AggregatorSlots(p.tasks[..n + 1], aggregators);
      && DistinctIDs(slots) && AggregatorFits(p, keys, n) && Acyclic(PrimaryEdges(ctx, slots))
  {
    AggregatorEdgesAccepted(p, keys, n);
    AggregatorNamed(p, keys, n);
    FitsIffInOrder(p, keys, n);
  }

  lemma AggregatorNamed(p: Run, keys: seq<string>, n: nat)
    requires n < |p.tasks| && p.tasks[n].id in AggregatorIDs(p.tasks)
    requires AllDepsDeclared(RunLevelContext(p, keys), RunLevelSlots(p, keys), TaskIDs(p.tasks))
    ensures Elems(p.tasks[n].deps) <= TaskIDs(p.tasks)
  {
    var slot := Blank(p.tasks[n], "");
    AggregatorMembers(p.tasks, AggregatorIDs(p.tasks));
    assert slot in AggregatorSlots(p.tasks, AggregatorIDs(p.tasks));
    assert slot in RunLevelSlots(p, keys);
    assert Declared(RunLevelContext(p, keys), slot) == p.tasks[n].deps;
  }

  /** Every iteration and every aggregator accepted: the run is well formed. */
  lemma AcceptedIsWellFormed(p: Run, keys: seq<string>)
    requires
      var ctx, aggregators := RunLevelContext(p, keys), AggregatorIDs(p.tasks);
      var early := AllIterationSlots(p.tasks, aggregators, keys);
      && AllNamed(ctx, early, TaskIDs(p.tasks)) && AllPresent(ctx, early, IDs(early))
    requires DistinctIDs(RunLevelSlots(p, keys))
    requires AllFit(p, keys, |p.tasks|)
    ensures AllDepsDeclared(RunLevelContext(p, keys), RunLevelSlots(p, keys), TaskIDs(p.tasks))
    ensures IterationsFirst(RunLevelContext(p, keys), RunLevelSlots(p, keys))
    ensures AggregatorsInOrder(p.tasks, AggregatorIDs(p.tasks))
  {
    var ctx, aggregators := RunLevelContext(p, keys), AggregatorIDs(p.tasks);
    var early, late := AllIterationSlots(p.tasks, aggregators, keys), AggregatorSlots(p.tasks, aggregators);
    AggregatorMembers(p.tasks, aggregators);
    forall n | 0 <= n < |p.tasks| && p.tasks[n].id in aggregators
      ensures Elems(p.tasks[n].deps) <= TaskIDs(p.tasks) && ListedBefore(p.tasks, aggregators, n)
    {
      assert AggregatorFits(p, keys, n);
      FitsIffInOrder(p, keys, n);
    }
    forall ti | ti in early + late
      ensures Elems(Declared(ctx, ti)) <= TaskIDs(p.tasks)
      ensures ti.def.id !in aggregators ==> Elems(Declared(ctx, ti)) !! aggregators
    {
      if ti in early {
        EarlyAvoidsAggregators(p, keys, ti);
      } else {
        assert ti in late;
        var t :| t in p.tasks && t.id in aggregators && ti == Blank(t, "");
        var n :| 0 <= n < |p.tasks| && p.tasks[n] == t;
      }
    }
  }

  lemma {:induction false} EarlyAvoidsAggregators(p: Run, keys: seq<string>, ti: TaskInstance)
    requires
      var ctx, aggregators := RunLevelContext(p, keys), AggregatorIDs(p.tasks);
      var early := AllIterationSlots(p.tasks, aggregators, keys);
      && AllNamed(ctx, early, TaskIDs(p.tasks)) && AllPresent(ctx, early, IDs(early)) && ti in early
    requires DistinctIDs(RunLevelSlots(p, keys))
    ensures Elems(Declared(RunLevelContext(p, keys), ti)) <= TaskIDs(p.tasks) - AggregatorIDs(p.tasks)
  {
    var ctx, aggregators := RunLevelContext(p, keys), AggregatorIDs(p.tasks);
    var early := AllIterationSlots(p.tasks, aggregators, keys);
    var i :| 0 <= i < |early| && early[i] == ti;
    assert Present(ctx, early[i], IDs(early));
    AllInstancesMembers(ctx, ti, Declared(ctx, ti));
    forall d | d in Declared(ctx, ti)
      ensures d !in aggregators
    {
      if d in aggregators {
        ElemsOfOne(d);
        assert d in Elems(DepInstances(ctx, ti, d));
        assert p.tasks[..0] == [];
        assert early + AggregatorSlots(p.tasks[..0], aggregators) == early;
        AggregatorIsLater(p, keys, d, 0);
      }
    }
  }

  // ---------------------------------------------------------------- the build

  /** Every filed instance lists its resolved declared dependencies. */
  ghost predicate Resolved(buckets: Buckets, ctx: Context) {
    forall k, i {:trigger At(buckets, k, i)} | At(buckets, k, i) ::
      buckets[k][i].dependsOn == DepsOf(ctx, Unwired(buckets[k][i]))
  }

  lemma SameAt(buckets: Buckets, more: Buckets, slots: seq<TaskInstance>, ctx: Context)
    requires Placed(buckets, slots) && Resolved(buckets, ctx)
    requires forall k, i {:trigger At(more, k, i)} {:trigger At(buckets, k, i)} ::
               (At(more, k, i) <==> At(buckets, k, i)) && (At(more, k, i) ==> more[k][i] == buckets[k][i])
    ensures Placed(more, slots) && Resolved(more, ctx)
  {
    assert SameSlots(buckets, more);
    SameSlotsPlaced(buckets, more, slots);
  }

  lemma PlaceOne(buckets: Buckets, slots: seq<TaskInstance>, ctx: Context, slot: TaskInstance)
    requires Placed(buckets, slots) && Resolved(buckets, ctx)
    requires slot == Unwired(slot) && slot.fullID !in IDs(slots)
    ensures
      var ti := slot.(dependsOn := DepsOf(ctx, slot));
      Placed(Append(buckets, ti), slots + [slot]) && Resolved(Append(buckets, ti), ctx)
  {
    var ti := slot.(dependsOn := DepsOf(ctx, slot));
    assert Unwired(ti) == slot;
    AppendPlaced(buckets, slots, ti);
    AppendedAt(buckets, ti);
  }

  lemma AppendToList(buckets: Buckets, k: string, list: seq<TaskInstance>, ti: TaskInstance)
    requires ti.key == k
    ensures Append(buckets[k := Bucket(buckets, k) + list], ti) == buckets[k := Bucket(buckets, k) + (list + [ti])]
  {
    AppendAssociates(Bucket(buckets, k), list, ti);
  }

  ghost predicate AllAt(slots: seq<TaskInstance>, k: string) {
    forall i | 0 <= i < |slots| :: slots[i].key == k && slots[i] == Unwired(slots[i])
  }

  /** Files a list of instances under one key, behind what is there. */
  lemma {:induction false} PlaceList(buckets: Buckets, slots: seq<TaskInstance>, ctx: Context, k: string,
                                     list: seq<TaskInstance>, more: seq<TaskInstance>)
    requires Placed(buckets, slots) && Resolved(buckets, ctx)
    requires Fills(list, ctx, more) && DistinctIDs(slots + more) && AllAt(more, k)
    ensures Placed(buckets[k := Bucket(buckets, k) + list], slots + more)
    ensures Resolved(buckets[k := Bucket(buckets, k) + list], ctx)
    decreases |list|
  {
    if list == [] {
      assert slots + more == slots;
      SameAt(buckets, buckets[k := Bucket(buckets, k) + list], slots, ctx);
    } else {
      var n := |list| - 1;
      var slot := more[n];
      FilledPrefix(list, ctx, more, slots, k);
      PlaceList(buckets, slots, ctx, k, list[..n], more[..n]);
      PlaceOne(buckets[k := Bucket(buckets, k) + list[..n]], slots + more[..n], ctx, slot);
      AppendToList(buckets, k, list[..n], list[n]);
      SplitLast(list);
    }
  }

  lemma FilledPrefix(list: seq<TaskInstance>, ctx: Context, more: seq<TaskInstance>, slots: seq<TaskInstance>,
                     k: string)
    requires Fills(list, ctx, more) && DistinctIDs(slots + more) && AllAt(more, k) && |list| > 0
    ensures
      var n := |list| - 1;
      && Fills(list[..n], ctx, more[..n]) && DistinctIDs(slots + more[..n]) && AllAt(more[..n], k)
      && more[n] == Unwired(more[n]) && more[n].fullID !in IDs(slots + more[..n])
      && list[n] == more[n].(dependsOn := DepsOf(ctx, more[n])) && list[n].key == k
      && slots + more == slots + more[..n] + [more[n]]
  {
    var n := |list| - 1;
    SplitLast(more);
    AppendAssociates(slots, more[..n], more[n]);
    DistinctPrefix(slots + more[..n], slots + more);
    AppendFactsForSlots(slots + more[..n], more[n]);
  }

  /** The bucket of an iteration is still empty when it is filed. */
  lemma BucketIsEmpty(buckets: Buckets, tasks: seq<TaskDef>, aggregators: set<string>, keys: seq<string>, k: string)
    requires Placed(buckets, AllIterationSlots(tasks, aggregators, keys))
    requires DistinctIDs(AllIterationSlots(tasks, aggregators, keys) + IterationSlots(tasks, aggregators, k))
    ensures Bucket(buckets, k) == []
  {
    if Bucket(buckets, k) != [] {
      assert At(buckets, k, 0);
      var ti := Unwired(buckets[k][0]);
      assert ti.key == buckets[k][0].key;
      AllIterationMembers(tasks, aggregators, keys, ti);
      IterationMembers(tasks, aggregators, k);
      SlotTwice(AllIterationSlots(tasks, aggregators, keys), IterationSlots(tasks, aggregators, k), ti);
    }
  }

  lemma SlotTwice(slots: seq<TaskInstance>, more: seq<TaskInstance>, ti: TaskInstance)
    requires ti in slots && ti in more
    ensures !DistinctIDs(slots + more)
  {
    var i :| 0 <= i < |slots| && slots[i] == ti;
    var j :| 0 <= j < |more| && more[j] == ti;
    assert (slots + more)[i] == ti && (slots + more)[|slots| + j] == ti;
  }

  /** The state of the build between two steps. */
  ghost predicate Building(dag: Dag, buckets: Buckets, ctx: Context, slots: seq<TaskInstance>)
    reads dag
  {
    Created(dag, ctx, slots, []) && Placed(buckets, slots) && Resolved(buckets, ctx)
  }

  /** One iteration: its instances, their nodes, their edges, their bucket. */
  method BuildIteration(dag: Dag, buckets: Buckets, p: Run, keys: seq<string>, m: nat, ghost slots: seq<TaskInstance>)
    returns (r: Result<Buckets, BuildError>)
    requires m < |keys| && slots == AllIterationSlots(p.tasks, AggregatorIDs(p.tasks), keys[..m])
    requires Building(dag, buckets, RunLevelContext(p, keys), slots)
    requires AllNamed(RunLevelContext(p, keys), slots, TaskIDs(p.tasks))
    requires AllPresent(RunLevelContext(p, keys), slots, IDs(slots))
    modifies dag
    ensures r.Err? ==> !RunLevelBuilds(p, keys)
    ensures r.Ok? ==>
              var ctx, slots' :=
                  RunLevelContext(p, keys), AllIterationSlots(p.tasks, AggregatorIDs(p.tasks), keys[..m + 1]);
              && Building(dag, r.value, ctx, slots')
              && AllNamed(ctx, slots', TaskIDs(p.tasks)) && AllPresent(ctx, slots', IDs(slots'))
  {
    ghost var ctx := RunLevelContext(p, keys);
    ghost var more := IterationSlots(p.tasks, AggregatorIDs(p.tasks), keys[m]);
    if RunLevelBuilds(p, keys) {
      IterationAccepted(p, keys, m);
    }
    var list := CreateIteration(dag, p.tasks, p.forEach.Keys, AggregatorIDs(p.tasks), keys[m], ctx, slots);
    if list.Err? {
      return Err(list.error);
    }
    var wired := WireList(dag, list.value, ctx, slots, more);
    if wired.Err? {
      return Err(BadGraph(wired.error));
    }
    FiledIteration(buckets, p, keys, m, slots, list.value);
    return Ok(buckets[keys[m] := list.value]);
  }

  lemma FiledIteration(buckets: Buckets, p: Run, keys: seq<string>, m: nat, slots: seq<TaskInstance>,
                       list: seq<TaskInstance>)
    requires m < |keys| && slots == AllIterationSlots(p.tasks, AggregatorIDs(p.tasks), keys[..m])
    requires Placed(buckets, slots) && Resolved(buckets, RunLevelContext(p, keys))
    requires
      var ctx, more := RunLevelContext(p, keys), IterationSlots(p.tasks, AggregatorIDs(p.tasks), keys[m]);
      && Fills(list, ctx, more) && DistinctIDs(slots + more)
      && AllNamed(ctx, slots, TaskIDs(p.tasks)) && AllNamed(ctx, more, TaskIDs(p.tasks))
      && AllPresent(ctx, slots, IDs(slots)) && AllPresent(ctx, more, IDs(slots + more))
    ensures
      var ctx, slots' := RunLevelContext(p, keys), AllIterationSlots(p.tasks, AggregatorIDs(p.tasks), keys[..m + 1]);
      && slots' == slots + IterationSlots(p.tasks, AggregatorIDs(p.tasks), keys[m])
      && Placed(buckets[keys[m] := list], slots') && Resolved(buckets[keys[m] := list], ctx)
      && AllNamed(ctx, slots', TaskIDs(p.tasks)) && AllPresent(ctx, slots', IDs(slots'))
  {
    var ctx, more := RunLevelContext(p, keys), IterationSlots(p.tasks, AggregatorIDs(p.tasks), keys[m]);
    NextPrefix(keys, m);
    BucketIsEmpty(buckets, p.tasks, AggregatorIDs(p.tasks), keys[..m], keys[m]);
    NothingBefore(Bucket(buckets, keys[m]), list);
    IterationIsAt(p.tasks, AggregatorIDs(p.tasks), keys[m]);
    PlaceList(buckets, slots, ctx, keys[m], list, more);
    IDsPrefix(slots, slots + more);
    NamedAndPresent(ctx, slots, more, TaskIDs(p.tasks), IDs(slots + more));
  }

  lemma NothingBefore<T>(a: seq<T>, b: seq<T>)
    requires a == []
    ensures a + b == b
  {
  }

  lemma IterationIsAt(tasks: seq<TaskDef>, aggregators: set<string>, k: string)
    ensures AllAt(IterationSlots(tasks, aggregators, k), k)
  {
    IterationMembers(tasks, aggregators, k);
    var more := IterationSlots(tasks, aggregators, k);
    assert forall i | 0 <= i < |more| :: more[i] in more;
  }

  lemma NamedAndPresent(ctx: Context, slots: seq<TaskInstance>, more: seq<TaskInstance>, taskIDs: set<string>,
                        ids: set<string>)
    requires AllNamed(ctx, slots, taskIDs) && AllNamed(ctx, more, taskIDs)
    requires AllPresent(ctx, slots, ids) && AllPresent(ctx, more, ids)
    ensures AllNamed(ctx, slots + more, taskIDs) && AllPresent(ctx, slots + more, ids)
  {
  }

  /** What the acceptance or refusal of one aggregator says about the run. */
  lemma AggregatorVerdict(p: Run, keys: seq<string>, n: nat, slots: seq<TaskInstance>)
    requires n < |p.tasks| && p.tasks[n].id in AggregatorIDs(p.tasks)
    requires slots == AllIterationSlots(p.tasks, AggregatorIDs(p.tasks), keys)
                      + AggregatorSlots(p.tasks[..n], AggregatorIDs(p.tasks))
    ensures
      var ctx, slot := RunLevelContext(p, keys), Blank(p.tasks[n], "");
      var accepted :=
        && Elems(p.tasks[n].deps) <= TaskIDs(p.tasks) && DistinctIDs(slots + [slot])
        && Present(ctx, slot, IDs(slots + [slot])) && Acyclic(PrimaryEdges(ctx, slots + [slot]));
      && (accepted ==> AggregatorFits(p, keys, n))
      && (!accepted ==> !RunLevelBuilds(p, keys))
  {
    assert p.tasks[..n + 1][..n] == p.tasks[..n];
    assert slots + [Blank(p.tasks[n], "")] ==
           AllIterationSlots(p.tasks, AggregatorIDs(p.tasks), keys)
               + AggregatorSlots(p.tasks[..n + 1], AggregatorIDs(p.tasks));
    if RunLevelBuilds(p, keys) {
      AggregatorAccepted(p, keys, n);
    }
  }

  /** The aggregators of the first n tasks are built. */
  ghost predicate Aggregated(dag: Dag, p: Run, keys: seq<string>, n: nat, early: seq<TaskInstance>,
                             list: seq<TaskInstance>)
    requires n <= |p.tasks|
    reads dag
  {
    var late := AggregatorSlots(p.tasks[..n], AggregatorIDs(p.tasks));
    && Created(dag, RunLevelContext(p, keys), early + late, [])
    && Fills(list, RunLevelContext(p, keys), late)
    && AllFit(p, keys, n)
  }

  /** The aggregator pass. */
  method BuildAggregators(dag: Dag, p: Run, keys: seq<string>, ghost early: seq<TaskInstance>)
    returns (r: Result<seq<TaskInstance>, BuildError>)
    requires early == AllIterationSlots(p.tasks, AggregatorIDs(p.tasks), keys)
    requires Created(dag, RunLevelContext(p, keys), early, [])
    modifies dag
    ensures r.Err? ==> !RunLevelBuilds(p, keys)
    ensures r.Ok? ==> Aggregated(dag, p, keys, |p.tasks|, early, r.value)
  {
    var list: seq<TaskInstance> := [];
    for n := 0 to |p.tasks|
      invariant Aggregated(dag, p, keys, n, early, list)
    {
      if p.tasks[n].id !in AggregatorIDs(p.tasks) {
        SkippedTask(dag, p, keys, n, early, list);
        continue;
      }
      var built := BuildAggregator(dag, p, keys, n, early, list);
      if built.Err? {
        return Err(built.error);
      }
      list := list + [built.value];
    }
    return Ok(list);
  }

  lemma SkippedTask(dag: Dag, p: Run, keys: seq<string>, n: nat, early: seq<TaskInstance>, list: seq<TaskInstance>)
    requires n < |p.tasks| && p.tasks[n].id !in AggregatorIDs(p.tasks)
    requires Aggregated(dag, p, keys, n, early, list)
    ensures Aggregated(dag, p, keys, n + 1, early, list)
  {
    NextPrefix(p.tasks, n);
    assert AggregatorSlots(p.tasks[..n + 1], AggregatorIDs(p.tasks))
        == AggregatorSlots(p.tasks[..n], AggregatorIDs(p.tasks));
    assert AllFit(p, keys, n + 1);
  }

  method BuildAggregator(dag: Dag, p: Run, keys: seq<string>, n: nat, ghost early: seq<TaskInstance>,
                         ghost list: seq<TaskInstance>)
    returns (r: Result<TaskInstance, BuildError>)
    requires n < |p.tasks| && p.tasks[n].id in AggregatorIDs(p.tasks)
    requires early == AllIterationSlots(p.tasks, AggregatorIDs(p.tasks), keys)
    requires Aggregated(dag, p, keys, n, early, list)
    modifies dag
    ensures r.Err? ==> !RunLevelBuilds(p, keys)
    ensures r.Ok? ==> Aggregated(dag, p, keys, n + 1, early, list + [r.value])
  {
    ghost var ctx, slot := RunLevelContext(p, keys), Blank(p.tasks[n], "");
    ghost var late := AggregatorSlots(p.tasks[..n], AggregatorIDs(p.tasks));
    AggregatorVerdict(p, keys, n, early + late);
    r := AddAggregator(dag, p.tasks[n], TaskIDs(p.tasks), AggregatorIDs(p.tasks), keys, ctx, early + late);
    if r.Ok? {
      NextPrefix(p.tasks, n);
      AppendAssociates(early, late, slot);
      FillsGrow(list, ctx, late, slot);
    }
  }

  /** What the finished declared wiring means for the lists of dependencies. */
  lemma ResolvedLists(buckets: Buckets, ctx: Context, slots: seq<TaskInstance>) returns (was: map<string, set<string>>)
    requires Placed(buckets, slots) && Resolved(buckets, ctx) && DistinctIDs(slots)
    ensures Lists(buckets, was) && Augmented(NoDeps(IDs(slots)), was, PrimaryEdges(ctx, slots), IDs(slots))
  {
    was := map id | id in IDs(slots) :: ParentsOf(PrimaryEdges(ctx, slots), id);
    forall k, i | At(buckets, k, i)
      ensures buckets[k][i].fullID in was && Elems(buckets[k][i].dependsOn) == was[buckets[k][i].fullID]
    {
      var slot := Unwired(buckets[k][i]);
      assert slot in slots && slot.fullID == buckets[k][i].fullID;
      PrimaryParents(ctx, slots, slot);
    }
  }

  // ---------------------------------------------------------------- the graph over the definitions

  lemma RunInstancesMean(p: Run, iterations: seq<string>, ti: TaskInstance)
    ensures ti in RunLevelSlots(p, iterations)
       <==> IsInstance(PerRun, p, iterations, ti.def, ti.key) && ti == Blank(ti.def, ti.key)
  {
    var aggregators := AggregatorIDs(p.tasks);
    AllIterationMembers(p.tasks, aggregators, iterations, ti);
    AggregatorMembers(p.tasks, aggregators);
    VariablesMean(p);
    if ti in RunLevelSlots(p, iterations) {
      var t, k :| t in p.tasks && ti == Blank(t, k) && if t.id in aggregators then k == "" else k in iterations;
      IDOfBlank(t, k);
    }
  }

  lemma RunStandsForMeans(p: Run, iterations: seq<string>, u: TaskDef, l: string, d: string, id: string)
    ensures id in Elems(DepInstances(RunLevelContext(p, iterations), Blank(u, l), d))
       <==> StandsFor(PerRun, p, iterations, u, l, d, id)
  {
    IDOfBlank(u, l);
    VariablesMean(p);
    if d in AggregatorIDs(p.tasks) {
      ElemsOfOne(d);
    } else if u.id in AggregatorIDs(p.tasks) {
      assert (set k | k in iterations) == Elems(iterations);
      AllIterationsMean(iterations, d, id);
    } else {
      ElemsOfOne(MakeFullID(l, d));
    }
  }

  lemma RunDependsMeans(p: Run, iterations: seq<string>, u: TaskDef, l: string)
    ensures forall d :: d in Declared(RunLevelContext(p, iterations), Blank(u, l)) <==> DependsOn(PerRun, p, u, d)
  {
    IDOfBlank(u, l);
    VariablesMean(p);
    FilterVarsMembers(u.deps, p.forEach.Keys);
  }

  lemma RunDeclaredMean(p: Run, iterations: seq<string>, u: TaskDef, l: string, id: string)
    ensures id in Elems(DepsOf(RunLevelContext(p, iterations), Blank(u, l)))
       <==> IsDeclaredParent(PerRun, p, iterations, u, l, id)
  {
    var ctx := RunLevelContext(p, iterations);
    AllInstancesMembers(ctx, Blank(u, l), Declared(ctx, Blank(u, l)));
    RunDependsMeans(p, iterations, u, l);
    forall d | DependsOn(PerRun, p, u, d)
      ensures id in Elems(DepInstances(ctx, Blank(u, l), d)) <==> StandsFor(PerRun, p, iterations, u, l, d, id)
    {
      RunStandsForMeans(p, iterations, u, l, d, id);
    }
  }

  lemma RunLevelMeans(p: Run, iterations: seq<string>)
    ensures Means(PerRun, p, iterations, RunLevelContext(p, iterations), RunLevelSlots(p, iterations),
                  RunLevelSlots(p, iterations))
  {
    forall ti
      ensures ti in RunLevelSlots(p, iterations)
         <==> IsInstance(PerRun, p, iterations, ti.def, ti.key) && ti == Blank(ti.def, ti.key)
    {
      RunInstancesMean(p, iterations, ti);
    }
    forall t, k, id | IsInstance(PerRun, p, iterations, t, k)
      ensures id in Elems(DepsOf(RunLevelContext(p, iterations), Blank(t, k)))
         <==> IsDeclaredParent(PerRun, p, iterations, t, k, id)
    {
      RunDeclaredMean(p, iterations, t, k, id);
    }
  }

  // ---------------------------------------------------------------- success over the definitions

  /** Where the m-th instance of the task at i is. */
  function RunSlotAt(p: Run, keys: seq<string>, i: nat, m: nat): nat
    requires i < |p.tasks|
  {
    var aggregators := AggregatorIDs(p.tasks);
    if p.tasks[i].id in aggregators then
      |AllIterationSlots(p.tasks, aggregators, keys)| + |AggregatorSlots(p.tasks[..i], aggregators)|
    else if m < |keys| then
      |AllIterationSlots(p.tasks, aggregators, keys[..m])| + |IterationSlots(p.tasks[..i], aggregators, keys[m])|
    else 0
  }

  ghost predicate SitsAt(slots: seq<TaskInstance>, a: int, ti: TaskInstance) {
    0 <= a < |slots| && slots[a] == ti
  }

  lemma SitsInPrefix(front: seq<TaskInstance>, own: seq<TaskInstance>, all: seq<TaskInstance>, a: nat, ti: TaskInstance)
    requires front + own <= all && SitsAt(own, a, ti)
    ensures SitsAt(all, |front| + a, ti) && |front| + a < |front + own| <= |all|
  {
    InPrefix(front, own, all, a);
  }

  lemma IterationSlotIsAt(tasks: seq<TaskDef>, aggregators: set<string>, k: string, i: nat)
    requires i < |tasks| && tasks[i].id !in aggregators
    ensures SitsAt(IterationSlots(tasks, aggregators, k), |IterationSlots(tasks[..i], aggregators, k)|,
          Blank(tasks[i], k))
  {
    NextPrefix(tasks, i);
    IterationPrefix(tasks, aggregators, k, i + 1);
    SitsInPrefix(IterationSlots(tasks[..i], aggregators, k), [Blank(tasks[i], k)],
                 IterationSlots(tasks, aggregators, k), 0, Blank(tasks[i], k));
  }

  lemma AggregatorSlotIsAt(tasks: seq<TaskDef>, aggregators: set<string>, i: nat)
    requires i < |tasks| && tasks[i].id in aggregators
    ensures SitsAt(AggregatorSlots(tasks, aggregators), |AggregatorSlots(tasks[..i], aggregators)|, Blank(tasks[i], ""))
  {
    NextPrefix(tasks, i);
    AggregatorPrefix(tasks, aggregators, i + 1);
    SitsInPrefix(AggregatorSlots(tasks[..i], aggregators), [Blank(tasks[i], "")],
                 AggregatorSlots(tasks, aggregators), 0, Blank(tasks[i], ""));
  }

  lemma KeySlotIsAt(tasks: seq<TaskDef>, aggregators: set<string>, keys: seq<string>, m: nat, a: nat, ti: TaskInstance,
                    place: nat)
    requires m < |keys| && SitsAt(IterationSlots(tasks, aggregators, keys[m]), a, ti)
    requires place == |AllIterationSlots(tasks, aggregators, keys[..m])| + a
    ensures SitsAt(AllIterationSlots(tasks, aggregators, keys), place, ti)
  {
    NextPrefix(keys, m);
    IterationsPrefix(tasks, aggregators, keys, m + 1);
    SitsInPrefix(AllIterationSlots(tasks, aggregators, keys[..m]), IterationSlots(tasks, aggregators, keys[m]),
                 AllIterationSlots(tasks, aggregators, keys), a, ti);
  }

  lemma EarlySlotIsAt(tasks: seq<TaskDef>, aggregators: set<string>, keys: seq<string>, i: nat, m: nat, place: nat)
    requires i < |tasks| && m < |keys| && tasks[i].id !in aggregators
    requires
      place == |AllIterationSlots(tasks, aggregators, keys[..m])| + |IterationSlots(tasks[..i], aggregators, keys[m])|
    ensures SitsAt(AllIterationSlots(tasks, aggregators, keys), place, Blank(tasks[i], keys[m]))
  {
    var a := |IterationSlots(tasks[..i], aggregators, keys[m])|;
    IterationSlotIsAt(tasks, aggregators, keys[m], i);
    KeySlotIsAt(tasks, aggregators, keys, m, a, Blank(tasks[i], keys[m]), place);
  }

  lemma RunSlotIsAt(p: Run, keys: seq<string>, i: nat, m: nat)
    requires IsNth(PerRun, p, keys, i, m)
    ensures SitsAt(RunLevelSlots(p, keys), RunSlotAt(p, keys, i, m),
                   Blank(p.tasks[i], if p.tasks[i].id in AggregatorIDs(p.tasks) then "" else keys[m]))
  {
    var aggregators := AggregatorIDs(p.tasks);
    var early, late := AllIterationSlots(p.tasks, aggregators, keys), AggregatorSlots(p.tasks, aggregators);
    VariablesMean(p);
    if p.tasks[i].id in aggregators {
      AggregatorSlotIsAt(p.tasks, aggregators, i);
      SitsInPrefix(early, late, early + late, |AggregatorSlots(p.tasks[..i], aggregators)|, Blank(p.tasks[i], ""));
    } else {
      EarlySlotIsAt(p.tasks, aggregators, keys, i, m, RunSlotAt(p, keys, i, m));
      SitsInFront(early, late, RunSlotAt(p, keys, i, m), Blank(p.tasks[i], keys[m]));
    }
  }

  lemma SitsInFront(front: seq<TaskInstance>, rest: seq<TaskInstance>, a: nat, ti: TaskInstance)
    requires SitsAt(front, a, ti)
    ensures SitsAt(front + rest, a, ti)
  {
  }

  lemma RunNthIsSlot(p: Run, keys: seq<string>, i: nat, m: nat)
    requires IsNth(PerRun, p, keys, i, m)
    ensures RunSlotAt(p, keys, i, m) < |RunLevelSlots(p, keys)|
    ensures RunLevelSlots(p, keys)[RunSlotAt(p, keys, i, m)].fullID == NthID(PerRun, p, keys, i, m)
  {
    RunSlotIsAt(p, keys, i, m);
    VariablesMean(p);
    IDOfBlank(p.tasks[i], if p.tasks[i].id in AggregatorIDs(p.tasks) then "" else keys[m]);
  }

  lemma {:induction false} IterationSlotOfSome(tasks: seq<TaskDef>, aggregators: set<string>, k: string, a: nat)
      returns (i: nat)
    requires a < |IterationSlots(tasks, aggregators, k)|
    ensures i < |tasks| && tasks[i].id !in aggregators && |IterationSlots(tasks[..i], aggregators, k)| == a
    decreases |tasks|
  {
    var front := tasks[..|tasks| - 1];
    i := |front|;
    if a < |IterationSlots(front, aggregators, k)| {
      i := IterationSlotOfSome(front, aggregators, k, a);
      assert front[..i] == tasks[..i];
    }
  }

  lemma {:induction false} AggregatorSlotOfSome(tasks: seq<TaskDef>, aggregators: set<string>, a: nat) returns (i: nat)
    requires a < |AggregatorSlots(tasks, aggregators)|
    ensures i < |tasks| && tasks[i].id in aggregators && |AggregatorSlots(tasks[..i], aggregators)| == a
    decreases |tasks|
  {
    var front := tasks[..|tasks| - 1];
    i := |front|;
    if a < |AggregatorSlots(front, aggregators)| {
      i := AggregatorSlotOfSome(front, aggregators, a);
      assert front[..i] == tasks[..i];
    }
  }

  lemma {:induction false} KeySlotOfSome(tasks: seq<TaskDef>, aggregators: set<string>, keys: seq<string>, a: nat)
      returns (m: nat, b: nat)
    requires a < |AllIterationSlots(tasks, aggregators, keys)|
    ensures m < |keys| && b < |IterationSlots(tasks, aggregators, keys[m])|
    ensures |AllIterationSlots(tasks, aggregators, keys[..m])| + b == a
    decreases |keys|
  {
    var front := keys[..|keys| - 1];
    m := |front|;
    if a < |AllIterationSlots(tasks, aggregators, front)| {
      m, b := KeySlotOfSome(tasks, aggregators, front, a);
      assert front[..m] == keys[..m];
    } else {
      b := a - |AllIterationSlots(tasks, aggregators, front)|;
    }
  }

  lemma RunSlotOfSome(p: Run, keys: seq<string>, a: nat) returns (i: nat, m: nat)
    requires a < |RunLevelSlots(p, keys)|
    ensures IsNth(PerRun, p, keys, i, m) && RunSlotAt(p, keys, i, m) == a
  {
    var aggregators := AggregatorIDs(p.tasks);
    VariablesMean(p);
    var early := |AllIterationSlots(p.tasks, aggregators, keys)|;
    m := 0;
    if a < early {
      var b;
      m, b := KeySlotOfSome(p.tasks, aggregators, keys, a);
      i := IterationSlotOfSome(p.tasks, aggregators, keys[m], b);
    } else {
      i := AggregatorSlotOfSome(p.tasks, aggregators, a - early);
    }
  }

  /** Different instances are at different places. */
  lemma RunSlotsAreApart(p: Run, keys: seq<string>, i: nat, m: nat, j: nat, n: nat)
    requires IsNth(PerRun, p, keys, i, m) && IsNth(PerRun, p, keys, j, n) && (m < n || (m == n && i < j))
    ensures RunSlotAt(p, keys, i, m) != RunSlotAt(p, keys, j, n)
  {
    var aggregators := AggregatorIDs(p.tasks);
    VariablesMean(p);
    if p.tasks[i].id in aggregators && p.tasks[j].id in aggregators {
      AggregatorSlotIsAt(p.tasks[..j], aggregators, i);
      assert p.tasks[..j][..i] == p.tasks[..i];
    } else if p.tasks[i].id !in aggregators && p.tasks[j].id !in aggregators {
      EarlyApart(p, keys, i, m, j, n);
    } else {
      AggregatorApart(p, keys, i, m, j, n);
    }
  }

  lemma EarlyApart(p: Run, keys: seq<string>, i: nat, m: nat, j: nat, n: nat)
    requires i < |p.tasks| && j < |p.tasks| && m < |keys| && n < |keys| && (m < n || (m == n && i < j))
    requires p.tasks[i].id !in AggregatorIDs(p.tasks) && p.tasks[j].id !in AggregatorIDs(p.tasks)
    ensures RunSlotAt(p, keys, i, m) < RunSlotAt(p, keys, j, n)
  {
    var aggregators := AggregatorIDs(p.tasks);
    if m < n {
      assert keys[..n][..m] == keys[..m];
      EarlySlotIsAt(p.tasks, aggregators, keys[..n], i, m, RunSlotAt(p, keys, i, m));
    } else {
      IterationSlotIsAt(p.tasks[..j], aggregators, keys[m], i);
      assert p.tasks[..j][..i] == p.tasks[..i];
    }
  }

  lemma AggregatorApart(p: Run, keys: seq<string>, i: nat, m: nat, j: nat, n: nat)
    requires IsNth(PerRun, p, keys, i, m) && IsNth(PerRun, p, keys, j, n)
    requires p.tasks[i].id in AggregatorIDs(p.tasks) <==> p.tasks[j].id !in AggregatorIDs(p.tasks)
    ensures RunSlotAt(p, keys, i, m) != RunSlotAt(p, keys, j, n)
  {
    var aggregators := AggregatorIDs(p.tasks);
    VariablesMean(p);
    var e, q := if p.tasks[i].id in aggregators then j else i, if p.tasks[i].id in aggregators then n else m;
    EarlySlotIsAt(p.tasks, aggregators, keys, e, q, RunSlotAt(p, keys, e, q));
  }

  lemma RunNthAreApart(p: Run, keys: seq<string>, i: nat, m: nat, j: nat, n: nat)
    requires DistinctIDs(RunLevelSlots(p, keys))
    requires IsNth(PerRun, p, keys, i, m) && IsNth(PerRun, p, keys, j, n) && (i, m) != (j, n)
    ensures NthID(PerRun, p, keys, i, m) != NthID(PerRun, p, keys, j, n)
  {
    RunNthIsSlot(p, keys, i, m);
    RunNthIsSlot(p, keys, j, n);
    if m < n || (m == n && i < j) {
      RunSlotsAreApart(p, keys, i, m, j, n);
    } else {
      RunSlotsAreApart(p, keys, j, n, i, m);
    }
  }

  lemma RunDistinctMeans(p: Run, keys: seq<string>)
    ensures DistinctIDs(RunLevelSlots(p, keys)) <==> HasDistinctIDs(PerRun, p, keys)
  {
    var slots := RunLevelSlots(p, keys);
    if DistinctIDs(slots) {
      forall i, m, j, n | IsNth(PerRun, p, keys, i, m) && IsNth(PerRun, p, keys, j, n) && (i, m) != (j, n)
        ensures NthID(PerRun, p, keys, i, m) != NthID(PerRun, p, keys, j, n)
      {
        RunNthAreApart(p, keys, i, m, j, n);
      }
    }
    if HasDistinctIDs(PerRun, p, keys) {
      forall a, b | 0 <= a < b < |slots|
        ensures slots[a].fullID != slots[b].fullID
      {
        var i, m := RunSlotOfSome(p, keys, a);
        var j, n := RunSlotOfSome(p, keys, b);
        RunNthIsSlot(p, keys, i, m);
        RunNthIsSlot(p, keys, j, n);
      }
    }
  }

  lemma RunNamesMean(p: Run, iterations: seq<string>)
    ensures AllDepsDeclared(RunLevelContext(p, iterations), RunLevelSlots(p, iterations), TaskIDs(p.tasks))
       <==> NamesTasks(PerRun, p, iterations)
  {
    var ctx, slots := RunLevelContext(p, iterations), RunLevelSlots(p, iterations);
    RunLevelMeans(p, iterations);
    forall u, l, d | IsFiled(PerRun, p, iterations, u, l) && DependsOn(PerRun, p, u, d)
      ensures AllDepsDeclared(ctx, slots, TaskIDs(p.tasks)) ==> NamesTask(p, d)
    {
      IDOfBlank(u, l);
      RunDependsMeans(p, iterations, u, l);
      assert Blank(u, l) in slots && d in Elems(Declared(ctx, Blank(u, l)));
    }
    if NamesTasks(PerRun, p, iterations) {
      forall ti | ti in slots
        ensures Elems(Declared(ctx, ti)) <= TaskIDs(p.tasks)
      {
        RunDependsMeans(p, iterations, ti.def, ti.key);
        forall d | d in Elems(Declared(ctx, ti))
          ensures d in TaskIDs(p.tasks)
        {
          assert NamesTask(p, d);
        }
      }
    }
  }

  lemma IterationsFirstMeans(p: Run, iterations: seq<string>)
    ensures IterationsFirst(RunLevelContext(p, iterations), RunLevelSlots(p, iterations))
       <==> forall u, l, d | IsInstance(PerRun, p, iterations, u, l) && !IsAggregator(p.tasks, u.id)
                             && DependsOn(PerRun, p, u, d) :: !IsAggregator(p.tasks, d)
  {
    var ctx, slots := RunLevelContext(p, iterations), RunLevelSlots(p, iterations);
    RunLevelMeans(p, iterations);
    VariablesMean(p);
    if IterationsFirst(ctx, slots) {
      forall u, l, d | IsInstance(PerRun, p, iterations, u, l) && !IsAggregator(p.tasks, u.id)
          && DependsOn(PerRun, p, u, d)
        ensures !IsAggregator(p.tasks, d)
      {
        IDOfBlank(u, l);
        RunDependsMeans(p, iterations, u, l);
        assert Blank(u, l) in slots && d in Elems(Declared(ctx, Blank(u, l)));
      }
    }
    forall ti | ti in slots && ti.def.id !in ctx.aggregators
      ensures forall d :: d in Elems(Declared(ctx, ti)) <==> DependsOn(PerRun, p, ti.def, d)
    {
      RunDependsMeans(p, iterations, ti.def, ti.key);
    }
  }

  lemma OrderMeans(p: Run)
    ensures AggregatorsInOrder(p.tasks, AggregatorIDs(p.tasks))
       <==> forall i, d | 0 <= i < |p.tasks| && IsAggregator(p.tasks, p.tasks[i].id) && d in p.tasks[i].deps
                          && IsAggregator(p.tasks, d) :: exists j :: 0 <= j <= i && p.tasks[j].id == d
  {
    VariablesMean(p);
    forall i | 0 <= i < |p.tasks|
      ensures ListedBefore(p.tasks, AggregatorIDs(p.tasks), i)
         <==> forall d | d in p.tasks[i].deps && IsAggregator(p.tasks, d) ::
                exists j :: 0 <= j <= i && p.tasks[j].id == d
    {
    }
  }

  /** The condition of the build, over the definitions. */
  lemma RunLevelBuildsIff(p: Run, iterations: seq<string>)
    ensures RunLevelBuilds(p, iterations) <==> IsGood(PerRun, p, iterations)
  {
    var ctx, slots := RunLevelContext(p, iterations), RunLevelSlots(p, iterations);
    RunDistinctMeans(p, iterations);
    RunNamesMean(p, iterations);
    IterationsFirstMeans(p, iterations);
    OrderMeans(p);
    RunLevelMeans(p, iterations);
    if DistinctIDs(slots) {
      forall a, b
        ensures (a, b) in IntendedEdges(ctx, slots) <==> IsEdge(PerRun, p, iterations, a, b)
      {
        EdgesMean(PerRun, p, iterations, ctx, slots, slots, a, b);
      }
      NoCycleMeans(PerRun, p, iterations, IntendedEdges(ctx, slots));
    }
  }

  lemma RunLevelGraph(p: Run, iterations: seq<string>, run: ParsedRun)
    requires RunLevelBuilds(p, iterations) && run.dag.nodes.Keys == IDs(RunLevelSlots(p, iterations))
    requires Wired(run, RunLevelContext(p, iterations), RunLevelSlots(p, iterations))
    ensures HasGraph(PerRun, p, iterations, run)
  {
    var slots := RunLevelSlots(p, iterations);
    RunLevelMeans(p, iterations);
    GraphMeans(PerRun, p, iterations, RunLevelContext(p, iterations), slots, slots, run);
  }

  /** The run-level build. iterations are the keys that the run's for_each
      expands to: the single key "" when there is none. */
  method BuildRunLevel(p: Run, iterations: seq<string>) returns (r: Result<ParsedRun, BuildError>)
    ensures r.Ok? <==> RunLevelBuilds(p, iterations)
    ensures r.Ok? ==>
              && r.value.dag.nodes.Keys == IDs(RunLevelSlots(p, iterations))
              && Wired(r.value, RunLevelContext(p, iterations), RunLevelSlots(p, iterations))
    ensures r.Ok? ==> r.value.deferredDefs == []
    ensures r.Ok? <==> IsGood(PerRun, p, iterations)
    ensures r.Ok? ==> HasGraph(PerRun, p, iterations, r.value)
  {
    r := AssembleRunLevel(p, iterations);
    RunLevelBuildsIff(p, iterations);
    if r.Ok? {
      RunLevelGraph(p, iterations, r.value);
    }
  }

  /** The iterations one after the other, then the aggregators, then the file edges. */
  method AssembleRunLevel(p: Run, iterations: seq<string>) returns (r: Result<ParsedRun, BuildError>)
    ensures r.Ok? <==> RunLevelBuilds(p, iterations)
    ensures r.Ok? ==>
              && r.value.dag.nodes.Keys == IDs(RunLevelSlots(p, iterations))
              && Wired(r.value, RunLevelContext(p, iterations), RunLevelSlots(p, iterations))
    ensures r.Ok? ==> r.value.deferredDefs == []
  {
    ghost var ctx := RunLevelContext(p, iterations);
    var aggregators := AggregatorIDs(p.tasks);
    var dag := new Dag();
    var buckets: Buckets := map[];
    ghost var early: seq<TaskInstance> := [];
    for m := 0 to |iterations|
      invariant fresh(dag)
      invariant early == AllIterationSlots(p.tasks, aggregators, iterations[..m])
      invariant Building(dag, buckets, ctx, early)
      invariant AllNamed(ctx, early, TaskIDs(p.tasks)) && AllPresent(ctx, early, IDs(early))
    {
      var built := BuildIteration(dag, buckets, p, iterations, m, early);
      if built.Err? {
        return Err(built.error);
      }
      buckets := built.value;
      early := AllIterationSlots(p.tasks, aggregators, iterations[..m + 1]);
    }
    assert iterations[..|iterations|] == iterations;
    var singletons := BuildAggregators(dag, p, iterations, early);
    if singletons.Err? {
      return Err(singletons.error);
    }
    assert p.tasks[..|p.tasks|] == p.tasks;
    ghost var slots := RunLevelSlots(p, iterations);
    assert slots + [] == slots;
    ghost var late := AggregatorSlots(p.tasks, aggregators);
    AggregatorsHaveNoKey(p.tasks, aggregators);
    PlaceList(buckets, early, ctx, "", singletons.value, late);
    if |singletons.value| > 0 {
      buckets := buckets["" := Bucket(buckets, "") + singletons.value];
    } else {
      assert early + late == early;
    }
    ghost var was := ResolvedLists(buckets, ctx, slots);
    AcceptedIsWellFormed(p, iterations);
    r := FinishWiring(dag, buckets, ctx, slots, was, []);
  }

  lemma AggregatorsHaveNoKey(tasks: seq<TaskDef>, aggregators: set<string>)
    ensures AllAt(AggregatorSlots(tasks, aggregators), "")
  {
    var late := AggregatorSlots(tasks, aggregators);
    AggregatorMembers(tasks, aggregators);
    assert forall i | 0 <= i < |late| :: late[i] in late;
  }

  /** A dependency of a per-iteration task on an aggregator, which the builder
      resolves to the aggregator's bare id, is refused in every run that has an
      iteration at all. */
  lemma DependingOnAnAggregatorFails(p: Run, keys: seq<string>, t: TaskDef, d: string)
    requires |keys| > 0
    requires t in p.tasks && t.id !in AggregatorIDs(p.tasks)
    requires d in FilterVars(t.deps, p.forEach.Keys) && d in AggregatorIDs(p.tasks)
    ensures !RunLevelBuilds(p, keys)
  {
    var ctx, aggregators := RunLevelContext(p, keys), AggregatorIDs(p.tasks);
    AllIterationMembers(p.tasks, aggregators, keys, Blank(t, keys[0]));
    assert Blank(t, keys[0]) in RunLevelSlots(p, keys);
    assert d in Elems(Declared(ctx, Blank(t, keys[0])));
  }

  /** The mode is chosen by whether any task has its own for_each. */
  method Build(p: Run, iterations: seq<string>) returns (r: Result<ParsedRun, BuildError>)
    ensures r.Ok? <==> if ExpandedIDs(p.tasks) != {} then TaskLevelBuilds(p, iterations)
                       else RunLevelBuilds(p, iterations)
    ensures r.Ok? ==>
              if ExpandedIDs(p.tasks) != {}
              then Wired(r.value, TaskLevelContext(p, iterations), Filed(TaskLevelSlots(p, iterations)))
              else Wired(r.value, RunLevelContext(p, iterations), RunLevelSlots(p, iterations))
    ensures
      var level := if exists t :: t in p.tasks && t.forEach != map[] then PerTask else PerRun;
      && (r.Ok? <==> IsGood(level, p, iterations))
      && (r.Ok? ==> HasGraph(level, p, iterations, r.value))
      && (r.Ok? ==> if level.PerTask? then RecordsWaiting(p, r.value.deferredDefs) else r.value.deferredDefs == [])
  {
    SomeForEach(p.tasks);
    var any := HasAnyTaskForEach(p.tasks);
    if any {
      r := BuildTaskLevel(p, iterations);
    } else {
      r := BuildRunLevel(p, iterations);
    }
  }

  lemma SomeForEach(tasks: seq<TaskDef>)
    ensures ExpandedIDs(tasks) != {} <==> exists t :: t in tasks && t.forEach != map[]
  {
    if t :| t in tasks && t.forEach != map[] {
      assert t.id in ExpandedIDs(tasks);
    }
    if id :| id in ExpandedIDs(tasks) {
      var t :| t in tasks && t.forEach != map[] && t.id == id;
    }
  }

  method HasAnyTaskForEach(tasks: seq<TaskDef>) returns (any: bool)
    ensures any <==> ExpandedIDs(tasks) != {}
  {
    for i := 0 to |tasks|
      invariant forall j | 0 <= j < i :: tasks[j].forEach == map[]
    {
      if tasks[i].forEach != map[] {
        assert tasks[i].id in ExpandedIDs(tasks);
        return true;
      }
    }
    return false;
  }
}
