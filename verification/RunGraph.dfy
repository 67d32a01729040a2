/** What the graph of a run is to be, said of the task definitions alone. */
module RunGraphs {
  import opened RunModel

  /** Whether tasks have their own for_each, or the run has one for all of them. */
  datatype Level = PerTask | PerRun

  // ---------------------------------------------------------------- what the definitions say

  ghost predicate HasForEach(tasks: seq<TaskDef>, id: string) {
    exists t :: t in tasks && t.id == id && t.forEach != map[]
  }

  ghost predicate IsAggregator(tasks: seq<TaskDef>, id: string) {
    exists t :: t in tasks && t.id == id && t.aggregates != ""
  }

  /** The first task that has a for_each; all others are to have the same. */
  ghost predicate IsFirst(tasks: seq<TaskDef>, i: int) {
    0 <= i < |tasks| && tasks[i].forEach != map[] && forall j | 0 <= j < i :: tasks[j].forEach == map[]
  }

  ghost predicate IsVariable(level: Level, p: Run, name: string) {
    match level
    case PerTask => exists i :: IsFirst(p.tasks, i) && name in p.tasks[i].forEach
    case PerRun => name in p.forEach
  }

  /** The values of some variable are still to come. */
  ghost predicate IsDynamicRun(p: Run) {
    exists i, name :: IsFirst(p.tasks, i) && name in p.tasks[i].forEach && p.tasks[i].forEach[name].ref != ""
  }

  /** A task names another one, and not a variable; an aggregator may name one. */
  ghost predicate DependsOn(level: Level, p: Run, t: TaskDef, d: string) {
    d in t.deps && (IsVariable(level, p, d) ==> level.PerRun? && IsAggregator(p.tasks, t.id))
  }

  /** A chain of dependencies from a task with a for_each. */
  ghost predicate IsWaitingChain(p: Run, chain: seq<string>) {
    && chain != [] && HasForEach(p.tasks, chain[0])
    && forall i | 0 <= i < |chain| - 1 :: NamedBy(p, chain[i], chain[i + 1])
  }

  ghost predicate NamedBy(p: Run, d: string, id: string) {
    exists t :: t in p.tasks && t.id == id && DependsOn(PerTask, p, t, d)
  }

  /** The instances of a task are still to come. */
  ghost predicate Waits(p: Run, id: string) {
    IsDynamicRun(p) && exists chain :: IsWaitingChain(p, chain) && chain[|chain| - 1] == id
  }

  // ---------------------------------------------------------------- instances and their parents

  /** A task has an instance for an iteration key. */
  ghost predicate IsInstance(level: Level, p: Run, iterations: seq<string>, t: TaskDef, k: string) {
    t in p.tasks &&
    match level
    case PerTask => !Waits(p, t.id) && if t.forEach == map[] then k == "" else k in iterations
    case PerRun => if IsAggregator(p.tasks, t.id) then k == "" else k in iterations
  }

  /** Singletons replace the instances of an iteration with the empty key. */
  ghost predicate IsFiled(level: Level, p: Run, iterations: seq<string>, t: TaskDef, k: string) {
    && IsInstance(level, p, iterations, t, k)
    && (level.PerTask? && t.forEach != map[] && k == "" ==>
          forall s | IsInstance(level, p, iterations, s, "") :: s.forEach != map[])
  }

  /** For the instance of u at l, a dependency on the task d stands for the node id:
      the only instance of d, that of the same iteration, or each of all iterations. */
  ghost predicate StandsFor(level: Level, p: Run, iterations: seq<string>, u: TaskDef, l: string, d: string,
                            id: string) {
    var single := match level case PerTask => !HasForEach(p.tasks, d) case PerRun => IsAggregator(p.tasks, d);
    var gathers := match level case PerTask => l == "" case PerRun => IsAggregator(p.tasks, u.id);
    if single then id == d
    else if gathers then exists k :: k in iterations && id == if k == "" then d else k + ":" + d
    else id == if l == "" then d else l + ":" + d
  }

  ghost predicate IsDeclaredParent(level: Level, p: Run, iterations: seq<string>, u: TaskDef, l: string, id: string) {
    exists d :: DependsOn(level, p, u, d) && StandsFor(level, p, iterations, u, l, d, id)
  }

  /** The instance of t at k writes a file that the instance of u at l reads. */
  ghost predicate WritesForReader(t: TaskDef, k: string, u: TaskDef, l: string) {
    && k in t.artifacts && l in u.artifacts
    && exists path :: path != "" && path in t.artifacts[k].writePaths && path in u.artifacts[l].readPaths
  }

  ghost predicate IsFileParent(level: Level, p: Run, iterations: seq<string>, u: TaskDef, l: string, id: string) {
    && id != (if l == "" then u.id else l + ":" + u.id)
    && exists t, k :: IsFiled(level, p, iterations, t, k) && WritesForReader(t, k, u, l)
                   && id == if k == "" then t.id else k + ":" + t.id
  }

  ghost predicate IsParent(level: Level, p: Run, iterations: seq<string>, u: TaskDef, l: string, id: string) {
    IsDeclaredParent(level, p, iterations, u, l, id) || IsFileParent(level, p, iterations, u, l, id)
  }

  // ---------------------------------------------------------------- the graph

  ghost predicate IsNode(level: Level, p: Run, iterations: seq<string>, id: string) {
    exists t, k :: IsInstance(level, p, iterations, t, k) && id == if k == "" then t.id else k + ":" + t.id
  }

  ghost predicate IsEdge(level: Level, p: Run, iterations: seq<string>, a: string, b: string) {
    exists u, l :: IsFiled(level, p, iterations, u, l) && IsParent(level, p, iterations, u, l, a)
                && b == if l == "" then u.id else l + ":" + u.id
  }

  /** What is filed at a place: an instance with its own paths that lists its parents. */
  ghost predicate IsInPlace(level: Level, p: Run, iterations: seq<string>, ti: TaskInstance, l: string) {
    var u := ti.def;
    && IsFiled(level, p, iterations, u, l) && ti.key == l
    && ti.fullID == (if l == "" then u.id else l + ":" + u.id)
    && ti.readPaths == (if l in u.artifacts then u.artifacts[l].readPaths else [])
    && ti.writePaths == (if l in u.artifacts then u.artifacts[l].writePaths else [])
    && forall id :: id in ti.dependsOn <==> IsParent(level, p, iterations, u, l, id)
  }

  ghost predicate HasPlaceFor(run: ParsedRun, u: TaskDef, l: string) {
    l in run.expanded && exists i :: 0 <= i < |run.expanded[l]| && run.expanded[l][i].def == u
  }

  /** The graph has a node for every instance and exactly the edges from the parents of
      those that are filed; each of these is filed under its key, once, and lists its
      parents. */
  ghost predicate HasGraph(level: Level, p: Run, iterations: seq<string>, run: ParsedRun)
    reads run.dag
  {
    && (forall id :: id in run.dag.nodes <==> IsNode(level, p, iterations, id))
    && (forall a, b :: a in run.dag.edges && b in run.dag.edges[a] <==> IsEdge(level, p, iterations, a, b))
    && (forall u, l | IsFiled(level, p, iterations, u, l) :: HasPlaceFor(run, u, l))
    && (forall l, i | l in run.expanded && 0 <= i < |run.expanded[l]| ::
          IsInPlace(level, p, iterations, run.expanded[l][i], l))
    && (forall l, i, j | l in run.expanded && 0 <= i < j < |run.expanded[l]| ::
          run.expanded[l][i].def != run.expanded[l][j].def)
  }

  ghost function WaitingIDs(p: Run): iset<string> {
    iset id | Waits(p, id)
  }

  /** The tasks that wait have a record each, in task order. */
  ghost predicate RecordsWaiting(p: Run, defs: seq<DeferredTaskDef>) {
    exists at :: ArePlacesOf(p.tasks, WaitingIDs(p), at) && AreDeferrals(ParseForEachRef, p.tasks, at, defs)
  }

  // ---------------------------------------------------------------- when there is one

  /** The task at i has an m-th instance. */
  ghost predicate IsNth(level: Level, p: Run, iterations: seq<string>, i: int, m: int) {
    0 <= i < |p.tasks| && 0 <= m &&
    match level
    case PerTask => !Waits(p, p.tasks[i].id) && m < if p.tasks[i].forEach == map[] then 1 else |iterations|
    case PerRun => m < if IsAggregator(p.tasks, p.tasks[i].id) then 1 else |iterations|
  }

  ghost function NthID(level: Level, p: Run, iterations: seq<string>, i: int, m: int): string
    requires IsNth(level, p, iterations, i, m)
  {
    var t := p.tasks[i];
    var single := match level case PerTask => t.forEach == map[] case PerRun => IsAggregator(p.tasks, t.id);
    if single || iterations[m] == "" then t.id else iterations[m] + ":" + t.id
  }

  ghost predicate HasDistinctIDs(level: Level, p: Run, iterations: seq<string>) {
    forall i, m, j, n | IsNth(level, p, iterations, i, m) && IsNth(level, p, iterations, j, n) && (i, m) != (j, n) ::
      NthID(level, p, iterations, i, m) != NthID(level, p, iterations, j, n)
  }

  ghost predicate NamesTask(p: Run, d: string) {
    exists t :: t in p.tasks && t.id == d
  }

  ghost predicate NamesTasks(level: Level, p: Run, iterations: seq<string>) {
    forall u, l, d | IsFiled(level, p, iterations, u, l) && DependsOn(level, p, u, d) :: NamesTask(p, d)
  }

  /** Whatever an instance depends on is created before its edges are added. */
  ghost predicate AggregatorsComeFirst(p: Run, iterations: seq<string>) {
    && (forall u, l, d | IsInstance(PerRun, p, iterations, u, l) && !IsAggregator(p.tasks, u.id)
                         && DependsOn(PerRun, p, u, d) :: !IsAggregator(p.tasks, d))
    && (forall i, d | 0 <= i < |p.tasks| && IsAggregator(p.tasks, p.tasks[i].id) && d in p.tasks[i].deps
                      && IsAggregator(p.tasks, d) :: exists j :: 0 <= j <= i && p.tasks[j].id == d)
  }

  /** No path of edges leads back to where it starts. */
  ghost predicate HasNoCycle(level: Level, p: Run, iterations: seq<string>) {
    forall path: seq<string> | |path| > 1 && path[0] == path[|path| - 1] ::
      exists i :: 0 <= i < |path| - 1 && !IsEdge(level, p, iterations, path[i], path[i + 1])
  }

  ghost predicate IsGood(level: Level, p: Run, iterations: seq<string>) {
    && HasDistinctIDs(level, p, iterations) && NamesTasks(level, p, iterations)
    && (level.PerRun? ==> AggregatorsComeFirst(p, iterations))
    && HasNoCycle(level, p, iterations)
  }
}
