/** The parsed form of a run, and the for_each tasks whose expansion waits for
    the output of another task. */
module RunModel {
  import opened Wrappers
  import opened Graphs
  import opened Dags
  import Text

  /** One for_each variable; a non-empty ref makes it dynamic. */
  datatype Source = Source(ref: string)
  type ForEachMap = map<string, Source>

  datatype Paths = Paths(readPaths: seq<string>, writePaths: seq<string>)

  /** deps is depends_on merged with the tasks the prompt refers to; artifacts
      gives the paths a task reads and writes, resolved per iteration key. */
  datatype TaskDef = TaskDef(id: string, action: string, deps: seq<string>, forEach: ForEachMap,
                             aggregates: string, artifacts: map<string, Paths>)

  datatype Run = Run(tasks: seq<TaskDef>, forEach: ForEachMap)

  datatype TaskInstance = TaskInstance(def: TaskDef, key: string, fullID: string, dependsOn: seq<string>,
                                       readPaths: seq<string>, writePaths: seq<string>)

  /** The output of another task that a for_each variable ranges over. */
  datatype ForEachRef = ForEachRef(taskID: string, field: string)

  datatype DeferredTaskDef = DeferredTaskDef(taskDefID: string, refs: map<string, ForEachRef>,
                                             transitivelyDeferred: bool)

  type Buckets = map<string, seq<TaskInstance>>

  datatype ParsedRun = ParsedRun(dag: Dag, expanded: Buckets, deferredDefs: seq<DeferredTaskDef>)

  datatype BuildError = UnknownDependency | MissingUpstream | BadGraph(error: DagError)

  function MakeFullID(key: string, id: string): string {
    if key == "" then id else key + ":" + id
  }

  predicate IsDynamic(m: ForEachMap) {
    exists name | name in m :: m[name].ref != ""
  }

  /** Drops the names of for_each variables from a dependency list. */
  function FilterVars(deps: seq<string>, vars: set<string>): seq<string> {
    if deps == [] then []
    else (if deps[0] in vars then [] else [deps[0]]) + FilterVars(deps[1..], vars)
  }

  lemma {:induction false} FilterVarsMembers(deps: seq<string>, vars: set<string>)
    ensures forall d :: d in FilterVars(deps, vars) <==> d in deps && d !in vars
    decreases |deps|
  {
    if deps != [] {
      FilterVarsMembers(deps[1..], vars);
      assert deps == [deps[0]] + deps[1..];
    }
  }

  function TaskIDs(tasks: seq<TaskDef>): set<string> {
    set t | t in tasks :: t.id
  }

  function ExpandedIDs(tasks: seq<TaskDef>): set<string> {
    set t | t in tasks && t.forEach != map[] :: t.id
  }

  function AggregatorIDs(tasks: seq<TaskDef>): set<string> {
    set t | t in tasks && t.aggregates != "" :: t.id
  }

  // ---------------------------------------------------------------- deferred tasks

  ghost predicate ClosedAt(t: TaskDef, vars: set<string>, s: set<string>) {
    t.id in s || forall d | d in FilterVars(t.deps, vars) :: d !in s
  }

  /** Holds every expanded task and every dependent of a member. */
  ghost predicate ClosedUnderDependents(tasks: seq<TaskDef>, vars: set<string>, s: set<string>) {
    && ExpandedIDs(tasks) <= s
    && forall i | 0 <= i < |tasks| :: ClosedAt(tasks[i], vars, s)
  }

  ghost function DependencyEdges(tasks: seq<TaskDef>, vars: set<string>): set<Edge> {
    set t, d | t in tasks && d in FilterVars(t.deps, vars) :: (d, t.id)
  }

  /** A chain of dependencies leads from the task to one with a for_each. */
  ghost predicate DependsOnExpanded(tasks: seq<TaskDef>, vars: set<string>, id: string) {
    exists b :: b in ExpandedIDs(tasks) && Reaches(DependencyEdges(tasks, vars), b, id)
  }

  lemma DependentOfDependent(tasks: seq<TaskDef>, vars: set<string>, t: TaskDef, d: string)
    requires t in tasks && d in FilterVars(t.deps, vars)
    requires DependsOnExpanded(tasks, vars, d)
    ensures DependsOnExpanded(tasks, vars, t.id)
  {
    var es := DependencyEdges(tasks, vars);
    var b :| b in ExpandedIDs(tasks) && Reaches(es, b, d);
    assert (d, t.id) in es;
    ReachesStep(es, b, d, t.id);
  }

  /** The tasks of a dynamic run that get no instances yet: the least set that
      holds the for_each tasks and is closed under dependents. */
  method DeferredTasks(tasks: seq<TaskDef>, vars: set<string>) returns (deferred: set<string>)
    ensures ClosedUnderDependents(tasks, vars, deferred)
    ensures forall id :: id in deferred <==> DependsOnExpanded(tasks, vars, id)
  {
    deferred := {};
    for i := 0 to |tasks|
      invariant deferred == ExpandedIDs(tasks[..i])
    {
      assert tasks[..i + 1] == tasks[..i] + [tasks[i]];
      if tasks[i].forEach != map[] {
        deferred := deferred + {tasks[i].id};
      }
    }
    assert tasks[..|tasks|] == tasks;
    ghost var bound := Dependents(tasks, vars);
    var changed := true;
    while changed
      invariant ExpandedIDs(tasks) <= deferred <= bound
      invariant !changed ==> ClosedUnderDependents(tasks, vars, deferred)
      decreases bound - deferred, changed
    {
      deferred, changed := SweepDeferred(tasks, vars, deferred, bound);
    }
    forall id | DependsOnExpanded(tasks, vars, id)
      ensures id in deferred
    {
      ClosedHoldsDependents(tasks, vars, deferred, id);
    }
  }

  /** One pass over the task list; it does not leave a closed set. */
  method SweepDeferred(tasks: seq<TaskDef>, vars: set<string>, before: set<string>, ghost bound: set<string>)
    returns (deferred: set<string>, changed: bool)
    requires ExpandedIDs(tasks) <= before <= bound
    requires ClosedUnderDependents(tasks, vars, bound)
    ensures before <= deferred <= bound
    ensures changed <==> deferred != before
    ensures !changed ==> ClosedUnderDependents(tasks, vars, deferred)
  {
    deferred, changed := before, false;
    for i := 0 to |tasks|
      invariant before <= deferred <= bound
      invariant changed <==> deferred != before
      invariant !changed ==> forall j | 0 <= j < i :: ClosedAt(tasks[j], vars, before)
    {
      var t := tasks[i];
      if t.id in deferred {
        continue;
      }
      var allDeps := FilterVars(t.deps, vars);
      if d :| d in allDeps && d in deferred {
        assert ClosedAt(t, vars, bound);
        deferred, changed := deferred + {t.id}, true;
      }
    }
  }

  ghost function Dependents(tasks: seq<TaskDef>, vars: set<string>): (s: set<string>)
    ensures ClosedUnderDependents(tasks, vars, s)
    ensures forall id :: id in s <==> DependsOnExpanded(tasks, vars, id)
  {
    var s := set id | id in TaskIDs(tasks) && DependsOnExpanded(tasks, vars, id);
    DependentsFacts(tasks, vars, s);
    s
  }

  lemma DependentsFacts(tasks: seq<TaskDef>, vars: set<string>, s: set<string>)
    requires s == set id | id in TaskIDs(tasks) && DependsOnExpanded(tasks, vars, id)
    ensures ClosedUnderDependents(tasks, vars, s)
    ensures forall id :: id in s <==> DependsOnExpanded(tasks, vars, id)
  {
    forall id | id in ExpandedIDs(tasks)
      ensures id in s
    {
      ReachesSelf(DependencyEdges(tasks, vars), id);
    }
    forall i | 0 <= i < |tasks|
      ensures ClosedAt(tasks[i], vars, s)
    {
      assert tasks[i].id in TaskIDs(tasks);
      if d :| d in FilterVars(tasks[i].deps, vars) && d in s {
        DependentOfDependent(tasks, vars, tasks[i], d);
      }
    }
    forall id | DependsOnExpanded(tasks, vars, id)
      ensures id in s
    {
      ClosedHoldsDependents(tasks, vars, TaskIDs(tasks), id);
    }
  }

  /** A closed set holds all that its roots reach, so the deferred set is the
      least closed set. */
  lemma ClosedHoldsDependents(tasks: seq<TaskDef>, vars: set<string>, s: set<string>, id: string)
    requires ClosedUnderDependents(tasks, vars, s)
    requires DependsOnExpanded(tasks, vars, id)
    ensures id in s
  {
    var es := DependencyEdges(tasks, vars);
    var b :| b in ExpandedIDs(tasks) && Reaches(es, b, id);
    forall e | e in es && e.0 in s
      ensures e.1 in s
    {
      var t, d :| t in tasks && d in FilterVars(t.deps, vars) && (d, t.id) == e;
      var i :| 0 <= i < |tasks| && tasks[i] == t;
      assert ClosedAt(tasks[i], vars, s);
    }
    ClosedSetHoldsReachable(es, s, b, id);
  }

  // ---------------------------------------------------------------- deferred records

  /** The for_each of the first task that has one. */
  function SharedForEach(tasks: seq<TaskDef>): ForEachMap {
    if tasks == [] then map[]
    else if tasks[0].forEach != map[] then tasks[0].forEach
    else SharedForEach(tasks[1..])
  }

  method FindShared(tasks: seq<TaskDef>) returns (shared: ForEachMap)
    ensures shared == SharedForEach(tasks)
  {
    shared := map[];
    for i := 0 to |tasks|
      invariant shared == map[]
      invariant SharedForEach(tasks[i..]) == SharedForEach(tasks)
    {
      assert tasks[i..][1..] == tasks[i + 1..];
      if tasks[i].forEach != map[] {
        shared := tasks[i].forEach;
        break;
      }
    }
  }

  /** Two braces on either side; the two pairs never overlap. */
  predicate Braced(s: string) {
    |s| >= 4 && s[..2] == "{{" && s[|s| - 2..] == "}}"
  }

  function ParseForEachRef(s: string): Option<ForEachRef> {
    ParseBraced(Text.TrimSpace(s))
  }

  function ParseBraced(text: string): Option<ForEachRef> {
    if Braced(text) then CutAtDot(Text.TrimSpace(text[2..|text| - 2])) else None
  }

  function CutAtDot(inner: string): Option<ForEachRef> {
    var dot := Text.Index(inner, ".");
    if dot <= 0 || dot == |inner| - 1 then None else Some(ForEachRef(inner[..dot], inner[dot + 1..]))
  }

  /** Both parts are there, and the first dot is between them. */
  predicate IsSplit(ref: ForEachRef) {
    ref.taskID != "" && ref.field != "" && '.' !in ref.taskID
  }

  /** A text parses to a reference exactly if, but for white space around it and inside
      the braces, it is the reference in braces. */
  lemma ParseForEachRefIff(s: string, ref: ForEachRef)
    ensures ParseForEachRef(s) == Some(ref)
       <==> IsSplit(ref) && exists inner :: IsRef(Text.TrimSpace(s), inner, ref)
  {
    ParseBracedIff(Text.TrimSpace(s), ref);
  }

  lemma ParseBracedIff(text: string, ref: ForEachRef)
    ensures ParseBraced(text) == Some(ref)
       <==> IsSplit(ref) && exists inner :: IsRef(text, inner, ref)
  {
    InnerOfRef(text, ref);
    if Braced(text) {
      CutAtDotIff(Text.TrimSpace(text[2..|text| - 2]), ref);
    }
  }

  ghost predicate IsRef(text: string, inner: string, ref: ForEachRef) {
    text == "{{" + inner + "}}" && Text.TrimSpace(inner) == ref.taskID + "." + ref.field
  }

  lemma InnerOfRef(text: string, ref: ForEachRef)
    ensures (exists inner :: IsRef(text, inner, ref))
       <==> Braced(text) && Text.TrimSpace(text[2..|text| - 2]) == ref.taskID + "." + ref.field
  {
    if Braced(text) {
      InBraces(text);
      var inner := text[2..|text| - 2];
      assert Text.TrimSpace(inner) == ref.taskID + "." + ref.field ==> IsRef(text, inner, ref);
    }
    if inner :| IsRef(text, inner, ref) {
      BetweenBraces(inner);
    }
  }

  lemma InBraces(text: string)
    requires Braced(text)
    ensures text == "{{" + text[2..|text| - 2] + "}}"
  {
  }

  lemma BetweenBraces(inner: string)
    ensures var text := "{{" + inner + "}}"; Braced(text) && text[2..|text| - 2] == inner
  {
  }

  lemma FirstDot(s: string)
    ensures var dot := Text.Index(s, ".");
      if dot < 0 then '.' !in s
      else dot < |s| && s[dot] == '.' && '.' !in s[..dot] && s == s[..dot] + "." + s[dot + 1..]
  {
    forall i | 0 <= i < |s| && s[i] == '.'
      ensures 0 <= Text.Index(s, ".") <= i
    {
      assert Text.HasAt(s, ".", i);
    }
  }

  lemma DotBehind(a: string, b: string)
    requires '.' !in a
    ensures var s := a + "." + b; Text.Index(s, ".") == |a| && s[..|a|] == a && s[|a| + 1..] == b
  {
    var s := a + "." + b;
    assert s[..|a|] == a && s[|a| + 1..] == b;
    assert Text.HasAt(s, ".", |a|);
    FirstDot(s);
    forall i | 0 <= i < |a|
      ensures s[i] != '.'
    {
      assert s[i] == a[i];
    }
  }

  lemma CutAtDotIff(inner: string, ref: ForEachRef)
    ensures CutAtDot(inner) == Some(ref)
       <==> IsSplit(ref) && inner == ref.taskID + "." + ref.field
  {
    FirstDot(inner);
    if '.' !in ref.taskID {
      DotBehind(ref.taskID, ref.field);
    }
  }

  type RefParser = string -> Option<ForEachRef>

  /** The references of a dynamic for_each: those of its variables that parse. */
  function Refs(parse: RefParser, forEach: ForEachMap): map<string, ForEachRef> {
    map name | name in forEach && forEach[name].ref != "" && parse(forEach[name].ref).Some? ::
      parse(forEach[name].ref).value
  }

  method CollectRefs(parse: RefParser, forEach: ForEachMap) returns (refs: map<string, ForEachRef>)
    ensures refs == Refs(parse, forEach)
  {
    refs := map[];
    var names := InSomeOrder(forEach.Keys);
    for i := 0 to |names|
      invariant RefsUpTo(parse, forEach, Elems(names[..i]), refs)
    {
      PrefixFacts(names, i);
      var src := forEach[names[i]];
      if src.ref == "" {
        continue;
      }
      var parsed := parse(src.ref);
      if parsed.None? {
        continue;
      }
      refs := refs[names[i] := parsed.value];
    }
    assert names[..|names|] == names;
  }

  ghost predicate RefsUpTo(parse: RefParser, forEach: ForEachMap, done: set<string>, refs: map<string, ForEachRef>) {
    && refs.Keys == Refs(parse, forEach).Keys * done
    && forall name | name in refs :: refs[name] == Refs(parse, forEach)[name]
  }

  /** One record per deferred task in task order, marked as transitive unless
      its own for_each is dynamic; then with its references. */
  ghost function DeferredDefs(parse: RefParser, tasks: seq<TaskDef>, deferred: set<string>): seq<DeferredTaskDef> {
    if tasks == [] then []
    else
      var t := tasks[|tasks| - 1];
      DeferredDefs(parse, tasks[..|tasks| - 1], deferred) + if t.id in deferred then [DeferredDef(parse, t)] else []
  }

  ghost function DeferredDef(parse: RefParser, t: TaskDef): DeferredTaskDef {
    if IsDynamic(t.forEach) then DeferredTaskDef(t.id, Refs(parse, t.forEach), false)
    else DeferredTaskDef(t.id, map[], true)
  }

  /** The record of a task whose instances are still to come: what its own variables
      range over, or that it only depends on such a task. */
  ghost predicate IsDeferral(parse: RefParser, t: TaskDef, def: DeferredTaskDef) {
    && def.taskDefID == t.id
    && (def.transitivelyDeferred <==> forall name | name in t.forEach :: t.forEach[name].ref == "")
    && (forall name :: name in def.refs
          <==> name in t.forEach && t.forEach[name].ref != "" && parse(t.forEach[name].ref).Some?)
    && forall name | name in def.refs && name in t.forEach :: parse(t.forEach[name].ref) == Some(def.refs[name])
  }

  /** The tasks at these places, in order, are those of the set. */
  ghost predicate ArePlacesOf(tasks: seq<TaskDef>, deferred: iset<string>, at: seq<nat>) {
    && (forall k, l | 0 <= k < l < |at| :: at[k] < at[l])
    && forall i: nat :: i in at <==> i < |tasks| && tasks[i].id in deferred
  }

  ghost predicate AreDeferrals(parse: RefParser, tasks: seq<TaskDef>, at: seq<nat>, defs: seq<DeferredTaskDef>) {
    |at| == |defs| && forall k | 0 <= k < |at| :: at[k] < |tasks| && IsDeferral(parse, tasks[at[k]], defs[k])
  }

  lemma DeferralMeans(parse: RefParser, t: TaskDef)
    ensures IsDeferral(parse, t, DeferredDef(parse, t))
  {
  }

  lemma PlacesGrow(tasks: seq<TaskDef>, deferred: iset<string>, at: seq<nat>)
    requires tasks != [] && ArePlacesOf(tasks[..|tasks| - 1], deferred, at)
    ensures ArePlacesOf(tasks, deferred, if tasks[|tasks| - 1].id in deferred then at + [|tasks| - 1] else at)
  {
    var n := |tasks| - 1;
    var more := if tasks[n].id in deferred then at + [n] else at;
    forall i: nat
      ensures i in more <==> i < |tasks| && tasks[i].id in deferred
    {
      assert i in at <==> i < n && tasks[..n][i].id in deferred;
      assert i in more <==> i in at || (i == n && tasks[n].id in deferred);
    }
    forall k, l | 0 <= k < l < |more|
      ensures more[k] < more[l]
    {
      assert at[k] in at;
    }
  }

  lemma DeferralsGrow(parse: RefParser, tasks: seq<TaskDef>, at: seq<nat>, defs: seq<DeferredTaskDef>)
    requires tasks != [] && AreDeferrals(parse, tasks[..|tasks| - 1], at, defs)
    ensures AreDeferrals(parse, tasks, at, defs)
    ensures AreDeferrals(parse, tasks, at + [|tasks| - 1], defs + [DeferredDef(parse, tasks[|tasks| - 1])])
  {
    DeferralMeans(parse, tasks[|tasks| - 1]);
  }

  /** One record for each task of the set, in task order. */
  lemma {:induction false} DeferredDefsMean(parse: RefParser, tasks: seq<TaskDef>, deferred: set<string>,
      all: iset<string>) returns (at: seq<nat>)
    requires forall id :: id in all <==> id in deferred
    ensures ArePlacesOf(tasks, all, at) && AreDeferrals(parse, tasks, at, DeferredDefs(parse, tasks, deferred))
    decreases |tasks|
  {
    at := [];
    if tasks != [] {
      var n := |tasks| - 1;
      at := DeferredDefsMean(parse, tasks[..n], deferred, all);
      PlacesGrow(tasks, all, at);
      DeferralsGrow(parse, tasks, at, DeferredDefs(parse, tasks[..n], deferred));
      if tasks[n].id in deferred {
        at := at + [n];
      }
    }
  }

  method CollectDeferred(parse: RefParser, tasks: seq<TaskDef>, deferred: set<string>)
    returns (defs: seq<DeferredTaskDef>)
    ensures defs == DeferredDefs(parse, tasks, deferred)
  {
    defs := [];
    for i := 0 to |tasks|
      invariant defs == DeferredDefs(parse, tasks[..i], deferred)
    {
      var t := tasks[i];
      OneMoreDeferred(parse, tasks, i, deferred);
      if t.id in deferred {
        if t.forEach != map[] && IsDynamic(t.forEach) {
          var refs := CollectRefs(parse, t.forEach);
          defs := defs + [DeferredTaskDef(t.id, refs, false)];
        } else {
          defs := defs + [DeferredTaskDef(t.id, map[], true)];
        }
      }
    }
    assert tasks[..|tasks|] == tasks;
  }

  lemma OneMoreDeferred(parse: RefParser, tasks: seq<TaskDef>, i: nat, deferred: set<string>)
    requires i < |tasks|
    ensures DeferredDefs(parse, tasks[..i + 1], deferred)
         == DeferredDefs(parse, tasks[..i], deferred)
          + if tasks[i].id in deferred then [DeferredDef(parse, tasks[i])] else []
  {
    NextPrefix(tasks, i);
  }
}
