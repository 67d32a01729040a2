/** What the supervisor knows of a running agent, told by the steps since its start. */
module AgentHistory {
  import opened Wrappers
  import opened Graphs
  import opened Supervisors
  import opened AgentLifecycle

  /** After the first n steps of a session that found these pid files. */
  function StateAt(entries: map<string, Entry>, steps: seq<Step>, n: nat): State
    requires n <= |steps|
  {
    Reached(Session(entries), steps[..n])
  }

  lemma OneMoreStep(entries: map<string, Entry>, steps: seq<Step>, n: nat)
    requires n < |steps|
    ensures StateAt(entries, steps, n + 1) == Next(StateAt(entries, steps, n), steps[n])
  {
    NextPrefix(steps, n);
  }

  /** A step that concerns one agent leaves every other one, and its pid file, as they
      are; the end of a run and a reconciliation change references only. */
  lemma OthersAreLeftAlone(s: State, step: Step, bot: string)
    requires step.Starting? ==> step.p.bot != bot
    requires step.Marking? || step.Unmarking? || step.Stopping? || step.Killing? || step.Exiting? ==> step.bot != bot
    ensures var now := Next(s, step);
      && (bot in now.procs <==> bot in s.procs) && (bot in now.entries <==> bot in s.entries)
      && (bot in s.procs ==> now.procs[bot] == s.procs[bot].(stdinClosed := now.procs[bot].stdinClosed))
      && (bot in s.entries ==> now.entries[bot] == s.entries[bot].(refs := now.entries[bot].refs))
      && (!step.RunEnding? && !step.Reconciling? ==>
            && (bot in s.procs ==> now.procs[bot] == s.procs[bot])
            && (bot in s.entries ==> now.entries[bot] == s.entries[bot]))
  {
  }

  // ---------------------------------------------------------------- the latest start

  /** The i-th step starts the agent: it is configured, not running, and can be spawned. */
  ghost predicate StartsAfresh(entries: map<string, Entry>, steps: seq<Step>, i: int, bot: string) {
    && 0 <= i < |steps| && steps[i].Starting? && steps[i].spawn.Some?
    && steps[i].p.bot == bot && bot != "" && steps[i].p.workflow != "" && steps[i].p.coordinator != ""
    && bot !in StateAt(entries, steps, i).procs
  }

  /** After n steps the daemon is the one that the i-th step started. */
  ghost predicate RunsSince(entries: map<string, Entry>, steps: seq<Step>, n: int, i: int, bot: string) {
    && i < n <= |steps| && StartsAfresh(entries, steps, i, bot)
    && forall j | i < j < n :: !(steps[j].Exiting? && steps[j].bot == bot)
  }

  lemma TrackedAfterStep(s: State, step: Step, bot: string)
    ensures bot in Next(s, step).procs
       <==> if bot in s.procs then !(step.Exiting? && step.bot == bot)
            else step.Starting? && step.spawn.Some? && step.p.bot == bot && bot != ""
                 && step.p.workflow != "" && step.p.coordinator != ""
  {
  }

  /** A daemon is tracked exactly if some step started it and none since was its exit. */
  lemma {:induction false} TrackedIff(entries: map<string, Entry>, steps: seq<Step>, n: nat, bot: string)
    requires n <= |steps|
    ensures bot in StateAt(entries, steps, n).procs <==> exists i :: RunsSince(entries, steps, n, i, bot)
    decreases n
  {
    if n > 0 {
      var m := n - 1;
      TrackedIff(entries, steps, m, bot);
      OneMoreStep(entries, steps, m);
      TrackedAfterStep(StateAt(entries, steps, m), steps[m], bot);
      if i :| RunsSince(entries, steps, m, i, bot) && !(steps[m].Exiting? && steps[m].bot == bot) {
        assert RunsSince(entries, steps, n, i, bot);
      }
      if StartsAfresh(entries, steps, m, bot) {
        assert RunsSince(entries, steps, n, m, bot);
      }
      if i :| RunsSince(entries, steps, n, i, bot) {
        assert i < m ==> RunsSince(entries, steps, m, i, bot);
      }
    }
  }

  /** The pid file and the process are those of the start: who started the agent is what
      the start says, and the operator where it says nothing. */
  ghost predicate IsRecorded(s: State, p: StartParams, pid: nat) {
    && p.bot in s.procs && p.bot in s.entries && s.procs[p.bot].pid == pid
    && var entry := s.entries[p.bot];
       && entry.name == p.bot && entry.pid == pid && entry.projectID == p.projectID
       && entry.startedBy == if p.startedBy == "" then "operator" else p.startedBy
  }

  lemma StartIsRecorded(s: State, p: StartParams, spawn: Option<nat>)
    requires p.bot != "" && p.workflow != "" && p.coordinator != "" && spawn.Some? && p.bot !in s.procs
    ensures IsRecorded(Start(s, p, spawn), p, spawn.value)
    ensures Start(s, p, spawn).entries[p.bot].refs == []
    ensures !Start(s, p, spawn).procs[p.bot].stdinClosed && !Start(s, p, spawn).procs[p.bot].hardKilled
  {
  }

  lemma StepKeepsRecord(s: State, step: Step, p: StartParams, pid: nat)
    requires IsRecorded(s, p, pid) && !(step.Exiting? && step.bot == p.bot)
    ensures IsRecorded(Next(s, step), p, pid)
  {
  }

  /** In every run, the pid file of a tracked agent says what its latest start said. */
  lemma {:induction false} LatestStartIsRecorded(entries: map<string, Entry>, steps: seq<Step>, n: nat, i: nat,
      bot: string)
    requires RunsSince(entries, steps, n, i, bot)
    ensures IsRecorded(StateAt(entries, steps, n), steps[i].p, steps[i].spawn.value)
    decreases n
  {
    OneMoreStep(entries, steps, n - 1);
    if i == n - 1 {
      StartIsRecorded(StateAt(entries, steps, i), steps[i].p, steps[i].spawn);
    } else {
      LatestStartIsRecorded(entries, steps, n - 1, i, bot);
      StepKeepsRecord(StateAt(entries, steps, n - 1), steps[n - 1], steps[i].p, steps[i].spawn.value);
    }
  }

  // ---------------------------------------------------------------- references

  /** A step takes a reference from an agent of a project. */
  predicate Takes(step: Step, project: int, bot: string, run: int) {
    match step
    case Unmarking(b, r) => b == bot && r == run
    case RunEnding(q, r) => q == project && r == run
    case Reconciling(answers) => project != 0 && (project, run) in answers && answers[(project, run)]
    case _ => false
  }

  /** A step since the start marked the run for the agent, and none after it took it. */
  ghost predicate IsMarked(steps: seq<Step>, n: int, i: int, project: int, bot: string, run: int) {
    exists j | i < j :: IsMarkedAt(steps, n, j, project, bot, run)
  }

  ghost predicate IsMarkedAt(steps: seq<Step>, n: int, j: int, project: int, bot: string, run: int) {
    && 0 <= j < n <= |steps| && steps[j] == Marking(bot, run)
    && forall k | j < k < n :: !Takes(steps[k], project, bot, run)
  }

  lemma RefAfter(s: State, step: Step, p: StartParams, pid: nat, run: int)
    requires IsRecorded(s, p, pid) && !(step.Exiting? && step.bot == p.bot)
    ensures HoldsRef(Next(s, step), p.bot, run)
       <==> step == Marking(p.bot, run) || (HoldsRef(s, p.bot, run) && !Takes(step, p.projectID, p.bot, run))
  {
    RefAfterStep(s, step, p.bot, run);
  }

  lemma MarkedAfter(steps: seq<Step>, n: nat, i: int, project: int, bot: string, run: int)
    requires -1 <= i < n < |steps|
    ensures IsMarked(steps, n + 1, i, project, bot, run)
       <==> steps[n] == Marking(bot, run)
            || (IsMarked(steps, n, i, project, bot, run) && !Takes(steps[n], project, bot, run))
  {
    if steps[n] == Marking(bot, run) {
      assert IsMarkedAt(steps, n + 1, n, project, bot, run);
    }
    if j :| i < j && IsMarkedAt(steps, n, j, project, bot, run) && !Takes(steps[n], project, bot, run) {
      assert IsMarkedAt(steps, n + 1, j, project, bot, run);
    }
    var m := n + 1;
    if j :| i < j && IsMarkedAt(steps, m, j, project, bot, run) {
      assert j < n ==> IsMarkedAt(steps, n, j, project, bot, run);
    }
  }

  /** In every run, the references of a tracked agent are the marks since its start that
      were not taken. */
  lemma {:induction false} RefsAreMarks(entries: map<string, Entry>, steps: seq<Step>, n: nat, i: nat, bot: string,
                                        run: int)
    requires RunsSince(entries, steps, n, i, bot)
    ensures HoldsRef(StateAt(entries, steps, n), bot, run) <==> IsMarked(steps, n, i, steps[i].p.projectID, bot, run)
    decreases n
  {
    OneMoreStep(entries, steps, n - 1);
    if i == n - 1 {
      StartIsRecorded(StateAt(entries, steps, i), steps[i].p, steps[i].spawn);
    } else {
      assert RunsSince(entries, steps, n - 1, i, bot);
      RefsAreMarks(entries, steps, n - 1, i, bot, run);
      LatestStartIsRecorded(entries, steps, n - 1, i, bot);
      RefAfter(StateAt(entries, steps, n - 1), steps[n - 1], steps[i].p, steps[i].spawn.value, run);
      MarkedAfter(steps, n - 1, i, steps[i].p.projectID, bot, run);
    }
  }

  // ---------------------------------------------------------------- who is asked to stop

  /** The step asks the agent to stop: the operator's request, or, for an agent that an
      automatic run started, the end of a run or a reconciliation that takes all of the
      references there are. */
  ghost predicate Asks(step: Step, p: StartParams, marked: iset<int>) {
    || step == Stopping(p.bot)
    || (p.startedBy == "auto_run" && (step.RunEnding? || step.Reconciling?) && TakesAll(step, p, marked))
  }

  ghost predicate TakesAll(step: Step, p: StartParams, marked: iset<int>) {
    marked != iset{} && forall r | r in marked :: Takes(step, p.projectID, p.bot, r)
  }

  ghost function MarkedRuns(steps: seq<Step>, n: int, i: int, p: StartParams): iset<int> {
    iset r | IsMarked(steps, n, i, p.projectID, p.bot, r)
  }

  lemma TakesAllIff(refs: seq<int>, gone: set<int>, step: Step, p: StartParams, marked: iset<int>)
    requires marked == iset r | r in refs
    requires forall r | r in refs :: r in gone <==> Takes(step, p.projectID, p.bot, r)
    ensures TakesAll(step, p, marked) <==> refs != [] && Elems(refs) - gone == {}
  {
    if refs != [] {
      assert refs[0] in marked;
    }
    assert refs == [] ==> marked == iset{};
    if TakesAll(step, p, marked) {
      forall r | r in Elems(refs)
        ensures r in gone
      {
        assert r in marked;
      }
    } else if refs != [] {
      var r :| r in marked && !Takes(step, p.projectID, p.bot, r);
      assert r in Elems(refs) - gone;
    }
  }

  lemma RunEndAsks(s: State, project: int, run: int, p: StartParams, pid: nat)
    requires IsRecorded(s, p, pid)
    ensures Asked(Terminal(s, project, run), p.bot)
       <==> Asked(s, p.bot) || Asks(RunEnding(project, run), p, iset r | r in s.entries[p.bot].refs)
  {
    var refs := s.entries[p.bot].refs;
    var gone := if p.projectID == project then {run} else {};
    RunEndStopsExactly(s, project, run, p.bot);
    TakesAllIff(refs, gone, RunEnding(project, run), p, iset r | r in refs);
    EmptyElems(refs);
    assert Elems(refs) == {run} <==> Elems(refs) != {} && Elems(refs) - {run} == {};
  }

  lemma ReconcileAsks(s: State, answers: map<(int, int), bool>, p: StartParams, pid: nat)
    requires IsRecorded(s, p, pid)
    ensures Asked(Reconcile(s, answers), p.bot)
       <==> Asked(s, p.bot) || Asks(Reconciling(answers), p, iset r | r in s.entries[p.bot].refs)
  {
    var entry := s.entries[p.bot];
    var gone := if p.projectID != 0 then TerminalRefs(entry, answers) else {};
    ReconcileStopsExactly(s, answers, p.bot);
    TakesAllIff(entry.refs, gone, Reconciling(answers), p, iset r | r in entry.refs);
    EmptyElems(Reconcile(s, answers).entries[p.bot].refs);
  }

  lemma AskedAfter(s: State, step: Step, p: StartParams, pid: nat)
    requires IsRecorded(s, p, pid) && !(step.Exiting? && step.bot == p.bot)
    ensures Asked(Next(s, step), p.bot) <==> Asked(s, p.bot) || Asks(step, p, iset r | r in s.entries[p.bot].refs)
  {
    match step
    case RunEnding(project, run) => RunEndAsks(s, project, run, p, pid);
    case Reconciling(answers) => ReconcileAsks(s, answers, p, pid);
    case _ =>
  }

  /** The j-th step asks the daemon that the i-th step started. */
  ghost predicate AsksAt(steps: seq<Step>, j: int, i: int) {
    && 0 <= i < j < |steps| && steps[i].Starting?
    && Asks(steps[j], steps[i].p, MarkedRuns(steps, j, i, steps[i].p))
  }

  /** In every run, a daemon has been asked to stop exactly if some step since its start
      was the operator's request, or took its last references where an automatic run had
      started it. */
  lemma {:induction false} AskedIff(entries: map<string, Entry>, steps: seq<Step>, n: nat, i: nat, bot: string)
    requires RunsSince(entries, steps, n, i, bot)
    ensures Asked(StateAt(entries, steps, n), bot) <==> exists j | i < j < n :: AsksAt(steps, j, i)
    decreases n
  {
    var m := n - 1;
    var p, s := steps[i].p, StateAt(entries, steps, m);
    OneMoreStep(entries, steps, m);
    if i == m {
      StartIsRecorded(s, p, steps[i].spawn);
    } else {
      assert RunsSince(entries, steps, m, i, bot);
      AskedIff(entries, steps, m, i, bot);
      LatestStartIsRecorded(entries, steps, m, i, bot);
      AskedAfter(s, steps[m], p, steps[i].spawn.value);
      forall r
        ensures r in s.entries[bot].refs <==> IsMarked(steps, m, i, p.projectID, bot, r)
      {
        RefsAreMarks(entries, steps, m, i, bot, r);
      }
      assert MarkedRuns(steps, m, i, p) == iset r | r in s.entries[bot].refs;
      assert AsksAt(steps, m, i) <==> Asks(steps[m], p, MarkedRuns(steps, m, i, p));
    }
  }

  /** In every run, an agent whose latest start names the operator, or nobody, is asked
      to stop by the operator's own request and by nothing else. */
  lemma OperatorsAgentsAreLeftAlone(entries: map<string, Entry>, steps: seq<Step>, n: nat, i: nat, bot: string)
    requires RunsSince(entries, steps, n, i, bot)
    requires steps[i].p.startedBy == "" || steps[i].p.startedBy == "operator"
    ensures Asked(StateAt(entries, steps, n), bot) <==> exists j | i < j < n :: steps[j] == Stopping(bot)
  {
    AskedIff(entries, steps, n, i, bot);
    forall j | i < j < n
      ensures AsksAt(steps, j, i) <==> steps[j] == Stopping(bot)
    {
    }
  }

  // ---------------------------------------------------------------- kills and exits

  /** The j-th step kills the daemon that the i-th step started: the timeout of an
      earlier request to stop. */
  ghost predicate KillsAt(steps: seq<Step>, j: int, i: int) {
    && 0 <= i < j < |steps| && steps[i].Starting? && steps[j] == Killing(steps[i].p.bot)
    && exists k | i < k < j :: AsksAt(steps, k, i)
  }

  /** In every run, a daemon has been killed exactly if a timeout ran out after it had
      been asked to stop. */
  lemma {:induction false} KilledIff(entries: map<string, Entry>, steps: seq<Step>, n: nat, i: nat, bot: string)
    requires RunsSince(entries, steps, n, i, bot)
    ensures bot in StateAt(entries, steps, n).procs
    ensures StateAt(entries, steps, n).procs[bot].hardKilled <==> exists j | i < j < n :: KillsAt(steps, j, i)
    decreases n
  {
    var m := n - 1;
    var s := StateAt(entries, steps, m);
    OneMoreStep(entries, steps, m);
    LatestStartIsRecorded(entries, steps, n, i, bot);
    if i == m {
      StartIsRecorded(s, steps[i].p, steps[i].spawn);
    } else {
      assert RunsSince(entries, steps, m, i, bot);
      KilledIff(entries, steps, m, i, bot);
      AskedIff(entries, steps, m, i, bot);
      KilledAfter(s, steps[m], bot);
      assert KillsAt(steps, m, i) <==> steps[m] == Killing(bot) && Asked(s, bot);
    }
  }

  lemma KilledAfter(s: State, step: Step, bot: string)
    requires bot in s.procs && !(step.Exiting? && step.bot == bot)
    ensures bot in Next(s, step).procs
    ensures Next(s, step).procs[bot].hardKilled
       <==> s.procs[bot].hardKilled || (step == Killing(bot) && Asked(s, bot))
  {
  }

  /** What is remembered of an exit. */
  ghost predicate IsExit(event: ExitEvent, steps: seq<Step>, n: nat, i: nat) {
    && i < n < |steps| && steps[i].Starting? && steps[i].spawn.Some? && steps[n].Exiting?
    && event.name == steps[n].bot && event.pid == steps[i].spawn.value
    && event.reason == if exists j | i < j < n :: KillsAt(steps, j, i) then "hard-killed"
                       else if steps[n].waitError.Some? then "crashed: " + steps[n].waitError.value
                       else "graceful"
  }

  /** In every run, an exit takes the daemon and its pid file and nothing else, and is
      remembered behind the latest fifteen. */
  lemma ExitIsRemembered(entries: map<string, Entry>, steps: seq<Step>, n: nat, i: nat, bot: string,
                         waitError: Option<string>)
    requires RunsSince(entries, steps, n, i, bot) && n < |steps| && steps[n] == Exiting(bot, waitError)
    ensures var was, now := StateAt(entries, steps, n), StateAt(entries, steps, n + 1);
      && now.procs == was.procs - {bot} && now.entries == was.entries - {bot}
      && |was.exits| <= 16 && exists event | IsExit(event, steps, n, i) ::
          now.exits == (if |was.exits| < 16 then was.exits else was.exits[1..]) + [event]
  {
    var was := StateAt(entries, steps, n);
    OneMoreStep(entries, steps, n);
    KilledIff(entries, steps, n, i, bot);
    LatestStartIsRecorded(entries, steps, n, i, bot);
    RingHoldsLatestExits(entries, steps[..n]);
    var event := ExitOf(was, bot, waitError);
    assert IsExit(event, steps, n, i);
  }

  /** No other step adds to the exits. */
  lemma OtherStepsKeepExits(entries: map<string, Entry>, steps: seq<Step>, n: nat)
    requires n < |steps|
    requires !(steps[n].Exiting? && steps[n].bot in StateAt(entries, steps, n).procs)
    ensures StateAt(entries, steps, n + 1).exits == StateAt(entries, steps, n).exits
  {
    OneMoreStep(entries, steps, n);
    ExitsOnlyOnExit(StateAt(entries, steps, n), steps[n]);
  }
}
