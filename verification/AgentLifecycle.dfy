/** Whole runs of the supervisor, from any pid files that an earlier session left
    behind. */
module AgentLifecycle {
  import opened Wrappers
  import opened Graphs
  import opened Supervisors

  datatype Step =
    | Starting(p: StartParams, spawn: Option<nat>)
    | Marking(bot: string, run: int)
    | Unmarking(bot: string, run: int)
    | RunEnding(project: int, run: int)
    | Reconciling(answers: map<(int, int), bool>)
    | Stopping(bot: string)
    | Killing(bot: string)
    | Exiting(bot: string, waitError: Option<string>)

  /** A session begins with no daemon of its own; the pid files whose processes
      are still alive are kept. */
  function Session(entries: map<string, Entry>): State {
    State(map[], entries, [])
  }

  function Next(s: State, step: Step): State {
    match step
    case Starting(p, spawn) => Start(s, p, spawn)
    case Marking(bot, run) => Mark(s, bot, run)
    case Unmarking(bot, run) => Unmark(s, bot, run)
    case RunEnding(project, run) => Terminal(s, project, run)
    case Reconciling(answers) => Reconcile(s, answers)
    case Stopping(bot) => Stop(s, bot)
    case Killing(bot) => HardKill(s, bot)
    case Exiting(bot, waitError) => Reap(s, bot, waitError)
  }

  function Reached(s: State, steps: seq<Step>): State {
    if steps == [] then s else Next(Reached(s, steps[..|steps| - 1]), steps[|steps| - 1])
  }

  // ---------------------------------------------------------------- what every step keeps

  /** Every pid file is filed under the name of its agent and lists no run twice. */
  ghost predicate WellWritten(entries: map<string, Entry>) {
    forall b | b in entries :: entries[b].name == b && NoDup(entries[b].refs)
  }

  /** Every daemon has a pid file that names it; a pid file without a daemon
      survived from an earlier session. */
  ghost predicate Consistent(s: State) {
    && s.procs.Keys <= s.entries.Keys && WellWritten(s.entries)
    && (forall b | b in s.procs :: s.entries[b].pid == s.procs[b].pid)
    && (forall b | b in s.procs :: s.procs[b].hardKilled ==> s.procs[b].stdinClosed)
    && |s.exits| <= RECENT_EXITS_MAX
  }

  lemma StepKeepsConsistent(s: State, step: Step)
    requires Consistent(s)
    ensures Consistent(Next(s, step))
  {
    match step
    case Marking(bot, run) =>
      if bot in s.entries {
        AppendFacts(s.entries[bot].refs, run);
      }
    case Unmarking(bot, run) =>
      if bot in s.entries {
        WithoutFacts(s.entries[bot].refs, {run});
      }
    case RunEnding(project, run) =>
      ReleaseKeepsConsistent(s, ByTerminal(s, project, run));
    case Reconciling(answers) =>
      ReleaseKeepsConsistent(s, ByReconcile(s, answers));
    case _ =>
  }

  lemma ReleaseKeepsConsistent(s: State, gone: map<string, set<int>>)
    requires Consistent(s)
    ensures Consistent(ReleaseAll(s, gone))
  {
    forall b | b in s.entries && b in gone
      ensures NoDup(Without(s.entries[b].refs, gone[b]))
    {
      WithoutFacts(s.entries[b].refs, gone[b]);
    }
  }

  /** Whatever pid files a session finds, every daemon has its pid file, no run is
      listed twice, the ring of exits is bounded, and a pid file without a daemon is
      one that the session found. */
  lemma {:induction false} ReachedIsConsistent(entries: map<string, Entry>, steps: seq<Step>)
    requires WellWritten(entries)
    ensures Consistent(Reached(Session(entries), steps))
    ensures Untracked(Reached(Session(entries), steps)) <= entries.Keys
    decreases |steps|
  {
    if steps != [] {
      var was := Reached(Session(entries), steps[..|steps| - 1]);
      ReachedIsConsistent(entries, steps[..|steps| - 1]);
      StepKeepsConsistent(was, steps[|steps| - 1]);
      UntrackedAfterStep(was, steps[|steps| - 1]);
    }
  }

  /** The agents whose pid file has no daemon. */
  function Untracked(s: State): set<string> {
    s.entries.Keys - s.procs.Keys
  }

  lemma UntrackedAfterStep(s: State, step: Step)
    requires Consistent(s)
    ensures Untracked(Next(s, step)) <= Untracked(s)
  {
  }

  // ---------------------------------------------------------------- references

  ghost predicate HoldsRef(s: State, bot: string, run: int) {
    bot in s.entries && run in s.entries[bot].refs
  }

  /** The steps after which an agent no longer has a reference. */
  ghost predicate Clears(s: State, step: Step, bot: string, run: int) {
    match step
    case Starting(p, spawn) => StartOutcome(s, p, spawn).StartedFresh? && p.bot == bot
    case Unmarking(b, r) => b == bot && r == run
    case RunEnding(project, r) => r == run && bot in s.entries && s.entries[bot].projectID == project
    case Reconciling(answers) =>
      && bot in s.entries && s.entries[bot].projectID != 0
      && (s.entries[bot].projectID, run) in answers && answers[(s.entries[bot].projectID, run)]
    case Exiting(b, _) => b == bot && bot in s.procs
    case _ => false
  }

  ghost predicate Marks(s: State, step: Step, bot: string, run: int) {
    step == Marking(bot, run) && bot in s.entries
  }

  lemma RefAfterStep(s: State, step: Step, bot: string, run: int)
    ensures HoldsRef(Next(s, step), bot, run)
       <==> Marks(s, step, bot, run) || (HoldsRef(s, bot, run) && !Clears(s, step, bot, run))
  {
    match step
    case Marking(b, r) =>
      if b in s.entries {
        AppendFacts(s.entries[b].refs, r);
      }
    case Unmarking(b, r) =>
      if b in s.entries {
        RefAfterWithout(s.entries[b].refs, {r}, run);
      }
    case RunEnding(project, r) =>
      RefAfterRelease(s, ByTerminal(s, project, r), bot, run);
    case Reconciling(answers) =>
      RefAfterRelease(s, ByReconcile(s, answers), bot, run);
    case _ =>
  }

  lemma RefAfterWithout(refs: seq<int>, gone: set<int>, run: int)
    ensures run in Without(refs, gone) <==> run in refs && run !in gone
  {
    WithoutFacts(refs, gone);
  }

  lemma RefAfterRelease(s: State, gone: map<string, set<int>>, bot: string, run: int)
    ensures HoldsRef(ReleaseAll(s, gone), bot, run)
       <==> HoldsRef(s, bot, run) && !(bot in gone && run in gone[bot])
  {
    if bot in s.entries && bot in gone {
      RefAfterWithout(s.entries[bot].refs, gone[bot], run);
    }
  }

  /** No step from the i-th on clears the reference. */
  ghost predicate Uncleared(s: State, steps: seq<Step>, i: nat, bot: string, run: int) {
    forall j | i <= j < |steps| :: !Clears(Reached(s, steps[..j]), steps[j], bot, run)
  }

  /** The i-th step marked the run for the agent, and none since has cleared it. */
  ghost predicate LiveSince(s: State, steps: seq<Step>, i: nat, bot: string, run: int)
    requires i < |steps|
  {
    Marks(Reached(s, steps[..i]), steps[i], bot, run) && Uncleared(s, steps, i + 1, bot, run)
  }

  ghost predicate Marked(s: State, steps: seq<Step>, bot: string, run: int) {
    exists i | 0 <= i < |steps| :: LiveSince(s, steps, i, bot, run)
  }

  /** The reference was there at the start, or a step marked the run for the agent,
      and no step since has cleared it. */
  ghost predicate Live(s: State, steps: seq<Step>, bot: string, run: int) {
    (HoldsRef(s, bot, run) && Uncleared(s, steps, 0, bot, run)) || Marked(s, steps, bot, run)
  }

  /** In every run, from whatever state, the references of an agent are exactly
      those that were there or were marked and have not been cleared since. */
  lemma {:induction false} RefsAreLiveMarks(s: State, steps: seq<Step>, bot: string, run: int)
    ensures HoldsRef(Reached(s, steps), bot, run) <==> Live(s, steps, bot, run)
    decreases |steps|
  {
    if steps != [] {
      var n := |steps| - 1;
      var init := steps[..n];
      RefsAreLiveMarks(s, init, bot, run);
      RefAfterStep(Reached(s, init), steps[n], bot, run);
      MarkedAfterStep(s, steps, bot, run);
      UnclearedGrows(s, steps, 0, bot, run);
    }
  }

  lemma MarkedAfterStep(s: State, steps: seq<Step>, bot: string, run: int)
    requires steps != []
    ensures var init, last := steps[..|steps| - 1], steps[|steps| - 1];
      Marked(s, steps, bot, run)
      <==> (|| Marks(Reached(s, init), last, bot, run)
            || (Marked(s, init, bot, run) && !Clears(Reached(s, init), last, bot, run)))
  {
    var n := |steps| - 1;
    var init := steps[..n];
    assert LiveSince(s, steps, n, bot, run) <==> Marks(Reached(s, init), steps[n], bot, run);
    forall i | 0 <= i < n
      ensures LiveSince(s, steps, i, bot, run)
         <==> LiveSince(s, init, i, bot, run) && !Clears(Reached(s, init), steps[n], bot, run)
    {
      LiveSinceGrows(s, steps, i, bot, run);
    }
  }

  lemma LiveSinceGrows(s: State, steps: seq<Step>, i: nat, bot: string, run: int)
    requires i < |steps| - 1
    ensures var init := steps[..|steps| - 1];
      LiveSince(s, steps, i, bot, run)
      <==> LiveSince(s, init, i, bot, run) && !Clears(Reached(s, init), steps[|steps| - 1], bot, run)
  {
    UnclearedGrows(s, steps, i + 1, bot, run);
    assert steps[..i] == steps[..|steps| - 1][..i];
  }

  lemma UnclearedGrows(s: State, steps: seq<Step>, i: nat, bot: string, run: int)
    requires i <= |steps| - 1
    ensures var init := steps[..|steps| - 1];
      Uncleared(s, steps, i, bot, run)
      <==> Uncleared(s, init, i, bot, run) && !Clears(Reached(s, init), steps[|steps| - 1], bot, run)
  {
    var init := steps[..|steps| - 1];
    forall j | 0 <= j <= |init|
      ensures steps[..j] == init[..j]
    {
    }
    assert init[..|init|] == init;
  }

  // ---------------------------------------------------------------- who is asked to stop

  /** The supervisor has asked the agent's daemon to stop. */
  predicate Asked(s: State, bot: string) {
    bot in s.procs && s.procs[bot].stdinClosed
  }

  /** In every state, the end of a run takes the reference from every agent of its
      project and nothing else, and asks exactly those to stop whose only
      reference it was, that an automatic run started, and that have a daemon. */
  lemma RunEndStopsExactly(s: State, project: int, run: int, bot: string)
    requires bot in s.entries
    ensures var now, entry := Terminal(s, project, run), s.entries[bot];
      && now.procs.Keys == s.procs.Keys && now.entries.Keys == s.entries.Keys && now.exits == s.exits
      && now.entries[bot] == entry.(refs := now.entries[bot].refs)
      && Elems(now.entries[bot].refs) == Elems(entry.refs) - (if entry.projectID == project then {run} else {})
      && (bot in s.procs ==> now.procs[bot].pid == s.procs[bot].pid)
      && (Asked(now, bot)
          <==> Asked(s, bot)
               || (bot in s.procs && entry.startedBy == AUTO_RUN && entry.projectID == project
                   && Elems(entry.refs) == {run}))
  {
    var refs := s.entries[bot].refs;
    WithoutFacts(refs, {run});
    EmptyElems(Without(refs, {run}));
    EmptyElems(refs);
  }

  /** In every state, reconciling drops exactly the references that the coordinator
      answers to be terminal, keeps those whose lookup failed, and asks exactly
      those agents to stop that lose all their references, that an automatic run
      started, and that have a daemon. */
  lemma ReconcileStopsExactly(s: State, answers: map<(int, int), bool>, bot: string)
    requires bot in s.entries
    ensures var now, entry := Reconcile(s, answers), s.entries[bot];
      && now.procs.Keys == s.procs.Keys && now.entries.Keys == s.entries.Keys && now.exits == s.exits
      && now.entries[bot] == entry.(refs := now.entries[bot].refs)
      && Elems(now.entries[bot].refs)
         == Elems(entry.refs) - (if entry.projectID != 0 then TerminalRefs(entry, answers) else {})
      && (bot in s.procs ==> now.procs[bot].pid == s.procs[bot].pid)
      && (Asked(now, bot)
          <==> Asked(s, bot)
               || (bot in s.procs && entry.startedBy == AUTO_RUN && entry.refs != [] && now.entries[bot].refs == []))
  {
    var entry := s.entries[bot];
    WithoutFacts(entry.refs, TerminalRefs(entry, answers));
  }

  /** Right after a restart, reconciling asks nobody to stop: an agent that the last
      session started and whose runs have all ended is left eligible, with its
      process running. */
  lemma ReconcileAfterRestartStopsNobody(entries: map<string, Entry>, answers: map<(int, int), bool>, bot: string)
    ensures Reconcile(Session(entries), answers).procs == map[]
    ensures bot in entries && entries[bot].projectID != 0 && entries[bot].startedBy == AUTO_RUN
         && (forall r | r in entries[bot].refs ::
             (entries[bot].projectID, r) in answers && answers[(entries[bot].projectID, r)])
      ==> Eligible(Reconcile(Session(entries), answers), bot)
  {
    if bot in entries && entries[bot].projectID != 0 {
      var entry := entries[bot];
      ReconcileStopsExactly(Session(entries), answers, bot);
      EmptyElems(Reconcile(Session(entries), answers).entries[bot].refs);
      if forall r | r in entry.refs :: (entry.projectID, r) in answers && answers[(entry.projectID, r)] {
        assert TerminalRefs(entry, answers) == Elems(entry.refs);
      }
    }
  }

  /** An agent that survived from an earlier session is asked to stop only after it
      was started again. */
  lemma {:induction false} SurvivorsNeedAStart(entries: map<string, Entry>, steps: seq<Step>, bot: string)
    requires Asked(Reached(Session(entries), steps), bot)
    ensures exists i | 0 <= i < |steps| :: steps[i].Starting? && steps[i].p.bot == bot
    decreases |steps|
  {
    TrackedWasStarted(entries, steps, bot);
  }

  lemma {:induction false} TrackedWasStarted(entries: map<string, Entry>, steps: seq<Step>, bot: string)
    requires bot in Reached(Session(entries), steps).procs
    ensures exists i | 0 <= i < |steps| :: steps[i].Starting? && steps[i].p.bot == bot
    decreases |steps|
  {
    var n := |steps| - 1;
    if !(steps[n].Starting? && steps[n].p.bot == bot) {
      TrackedWasStarted(entries, steps[..n], bot);
      var i :| 0 <= i < n && steps[..n][i].Starting? && steps[..n][i].p.bot == bot;
      assert steps[i] == steps[..n][i];
    }
  }

  /** The operator asked the present daemon of an agent to stop. */
  predicate StoppedByOperator(s: State, steps: seq<Step>, bot: string) {
    steps != [] &&
    var init, last := steps[..|steps| - 1], steps[|steps| - 1];
    if last == Stopping(bot) then bot in Reached(s, init).procs
    else !(last.Exiting? && last.bot == bot) && StoppedByOperator(s, init, bot)
  }

  /** In every run, a daemon that was asked to stop was started by an automatic
      run, or the operator asked it: the handlers leave an operator's agents alone. */
  lemma {:induction false} OperatorsAgentsAreLeftAlone(entries: map<string, Entry>, steps: seq<Step>, bot: string)
    requires WellWritten(entries) && Asked(Reached(Session(entries), steps), bot)
    ensures bot in Reached(Session(entries), steps).entries
    ensures Reached(Session(entries), steps).entries[bot].startedBy == AUTO_RUN
         || StoppedByOperator(Session(entries), steps, bot)
    decreases |steps|
  {
    ReachedIsConsistent(entries, steps);
    var init := steps[..|steps| - 1];
    ReachedIsConsistent(entries, init);
    if Asked(Reached(Session(entries), init), bot) {
      OperatorsAgentsAreLeftAlone(entries, init, bot);
    }
  }

  /** Once an agent is running, further starts change nothing; who started it
      stays recorded until its daemon exits. */
  lemma StartIsIdempotent(s: State, step: Step, bot: string)
    requires Consistent(s) && bot in s.procs && !(step.Exiting? && step.bot == bot)
    ensures bot in Next(s, step).procs && bot in Next(s, step).entries
    ensures Next(s, step).procs[bot].pid == s.procs[bot].pid
    ensures Next(s, step).entries[bot].startedBy == s.entries[bot].startedBy
    ensures Next(s, step).entries[bot].projectID == s.entries[bot].projectID
    ensures step.Starting? && step.p.bot == bot ==> Next(s, step) == s
  {
  }

  /** What the reason of an exit tells: that the daemon was killed, that it left in
      good order, or that it failed on its own. */
  lemma ExitReasonTells(s: State, bot: string, waitError: Option<string>)
    requires bot in s.procs
    ensures ExitOf(s, bot, waitError).reason == "hard-killed" <==> s.procs[bot].hardKilled
    ensures ExitOf(s, bot, waitError).reason == "graceful" <==> !s.procs[bot].hardKilled && waitError.None?
  {
    if waitError.Some? {
      assert ("crashed: " + waitError.value)[0] == 'c';
    }
  }

  /** In every run, only a daemon that had been asked to stop exits as killed. */
  lemma KilledWasAsked(entries: map<string, Entry>, steps: seq<Step>, bot: string, waitError: Option<string>)
    requires WellWritten(entries) && bot in Reached(Session(entries), steps).procs
    requires ExitOf(Reached(Session(entries), steps), bot, waitError).reason == "hard-killed"
    ensures Asked(Reached(Session(entries), steps), bot)
  {
    ReachedIsConsistent(entries, steps);
    ExitReasonTells(Reached(Session(entries), steps), bot, waitError);
  }

  // ---------------------------------------------------------------- recent exits

  /** Every exit of a run, oldest first. */
  function ExitLog(s: State, steps: seq<Step>): seq<ExitEvent> {
    if steps == [] then []
    else
      var init, last := steps[..|steps| - 1], steps[|steps| - 1];
      if last.Exiting? && last.bot in Reached(s, init).procs
      then ExitLog(s, init) + [ExitOf(Reached(s, init), last.bot, last.waitError)] else ExitLog(s, init)
  }

  /** The ring holds the latest exits, as many as fit, in order. */
  lemma {:induction false} RingHoldsLatestExits(entries: map<string, Entry>, steps: seq<Step>)
    ensures Reached(Session(entries), steps).exits == LastOf(ExitLog(Session(entries), steps))
    decreases |steps|
  {
    if steps != [] {
      var init, last := steps[..|steps| - 1], steps[|steps| - 1];
      RingHoldsLatestExits(entries, init);
      RingAfterStep(Reached(Session(entries), init), last, ExitLog(Session(entries), init));
    }
  }

  lemma RingAfterStep(s: State, step: Step, log: seq<ExitEvent>)
    requires s.exits == LastOf(log)
    ensures Next(s, step).exits
         == LastOf(if step.Exiting? && step.bot in s.procs then log + [ExitOf(s, step.bot, step.waitError)] else log)
  {
    if step.Exiting? && step.bot in s.procs {
    } else {
      ExitsOnlyOnExit(s, step);
    }
  }

  lemma ExitsOnlyOnExit(s: State, step: Step)
    requires !(step.Exiting? && step.bot in s.procs)
    ensures Next(s, step).exits == s.exits
  {
  }
}
