/** The supervisor of agent daemons: processes, pid files, recent exits, and the
    handlers, each of which is one atomic step. */
module Supervisors {
  import opened Wrappers
  import opened Graphs
  import opened EventTail

  const AUTO_RUN := "auto_run"
  const OPERATOR := "operator"

  /** How many exits are remembered. */
  const RECENT_EXITS_MAX: nat := 16

  /** What a pid file records. */
  datatype Entry = Entry(name: string, pid: nat, startedBy: string, refs: seq<int>, projectID: int)

  /** A tracked daemon; closing its standard input asks it to stop. */
  datatype Proc = Proc(pid: nat, stdinClosed: bool, hardKilled: bool)

  datatype ExitEvent = ExitEvent(name: string, pid: nat, reason: string)

  datatype StartParams = StartParams(bot: string, workflow: string, coordinator: string, projectID: int,
                                     startedBy: string)

  datatype StartResult = StartedFresh(pid: nat) | AlreadyRunning(pid: nat) | StartFailed

  /** The daemons, the pid files by agent, and the recent exits, oldest first. */
  datatype State = State(procs: map<string, Proc>, entries: map<string, Entry>, exits: seq<ExitEvent>)

  // ---------------------------------------------------------------- references

  /** A list without the members of a set. */
  function Without(refs: seq<int>, gone: set<int>): seq<int> {
    if refs == [] then []
    else
      var left, last := Without(refs[..|refs| - 1], gone), refs[|refs| - 1];
      if last in gone then left else left + [last]
  }

  lemma {:induction false} WithoutFacts(refs: seq<int>, gone: set<int>)
    ensures Elems(Without(refs, gone)) == Elems(refs) - gone
    ensures NoDup(refs) ==> NoDup(Without(refs, gone))
    decreases |refs|
  {
    if refs != [] {
      var init, last := refs[..|refs| - 1], refs[|refs| - 1];
      WithoutFacts(init, gone);
      SplitLast(refs);
      AppendFacts(init, last);
      AppendFacts(Without(init, gone), last);
      if NoDup(refs) {
        LastIsNew(refs);
      }
    }
  }

  lemma LastIsNew<T>(s: seq<T>)
    requires s != [] && NoDup(s)
    ensures NoDup(s[..|s| - 1]) && s[|s| - 1] !in Elems(s[..|s| - 1])
  {
  }

  lemma {:induction false} WithoutNothing(refs: seq<int>, gone: set<int>)
    requires Elems(refs) !! gone
    ensures Without(refs, gone) == refs
    decreases |refs|
  {
    if refs != [] {
      SplitLast(refs);
      AppendFacts(refs[..|refs| - 1], refs[|refs| - 1]);
      WithoutNothing(refs[..|refs| - 1], gone);
    }
  }

  lemma {:induction false} WithoutTwice(refs: seq<int>, a: set<int>, b: set<int>)
    ensures Without(Without(refs, a), b) == Without(refs, a + b)
    decreases |refs|
  {
    if refs != [] {
      var init, last := refs[..|refs| - 1], refs[|refs| - 1];
      WithoutTwice(init, a, b);
      if last !in a {
        var kept := Without(init, a);
        assert (kept + [last])[..|kept|] == kept;
      }
    }
  }

  // ---------------------------------------------------------------- the steps

  predicate Complete(p: StartParams) {
    p.bot != "" && p.workflow != "" && p.coordinator != ""
  }

  function StarterOf(p: StartParams): string {
    if p.startedBy == "" then OPERATOR else p.startedBy
  }

  /** Starting an agent; spawn is the pid of the new process, or None where the
      process cannot be spawned. */
  function Start(s: State, p: StartParams, spawn: Option<nat>): State {
    if !Complete(p) || p.bot in s.procs || spawn.None? then s
    else
      s.(procs := s.procs[p.bot := Proc(spawn.value, false, false)],
         entries := s.entries[p.bot := Entry(p.bot, spawn.value, StarterOf(p), [], p.projectID)])
  }

  function StartOutcome(s: State, p: StartParams, spawn: Option<nat>): StartResult {
    if !Complete(p) then StartFailed
    else if p.bot in s.procs then AlreadyRunning(s.procs[p.bot].pid)
    else if spawn.None? then StartFailed
    else StartedFresh(spawn.value)
  }

  function Mark(s: State, bot: string, run: int): State {
    if bot !in s.entries || run in s.entries[bot].refs then s
    else
      var entry := s.entries[bot];
      s.(entries := s.entries[bot := entry.(refs := entry.refs + [run])])
  }

  function Unmark(s: State, bot: string, run: int): State {
    if bot !in s.entries then s
    else
      var entry := s.entries[bot];
      s.(entries := s.entries[bot := entry.(refs := Without(entry.refs, {run}))])
  }

  predicate Eligible(s: State, bot: string) {
    bot in s.entries && s.entries[bot].startedBy == AUTO_RUN && s.entries[bot].refs == []
  }

  /** Asking an agent to stop. */
  function Stop(s: State, bot: string): State {
    if bot in s.procs then s.(procs := s.procs[bot := s.procs[bot].(stdinClosed := true)]) else s
  }

  /** The graceful timeout ran out after a request to stop. */
  function HardKill(s: State, bot: string): State {
    if bot in s.procs && s.procs[bot].stdinClosed
    then s.(procs := s.procs[bot := s.procs[bot].(hardKilled := true)]) else s
  }

  function Reason(hardKilled: bool, waitError: Option<string>): string {
    if hardKilled then "hard-killed"
    else match waitError case None => "graceful" case Some(message) => "crashed: " + message
  }

  function LastOf(exits: seq<ExitEvent>): seq<ExitEvent> {
    if |exits| > RECENT_EXITS_MAX then exits[|exits| - RECENT_EXITS_MAX..] else exits
  }

  function ExitOf(s: State, bot: string, waitError: Option<string>): ExitEvent
    requires bot in s.procs
  {
    ExitEvent(bot, s.procs[bot].pid, Reason(s.procs[bot].hardKilled, waitError))
  }

  /** A daemon has exited. */
  function Reap(s: State, bot: string, waitError: Option<string>): State {
    if bot !in s.procs then s
    else State(s.procs - {bot}, s.entries - {bot}, LastOf(s.exits + [ExitOf(s, bot, waitError)]))
  }

  /** Drops references of one agent. */
  function DropRefs(s: State, bot: string, gone: set<int>): State
    requires bot in s.entries
  {
    s.(entries := s.entries[bot := s.entries[bot].(refs := Without(s.entries[bot].refs, gone))])
  }

  /** Releases references of one agent and asks it to stop if that makes it eligible. */
  function Release(s: State, bot: string, gone: set<int>): State
    requires bot in s.entries
  {
    var released := DropRefs(s, bot, gone);
    if Eligible(released, bot) then Stop(released, bot) else released
  }

  /** The references that a terminal run or a reconciliation releases, by agent;
      an agent that is not concerned is not in the map. */
  function ByTerminal(s: State, project: int, run: int): map<string, set<int>> {
    map b | b in s.entries && s.entries[b].projectID == project && run in s.entries[b].refs :: {run}
  }

  /** The runs that the coordinator answers to be terminal; a lookup that fails
      has no answer. */
  function TerminalRefs(entry: Entry, answers: map<(int, int), bool>): set<int> {
    set r | r in entry.refs && (entry.projectID, r) in answers && answers[(entry.projectID, r)]
  }

  function ByReconcile(s: State, answers: map<(int, int), bool>): map<string, set<int>> {
    map b | b in s.entries && s.entries[b].refs != [] && s.entries[b].projectID != 0 ::
        TerminalRefs(s.entries[b], answers)
  }

  /** An agent whose last references go, and which an automatic run started. */
  predicate LosesLast(s: State, gone: map<string, set<int>>, bot: string) {
    && bot in gone && bot in s.entries
    && s.entries[bot].startedBy == AUTO_RUN && Without(s.entries[bot].refs, gone[bot]) == []
  }

  /** Releases references of many agents at once. */
  function ReleaseAll(s: State, gone: map<string, set<int>>): State {
    State(map b | b in s.procs ::
            if LosesLast(s, gone, b) then s.procs[b].(stdinClosed := true) else s.procs[b],
          map b | b in s.entries ::
            if b in gone then s.entries[b].(refs := Without(s.entries[b].refs, gone[b])) else s.entries[b],
          s.exits)
  }

  function Terminal(s: State, project: int, run: int): State {
    ReleaseAll(s, ByTerminal(s, project, run))
  }

  function Reconcile(s: State, answers: map<(int, int), bool>): State {
    ReleaseAll(s, ByReconcile(s, answers))
  }

  /** A run ends for each of a list of runs in turn. */
  function TerminalAll(s: State, project: int, runs: seq<int>): State {
    if runs == [] then s
    else Terminal(TerminalAll(s, project, runs[..|runs| - 1]), project, runs[|runs| - 1])
  }

  // ---------------------------------------------------------------- the object

  /** A tailer's offset and the project whose runs it reports. */
  datatype Tailer = Tailer(offset: nat, projectID: int)

  class Supervisor {
    var procs: map<string, Proc>
    var entries: map<string, Entry>
    var recentExits: seq<ExitEvent>
    var tailing: map<string, Tailer>

    /** A new session tracks no daemon and keeps the pid files that it finds. */
    constructor (found: map<string, Entry>)
      ensures Now() == State(map[], found, []) && tailing == map[]
    {
      procs, entries, recentExits, tailing := map[], found, [], map[];
    }

    function Now(): State
      reads this
    {
      State(procs, entries, recentExits)
    }

    method StartAgent(p: StartParams, spawn: Option<nat>) returns (result: StartResult)
      modifies this
      ensures Now() == Start(old(Now()), p, spawn) && tailing == old(tailing)
      ensures result == StartOutcome(old(Now()), p, spawn)
      ensures result.AlreadyRunning?
         <==> p.bot in old(procs) && p.bot != "" && p.workflow != "" && p.coordinator != ""
      ensures result.AlreadyRunning? ==> result.pid == old(procs)[p.bot].pid
      ensures result.StartedFresh? <==> p.bot !in old(procs) && p.bot in procs
      ensures result.StartedFresh? ==> procs[p.bot].pid == result.pid
      ensures result.StartedFresh?
          ==> entries[p.bot].startedBy == if p.startedBy == "" then "operator" else p.startedBy
      ensures !result.StartedFresh? ==> Now() == old(Now())
    {
      if p.bot == "" || p.workflow == "" || p.coordinator == "" {
        return StartFailed;
      }
      if p.bot in procs {
        return AlreadyRunning(procs[p.bot].pid);
      }
      if spawn.None? {
        return StartFailed;
      }
      procs := procs[p.bot := Proc(spawn.value, false, false)];
      var startedBy := p.startedBy;
      if startedBy == "" {
        startedBy := OPERATOR;
      }
      entries := entries[p.bot := Entry(p.bot, spawn.value, startedBy, [], p.projectID)];
      result := StartedFresh(spawn.value);
    }

    /** True unless the agent has no pid file. */
    method MarkAutoRun(bot: string, run: int) returns (ok: bool)
      modifies this
      ensures Now() == Mark(old(Now()), bot, run) && tailing == old(tailing)
      ensures ok <==> bot in old(entries)
    {
      if bot !in entries {
        return false;
      }
      var entry := entries[bot];
      if run in entry.refs {
        return true;
      }
      entries := entries[bot := entry.(refs := entry.refs + [run])];
      ok := true;
    }

    method UnmarkAutoRun(bot: string, run: int)
      modifies this
      ensures Now() == Unmark(old(Now()), bot, run) && tailing == old(tailing)
    {
      if bot !in entries {
        return;
      }
      var entry := entries[bot];
      var left: seq<int> := [];
      for i := 0 to |entry.refs|
        invariant left == Without(entry.refs[..i], {run})
        invariant Now() == old(Now()) && tailing == old(tailing)
      {
        NextPrefix(entry.refs, i);
        if entry.refs[i] != run {
          left := left + [entry.refs[i]];
        }
      }
      assert entry.refs[..|entry.refs|] == entry.refs;
      entries := entries[bot := entry.(refs := left)];
    }

    method EligibleForAutoStop(bot: string) returns (eligible: bool)
      ensures eligible <==> Eligible(Now(), bot)
    {
      eligible := bot in entries && entries[bot].startedBy == AUTO_RUN && |entries[bot].refs| == 0;
    }

    /** False if the agent is not running. */
    method StopAgent(bot: string) returns (ok: bool)
      modifies this
      ensures Now() == Stop(old(Now()), bot) && tailing == old(tailing)
      ensures ok <==> bot in old(procs)
    {
      ok := bot in procs;
      if ok {
        procs := procs[bot := procs[bot].(stdinClosed := true)];
      }
    }

    /** The graceful timeout of a stop has run out. */
    method ExpireGrace(bot: string)
      modifies this
      ensures Now() == HardKill(old(Now()), bot) && tailing == old(tailing)
    {
      if bot in procs && procs[bot].stdinClosed {
        procs := procs[bot := procs[bot].(hardKilled := true)];
      }
    }

    method ReapOnExit(bot: string, waitError: Option<string>)
      requires bot in procs
      modifies this
      ensures Now() == Reap(old(Now()), bot, waitError) && tailing == old(tailing)
    {
      var proc := procs[bot];
      procs := procs - {bot};
      var reason := "graceful";
      if proc.hardKilled {
        reason := "hard-killed";
      } else if waitError.Some? {
        reason := "crashed: " + waitError.value;
      }
      PushExit(ExitEvent(bot, proc.pid, reason));
      entries := entries - {bot};
    }

    /** Adds to the ring of exits. */
    method PushExit(event: ExitEvent)
      modifies this`recentExits
      ensures recentExits == LastOf(old(recentExits) + [event])
    {
      recentExits := recentExits + [event];
      if |recentExits| > RECENT_EXITS_MAX {
        recentExits := recentExits[|recentExits| - RECENT_EXITS_MAX..];
      }
    }

    /** Handles the end of a run: every agent of the project that the run keeps
        alive loses the reference, and stops if it was the last one. */
    method OnRunTerminal(projectID: int, run: int)
      modifies this
      ensures Now() == Terminal(old(Now()), projectID, run) && tailing == old(tailing)
    {
      ghost var gone := ByTerminal(Now(), projectID, run);
      var names := InSomeOrder(entries.Keys);
      NothingReleased(Now(), gone);
      assert names[..0] == [];
      for i := 0 to |names|
        invariant Now() == ReleaseAll(old(Now()), Among(gone, Elems(names[..i]))) && tailing == old(tailing)
      {
        var name := names[i];
        PrefixFacts(names, i);
        ReleaseOneMore(old(Now()), gone, Elems(names[..i]), name);
        var entry := entries[name];
        if entry.projectID == projectID && run in entry.refs {
          UnmarkAutoRun(name, run);
          var eligible := EligibleForAutoStop(name);
          if eligible {
            var _ := StopAgent(name);
          }
        }
      }
      assert names[..|names|] == names;
      AllReleased(gone, Elems(names));
    }

    /** Drops the references to terminal runs from one pid file. */
    method DropTerminalRefs(name: string, answers: map<(int, int), bool>)
      requires name in entries
      modifies this
      ensures tailing == old(tailing)
      ensures Now() == DropRefs(old(Now()), name, TerminalRefs(old(entries)[name], answers))
    {
      var entry := entries[name];
      ghost var was := Now();
      ghost var dropped: set<int> := {};
      NoRefsDropped(was, name);
      for i := 0 to |entry.refs|
        invariant tailing == old(tailing)
        invariant dropped == TerminalRefs(entry.(refs := entry.refs[..i]), answers)
        invariant Now() == DropRefs(was, name, dropped)
      {
        var run := entry.refs[i];
        OneMoreRef(entry, answers, i);
        if (entry.projectID, run) in answers && answers[(entry.projectID, run)] {
          UnmarkAutoRun(name, run);
          OneMoreDropped(was, name, dropped, run);
          dropped := dropped + {run};
        }
      }
      assert entry.refs[..|entry.refs|] == entry.refs;
    }

    /** Checks every pid file against the coordinator's answers. */
    method ReconcileAll(answers: map<(int, int), bool>)
      modifies this
      ensures Now() == Reconcile(old(Now()), answers) && tailing == old(tailing)
    {
      ghost var gone := ByReconcile(Now(), answers);
      var names := InSomeOrder(entries.Keys);
      NothingReleased(Now(), gone);
      assert names[..0] == [];
      for i := 0 to |names|
        invariant Now() == ReleaseAll(old(Now()), Among(gone, Elems(names[..i]))) && tailing == old(tailing)
      {
        var name := names[i];
        PrefixFacts(names, i);
        ReleaseOneMore(old(Now()), gone, Elems(names[..i]), name);
        var entry := entries[name];
        if |entry.refs| != 0 && entry.projectID != 0 {
          DropTerminalRefs(name, answers);
          var eligible := EligibleForAutoStop(name);
          if eligible {
            var _ := StopAgent(name);
          }
        }
      }
      assert names[..|names|] == names;
      AllReleased(gone, Elems(names));
    }

    /** Begins to tail a project's events at the end of the file; a second call for
        the same directory does nothing. */
    method WatchProjectEvents(dir: string, projectID: int, file: Option<string>)
      modifies this
      ensures Now() == old(Now())
      ensures tailing == if dir == "" || dir in old(tailing) then old(tailing)
                         else old(tailing)[dir := Tailer(if file.Some? then |file.value| else 0, projectID)]
    {
      if dir == "" || dir in tailing {
        return;
      }
      var offset := 0;
      if file.Some? {
        offset := |file.value|;
      }
      tailing := tailing[dir := Tailer(offset, projectID)];
    }

    /** Handles one line of the event file. */
    method Dispatch(decode: Decoder, line: string, projectID: int)
      modifies this
      ensures Now() == AfterLine(old(Now()), decode, line, projectID) && tailing == old(tailing)
    {
      var event := decode(line);
      if event.Malformed? {
        return;
      }
      if event.kind !in TERMINAL_TYPES {
        return;
      }
      if event.runSeq == 0 {
        return;
      }
      OnRunTerminal(projectID, event.runSeq);
    }

    /** Reads the events from an offset on and handles the ends of runs among them. */
    method ConsumeEventTail(decode: Decoder, file: Option<string>, from: nat, projectID: int)
        returns (newOffset: nat, tooLong: bool)
      modifies this
      ensures newOffset == Poll(file, from).offset && tooLong == Poll(file, from).tooLong
      ensures Now() == TerminalAll(old(Now()), projectID, Runs(decode, Poll(file, from).lines))
      ensures tailing == old(tailing)
    {
      if file.None? {
        return from, false;
      }
      var data := file.value;
      var at := if |data| < from then 0 else from;
      ghost var scan, was := Poll(file, from), Now();
      ghost var lines: seq<string> := [];
      newOffset := at;
      while at < |data| && LineEnd(data, at) - at < MAX_BUFFER
        invariant at <= |data| && tailing == old(tailing)
        invariant Now() == TerminalAll(was, projectID, Runs(decode, lines))
        invariant Continues(scan, lines, ScanFrom(data, at, newOffset))
      {
        var e := LineEnd(data, at);
        var line := LineAt(data, at, e);
        ghost var more := lines + [line];
        OneMoreLine(decode, was, projectID, lines, more);
        Dispatch(decode, line, projectID);
        var next, offset := if e < |data| then e + 1 else e, newOffset + |line| + 1;
        ContinuesNext(scan, lines, data, at, newOffset, more, next, offset);
        lines, at, newOffset := more, next, offset;
      }
      ContinuesToEnd(scan, lines, data, at, newOffset);
      tooLong := at < |data|;
    }

    /** One poll of a watched project. */
    method PollProject(decode: Decoder, dir: string, file: Option<string>) returns (tooLong: bool)
      requires dir in tailing
      modifies this
      ensures var was := old(tailing)[dir];
        && tailing == old(tailing)[dir := was.(offset := Poll(file, was.offset).offset)]
        && Now() == TerminalAll(old(Now()), was.projectID, Runs(decode, Poll(file, was.offset).lines))
    {
      var was := tailing[dir];
      var next;
      next, tooLong := ConsumeEventTail(decode, file, was.offset, was.projectID);
      tailing := tailing[dir := was.(offset := next)];
    }
  }

  // ---------------------------------------------------------------- one agent at a time

  function Among(gone: map<string, set<int>>, done: set<string>): map<string, set<int>> {
    map b | b in gone && b in done :: gone[b]
  }

  lemma NothingReleased(s: State, gone: map<string, set<int>>)
    ensures ReleaseAll(s, Among(gone, {})) == s
  {
  }

  lemma AllReleased(gone: map<string, set<int>>, done: set<string>)
    requires gone.Keys <= done
    ensures Among(gone, done) == gone
  {
  }

  /** Releasing the references of one more agent. */
  lemma ReleaseOneMore(s: State, gone: map<string, set<int>>, done: set<string>, bot: string)
    requires bot in s.entries && bot !in done
    ensures ReleaseAll(s, Among(gone, done)).entries.Keys == s.entries.Keys
    ensures ReleaseAll(s, Among(gone, done)).entries[bot] == s.entries[bot]
    ensures ReleaseAll(s, Among(gone, done + {bot}))
         == if bot in gone then Release(ReleaseAll(s, Among(gone, done)), bot, gone[bot])
            else ReleaseAll(s, Among(gone, done))
  {
    var was, now := ReleaseAll(s, Among(gone, done)), ReleaseAll(s, Among(gone, done + {bot}));
    if bot in gone {
      var next := Release(was, bot, gone[bot]);
      assert now.entries == next.entries;
      assert now.procs == next.procs;
    } else {
      assert Among(gone, done + {bot}) == Among(gone, done);
    }
  }

  lemma NoRefsDropped(s: State, bot: string)
    requires bot in s.entries
    ensures DropRefs(s, bot, {}) == s
  {
    WithoutNothing(s.entries[bot].refs, {});
  }

  lemma OneMoreDropped(s: State, bot: string, gone: set<int>, run: int)
    requires bot in s.entries
    ensures Unmark(DropRefs(s, bot, gone), bot, run) == DropRefs(s, bot, gone + {run})
  {
    WithoutTwice(s.entries[bot].refs, gone, {run});
  }

  lemma OneMoreRef(entry: Entry, answers: map<(int, int), bool>, i: nat)
    requires i < |entry.refs|
    ensures var run := entry.refs[i];
      TerminalRefs(entry.(refs := entry.refs[..i + 1]), answers)
      == TerminalRefs(entry.(refs := entry.refs[..i]), answers)
       + if (entry.projectID, run) in answers && answers[(entry.projectID, run)] then {run} else {}
  {
    NextPrefix(entry.refs, i);
    AppendFacts(entry.refs[..i], entry.refs[i]);
    forall r
      ensures r in entry.refs[..i + 1] <==> r in entry.refs[..i] || r == entry.refs[i]
    {
      assert r in entry.refs[..i + 1] <==> r in Elems(entry.refs[..i + 1]);
    }
  }

  /** A scan is some lines read already and the rest of the scan. */
  ghost predicate Continues(scan: Scan, lines: seq<string>, rest: Scan) {
    scan.lines == lines + rest.lines && scan.offset == rest.offset && scan.tooLong == rest.tooLong
  }

  lemma ContinuesNext(scan: Scan, lines: seq<string>, data: string, at: nat, offset: nat,
      more: seq<string>, next: nat, newOffset: nat)
    requires at < |data| && LineEnd(data, at) - at < MAX_BUFFER
    requires Continues(scan, lines, ScanFrom(data, at, offset))
    requires more == lines + [LineAt(data, at, LineEnd(data, at))]
    requires next == if LineEnd(data, at) < |data| then LineEnd(data, at) + 1 else LineEnd(data, at)
    requires newOffset == offset + |LineAt(data, at, LineEnd(data, at))| + 1
    ensures next <= |data| && Continues(scan, more, ScanFrom(data, next, newOffset))
  {
  }

  lemma ContinuesToEnd(scan: Scan, lines: seq<string>, data: string, at: nat, offset: nat)
    requires at <= |data| && (at < |data| ==> LineEnd(data, at) - at >= MAX_BUFFER)
    requires Continues(scan, lines, ScanFrom(data, at, offset))
    ensures scan == Scan(lines, offset, at < |data|)
  {
    assert lines + [] == lines;
  }

  /** The state after a line of the event file. */
  function AfterLine(s: State, decode: Decoder, line: string, project: int): State {
    match RunOf(decode, line)
    case None => s
    case Some(run) => Terminal(s, project, run)
  }

  lemma OneMoreLine(decode: Decoder, s: State, project: int, lines: seq<string>, more: seq<string>)
    requires |more| == |lines| + 1 && more == lines + [more[|lines|]]
    ensures TerminalAll(s, project, Runs(decode, more))
         == AfterLine(TerminalAll(s, project, Runs(decode, lines)), decode, more[|lines|], project)
  {
    var line := more[|lines|];
    assert more[..|lines|] == lines;
    if RunOf(decode, line).Some? {
      var runs, run := Runs(decode, lines), RunOf(decode, line).value;
      assert (runs + [run])[..|runs|] == runs;
    }
  }
}
