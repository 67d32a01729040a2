/** The agents that one automatic run brings up: starting them, undoing that, and
    recording the run on them. No other caller uses the supervisor in the meantime. */
module AutoRunManagers {
  import opened Wrappers
  import opened Graphs
  import opened Supervisors
  import opened EventTail

  /** What the environment answers when one agent is brought up: the pid of its
      process, if it can be spawned, and whether it becomes ready in time. */
  datatype Bringup = Bringup(spawn: Option<nat>, ready: bool)

  /** A graceful stop: the agent is asked to stop and its daemon exits. */
  function StopGracefully(s: State, bot: string): State {
    Reap(Stop(s, bot), bot, None)
  }

  function StopEach(s: State, bots: seq<string>): State {
    if bots == [] then s else StopGracefully(StopEach(s, bots[..|bots| - 1]), bots[|bots| - 1])
  }

  /** Stopping agents removes their daemons and the pid files of these daemons; it
      leaves the pid file of an agent that has no daemon. */
  lemma {:induction false} StopEachRemoves(s: State, bots: seq<string>)
    ensures StopEach(s, bots).procs == s.procs - Elems(bots)
    ensures StopEach(s, bots).entries == s.entries - Elems(bots) * s.procs.Keys
    decreases |bots|
  {
    if bots == [] {
      EmptyElems(bots);
    } else {
      var init, last := bots[..|bots| - 1], bots[|bots| - 1];
      StopEachRemoves(s, init);
      SplitLast(bots);
      AppendFacts(init, last);
      StopRemoves(s, StopEach(s, init), Elems(init), last);
    }
  }

  lemma StopRemoves(s: State, now: State, stopped: set<string>, bot: string)
    requires now.procs == s.procs - stopped && now.entries == s.entries - stopped * s.procs.Keys
    ensures StopGracefully(now, bot).procs == s.procs - (stopped + {bot})
    ensures StopGracefully(now, bot).entries == s.entries - (stopped + {bot}) * s.procs.Keys
  {
  }

  /** The i-th agent can be started, or is running already. */
  ghost predicate Starts(s: State, configured: bool, bots: seq<string>, bringups: seq<Bringup>, i: nat)
    requires i < |bots| == |bringups|
  {
    bots[i] != "" && configured && (bots[i] in s.procs || bots[i] in bots[..i] || bringups[i].spawn.Some?)
  }

  /** Each of the first agents starts, or is running already, and becomes ready. */
  ghost predicate Come(s: State, configured: bool, bots: seq<string>, bringups: seq<Bringup>, n: nat)
    requires n <= |bots| == |bringups|
  {
    forall i | 0 <= i < n :: Starts(s, configured, bots, bringups, i) && bringups[i].ready
  }

  /** The agents that are started afresh: not running before, and not behind one
      that fails. */
  ghost function FreshlyStarted(s: State, configured: bool, bots: seq<string>, bringups: seq<Bringup>): set<string>
    requires |bots| == |bringups|
  {
    set i | 0 <= i < |bots| && Come(s, configured, bots, bringups, i) && Starts(s, configured, bots, bringups, i)
            && bots[i] !in s.procs :: bots[i]
  }

  /** The state is another one with some daemons more, whose pid files may replace
      some that survived from an earlier session. */
  ghost predicate OnlyAdds(before: State, now: State, added: set<string>) {
    && added !! before.procs.Keys
    && now.procs.Keys == before.procs.Keys + added && now.entries.Keys == before.entries.Keys + added
    && (forall b | b in before.procs :: now.procs[b] == before.procs[b])
    && (forall b | b in before.entries && b !in added :: now.entries[b] == before.entries[b])
    && now.exits == before.exits
  }

  /** These agents were started by an automatic run of the project, and no run is
      marked for them yet. */
  ghost predicate ForRun(s: State, bots: set<string>, projectID: int) {
    forall b | b in bots ::
      && b in s.entries && s.entries[b].startedBy == "auto_run"
      && s.entries[b].projectID == projectID && s.entries[b].refs == []
  }

  /** After the first n agents came: these daemons are tracked, and those of them
      that were not before have been added. */
  ghost predicate BroughtUp(before: State, now: State, configured: bool, bots: seq<string>, bringups: seq<Bringup>,
                            n: nat, added: set<string>)
    requires n <= |bots| == |bringups|
  {
    && Come(before, configured, bots, bringups, n)
    && OnlyAdds(before, now, added) && added == Elems(bots[..n]) - before.procs.Keys
  }

  lemma StartAdds(before: State, now: State, p: StartParams, spawn: Option<nat>, added: set<string>)
    requires OnlyAdds(before, now, added) && ForRun(now, added, p.projectID) && p.startedBy == AUTO_RUN
    ensures
      var more := if StartOutcome(now, p, spawn).StartedFresh? then added + {p.bot} else added;
      OnlyAdds(before, Start(now, p, spawn), more) && ForRun(Start(now, p, spawn), more, p.projectID)
  {
  }

  lemma StartOneMore(before: State, now: State, p: StartParams, bots: seq<string>, bringups: seq<Bringup>, n: nat,
                     added: set<string>)
    requires n < |bots| == |bringups| && p.bot == bots[n]
    requires var configured := p.workflow != "" && p.coordinator != "";
      BroughtUp(before, now, configured, bots, bringups, n, added)
    ensures
      var configured := p.workflow != "" && p.coordinator != "";
      var outcome := StartOutcome(now, p, bringups[n].spawn);
      var more := if outcome.StartedFresh? then added + {p.bot} else added;
      && (Starts(before, configured, bots, bringups, n) <==> !outcome.StartFailed?)
      && more == (if outcome.StartFailed? then Elems(bots[..n]) else Elems(bots[..n + 1])) - before.procs.Keys
      && (!outcome.StartFailed? && bringups[n].ready ==> Come(before, configured, bots, bringups, n + 1))
  {
    NextPrefix(bots, n);
    AppendFacts(bots[..n], bots[n]);
  }

  /** What has been started once an agent fails, or none does. */
  lemma FreshlyStartedIs(s: State, configured: bool, bots: seq<string>, bringups: seq<Bringup>, n: nat)
    requires n <= |bots| == |bringups| && Come(s, configured, bots, bringups, n)
    requires n < |bots| ==> !(Starts(s, configured, bots, bringups, n) && bringups[n].ready)
    ensures FreshlyStarted(s, configured, bots, bringups)
         == (if n < |bots| && Starts(s, configured, bots, bringups, n)
             then Elems(bots[..n + 1]) else Elems(bots[..n])) - s.procs.Keys
  {
    if n < |bots| {
      NextPrefix(bots, n);
      AppendFacts(bots[..n], bots[n]);
    }
    forall i | 0 <= i < n
      ensures bots[i] in Elems(bots[..n])
    {
      assert bots[..n][i] in bots[..n];
    }
  }

  /** One more agent: it comes, or it fails and everything started so far is what
      is started at all. */
  lemma BringUpOne(before: State, now: State, p: StartParams, bots: seq<string>, bringups: seq<Bringup>, n: nat,
                   added: set<string>)
    requires n < |bots| == |bringups| && p.bot == bots[n] && p.startedBy == AUTO_RUN
    requires var configured := p.workflow != "" && p.coordinator != "";
      BroughtUp(before, now, configured, bots, bringups, n, added)
    requires ForRun(now, added, p.projectID)
    ensures
      var configured := p.workflow != "" && p.coordinator != "";
      var outcome := StartOutcome(now, p, bringups[n].spawn);
      var next := Start(now, p, bringups[n].spawn);
      var more := if outcome.StartedFresh? then added + {p.bot} else added;
      && OnlyAdds(before, next, more) && ForRun(next, more, p.projectID)
      && (Starts(before, configured, bots, bringups, n) <==> !outcome.StartFailed?)
      && (if outcome.StartFailed? || !bringups[n].ready
          then more == FreshlyStarted(before, configured, bots, bringups)
          else BroughtUp(before, next, configured, bots, bringups, n + 1, more))
  {
    var configured := p.workflow != "" && p.coordinator != "";
    StartAdds(before, now, p, bringups[n].spawn, added);
    StartOneMore(before, now, p, bots, bringups, n, added);
    if StartOutcome(now, p, bringups[n].spawn).StartFailed? || !bringups[n].ready {
      FreshlyStartedIs(before, configured, bots, bringups, n);
    }
  }

  /** A list of remembered daemons has grown by these. */
  ghost predicate Remembers(was: seq<string>, now: seq<string>, added: set<string>) {
    was <= now && Elems(now[|was|..]) == added
  }

  lemma RememberOneMore(was: seq<string>, now: seq<string>, added: set<string>, bot: string)
    requires Remembers(was, now, added)
    ensures Remembers(was, now + [bot], added + {bot})
  {
    assert (now + [bot])[|was|..] == now[|was|..] + [bot];
    AppendFacts(now[|was|..], bot);
  }

  /** The names noted are those of the agents in front of the first that does not
      start or does not become ready. */
  ghost predicate NotesThatCame(s: State, configured: bool, bots: seq<string>, bringups: seq<Bringup>,
                                was: seq<string>, now: seq<string>)
    requires |bots| == |bringups|
  {
    var n := |now| - |was|;
    && 0 <= n <= |bots| && now == was + bots[..n] && Come(s, configured, bots, bringups, n)
    && (n < |bots| ==> !(Starts(s, configured, bots, bringups, n) && bringups[n].ready))
  }

  lemma NotesFirst(s: State, configured: bool, bots: seq<string>, bringups: seq<Bringup>, was: seq<string>, n: nat)
    requires n <= |bots| == |bringups| && Come(s, configured, bots, bringups, n)
    ensures (n < |bots| ==> !(Starts(s, configured, bots, bringups, n) && bringups[n].ready))
        ==> NotesThatCame(s, configured, bots, bringups, was, was + bots[..n])
  {
  }

  lemma NothingStarted(s: State, configured: bool, bots: seq<string>, bringups: seq<Bringup>)
    requires |bots| == |bringups|
    ensures BroughtUp(s, s, configured, bots, bringups, 0, {})
    ensures bots == [] ==> FreshlyStarted(s, configured, bots, bringups) == {}
  {
    EmptyElems(bots[..0]);
  }

  /** Stopping what was remembered before and what has been added since. */
  lemma RestoredBut(before: State, now: State, was: set<string>, added: set<string>)
    requires OnlyAdds(before, now, added)
    ensures now.procs - (was + added) == before.procs - was
    ensures now.entries - (was + added) * now.procs.Keys == before.entries - was * before.procs.Keys - added
  {
  }

  /** Every mark of a run on agents in turn. */
  function MarkEach(s: State, bots: seq<string>, run: int): State {
    if bots == [] then s else Mark(MarkEach(s, bots[..|bots| - 1], run), bots[|bots| - 1], run)
  }

  /** The agents without a pid file, in order. */
  function Unhooked(s: State, bots: seq<string>): seq<string> {
    if bots == [] then []
    else
      var rest := Unhooked(s, bots[..|bots| - 1]);
      if bots[|bots| - 1] in s.entries then rest else rest + [bots[|bots| - 1]]
  }

  /** Exactly the places of the agents without a pid file, in order. */
  ghost predicate AreMissed(s: State, bots: seq<string>, at: seq<nat>) {
    && (forall k, l | 0 <= k < l < |at| :: at[k] < at[l])
    && forall i: nat :: i in at <==> i < |bots| && bots[i] !in s.entries
  }

  ghost predicate AreNamesAt(bots: seq<string>, at: seq<nat>, names: seq<string>) {
    |at| == |names| && forall k | 0 <= k < |at| :: at[k] < |bots| && names[k] == bots[at[k]]
  }

  lemma {:induction false} UnhookedAreMissed(s: State, bots: seq<string>) returns (at: seq<nat>)
    ensures AreMissed(s, bots, at) && AreNamesAt(bots, at, Unhooked(s, bots))
    decreases |bots|
  {
    at := [];
    if bots != [] {
      var n := |bots| - 1;
      at := UnhookedAreMissed(s, bots[..n]);
      MissedGrow(s, bots, at);
      NamesAtGrow(bots, at, Unhooked(s, bots[..n]));
      if bots[n] !in s.entries {
        at := at + [n];
      }
    }
  }

  lemma NamesAtGrow(bots: seq<string>, at: seq<nat>, names: seq<string>)
    requires bots != [] && AreNamesAt(bots[..|bots| - 1], at, names)
    ensures AreNamesAt(bots, at, names) && AreNamesAt(bots, at + [|bots| - 1], names + [bots[|bots| - 1]])
  {
  }

  lemma MissedGrow(s: State, bots: seq<string>, at: seq<nat>)
    requires bots != [] && AreMissed(s, bots[..|bots| - 1], at)
    ensures AreMissed(s, bots, if bots[|bots| - 1] !in s.entries then at + [|bots| - 1] else at)
  {
    var n := |bots| - 1;
    var more := if bots[n] !in s.entries then at + [n] else at;
    forall i: nat
      ensures i in more <==> i < |bots| && bots[i] !in s.entries
    {
      assert i in at <==> i < n && bots[..n][i] !in s.entries;
      assert i in more <==> i in at || (i == n && bots[n] !in s.entries);
    }
    forall k, l | 0 <= k < l < |more|
      ensures more[k] < more[l]
    {
      assert at[k] in at;
    }
  }

  /** Marking changes the references of the agents with a pid file only, and
      leaves the run listed on each of them. */
  lemma {:induction false} MarkEachFacts(s: State, bots: seq<string>, run: int, bot: string)
    ensures MarkEach(s, bots, run).procs == s.procs && MarkEach(s, bots, run).entries.Keys == s.entries.Keys
    ensures bot in s.entries ==>
      && MarkEach(s, bots, run).entries[bot] == s.entries[bot].(refs := MarkEach(s, bots, run).entries[bot].refs)
      && forall r :: r in MarkEach(s, bots, run).entries[bot].refs
           <==> r in s.entries[bot].refs || (r == run && bot in bots)
    decreases |bots|
  {
    if bots != [] {
      var init, last := bots[..|bots| - 1], bots[|bots| - 1];
      MarkEachFacts(s, init, run, bot);
      SplitLast(bots);
    }
  }

  /** The run is listed for these agents as far as they have a pid file, and nothing
      else has changed. */
  ghost predicate IsRecordedFor(was: State, now: State, bots: seq<string>, run: int) {
    && now.procs == was.procs && now.entries.Keys == was.entries.Keys && now.exits == was.exits
    && forall b | b in was.entries :: ListsRun(was.entries[b], now.entries[b], run, b in bots)
  }

  ghost predicate ListsRun(was: Entry, now: Entry, run: int, also: bool) {
    && now == was.(refs := now.refs)
    && forall r :: r in now.refs <==> r in was.refs || (r == run && also)
  }

  ghost predicate AreUnhooked(s: State, bots: seq<string>, names: seq<string>) {
    exists at :: AreMissed(s, bots, at) && AreNamesAt(bots, at, names)
  }

  lemma {:induction false} MarkEachKeepsExits(s: State, bots: seq<string>, run: int)
    ensures MarkEach(s, bots, run).exits == s.exits
    decreases |bots|
  {
    if bots != [] {
      MarkEachKeepsExits(s, bots[..|bots| - 1], run);
    }
  }

  lemma HookMeans(s: State, bots: seq<string>, run: int)
    ensures IsRecordedFor(s, MarkEach(s, bots, run), bots, run) && AreUnhooked(s, bots, Unhooked(s, bots))
  {
    MarkEachKeepsExits(s, bots, run);
    MarkEachFacts(s, bots, run, "");
    forall b | b in s.entries
      ensures ListsRun(s.entries[b], MarkEach(s, bots, run).entries[b], run, b in bots)
    {
      MarkEachFacts(s, bots, run, b);
    }
    var at := UnhookedAreMissed(s, bots);
  }

  class AutoRunManager {
    const sup: Supervisor
    const workflow: string
    const coordinator: string
    const projectID: int
    var freshStarts: seq<string>
    var autoBotNames: seq<string>

    constructor (sup: Supervisor, workflow: string, coordinator: string, projectID: int)
      ensures this.sup == sup && this.workflow == workflow && this.coordinator == coordinator
      ensures this.projectID == projectID && freshStarts == [] && autoBotNames == []
    {
      this.sup, this.workflow, this.coordinator, this.projectID := sup, workflow, coordinator, projectID;
      freshStarts, autoBotNames := [], [];
    }

    /** Workflow and coordinator are given, as every start demands. */
    ghost predicate Configured() {
      workflow != "" && coordinator != ""
    }

    /** Brings up every agent of a manifest; false at the first that does not start
        or does not become ready. The daemons that this call started, and no
        others, are added to the remembered ones. */
    method Preflight(bots: seq<string>, bringups: seq<Bringup>) returns (ok: bool)
      requires |bringups| == |bots|
      modifies this, sup
      ensures sup.tailing == old(sup.tailing)
      ensures ok <==> bots != [] && Come(old(sup.Now()), Configured(), bots, bringups, |bots|)
      ensures var started := FreshlyStarted(old(sup.Now()), Configured(), bots, bringups);
        && OnlyAdds(old(sup.Now()), sup.Now(), started) && ForRun(sup.Now(), started, projectID)
        && old(freshStarts) <= freshStarts && Elems(freshStarts[|old(freshStarts)|..]) == started
      ensures NotesThatCame(old(sup.Now()), Configured(), bots, bringups, old(autoBotNames), autoBotNames)
    {
      ghost var before, was := sup.Now(), freshStarts;
      ghost var added: set<string> := {};
      NothingStarted(before, Configured(), bots, bringups);
      if |bots| == 0 {
        return false;
      }
      for i := 0 to |bots|
        invariant sup.tailing == old(sup.tailing)
        invariant BroughtUp(before, sup.Now(), Configured(), bots, bringups, i, added)
              && ForRun(sup.Now(), added, projectID)
        invariant Remembers(was, freshStarts, added)
        invariant autoBotNames == old(autoBotNames) + bots[..i]
      {
        var params := StartParams(bots[i], workflow, coordinator, projectID, AUTO_RUN);
        BringUpOne(before, sup.Now(), params, bots, bringups, i, added);
        var result := sup.StartAgent(params, bringups[i].spawn);
        NotesFirst(before, Configured(), bots, bringups, old(autoBotNames), i);
        if result.StartFailed? {
          return false;
        }
        if result.StartedFresh? {
          RememberOneMore(was, freshStarts, added, bots[i]);
          freshStarts := freshStarts + [bots[i]];
          added := added + {bots[i]};
        }
        if !bringups[i].ready {
          return false;
        }
        NextPrefix(bots, i);
        AppendAssociates(old(autoBotNames), bots[..i], bots[i]);
        autoBotNames := autoBotNames + [bots[i]];
      }
      FreshlyStartedIs(before, Configured(), bots, bringups, |bots|);
      NotesFirst(before, Configured(), bots, bringups, old(autoBotNames), |bots|);
      ok := true;
    }

    /** Stops the remembered daemons and forgets them; pid files of agents that have
        no daemon stay. */
    method Rollback()
      modifies this, sup
      ensures sup.Now() == StopEach(old(sup.Now()), old(freshStarts)) && sup.tailing == old(sup.tailing)
      ensures sup.procs == old(sup.procs) - Elems(old(freshStarts))
      ensures sup.entries == old(sup.entries) - Elems(old(freshStarts)) * old(sup.procs.Keys)
      ensures freshStarts == [] && autoBotNames == old(autoBotNames)
    {
      for i := 0 to |freshStarts|
        invariant freshStarts == old(freshStarts) && autoBotNames == old(autoBotNames)
        invariant sup.Now() == StopEach(old(sup.Now()), freshStarts[..i]) && sup.tailing == old(sup.tailing)
      {
        NextPrefix(freshStarts, i);
        var ok := sup.StopAgent(freshStarts[i]);
        if ok {
          sup.ReapOnExit(freshStarts[i], None);
        }
      }
      assert freshStarts[..|freshStarts|] == freshStarts;
      StopEachRemoves(old(sup.Now()), freshStarts);
      freshStarts := [];
    }

    /** Whether Preflight succeeds or fails part-way, Rollback leaves exactly the
        daemons from before, those remembered from an earlier call excepted, and a
        second one changes nothing. The pid files from before are all there if and
        only if no agent was started whose pid file had survived from an earlier
        session. */
    method PreflightThenRollback(bots: seq<string>, bringups: seq<Bringup>)
      requires |bringups| == |bots|
      modifies this, sup
      ensures sup.procs == old(sup.procs) - Elems(old(freshStarts))
      ensures var started := FreshlyStarted(old(sup.Now()), Configured(), bots, bringups);
        && sup.entries == old(sup.entries) - Elems(old(freshStarts)) * old(sup.procs.Keys) - started
        && (old(freshStarts) == [] ==>
              sup.procs == old(sup.procs) && (sup.entries == old(sup.entries) <==> started !! old(sup.entries.Keys)))
    {
      ghost var before, was := sup.Now(), freshStarts;
      var _ := Preflight(bots, bringups);
      ghost var now, all := sup.Now(), freshStarts;
      assert all == was + all[|was|..];
      ConcatFacts(was, all[|was|..]);
      Rollback();
      RestoredBut(before, now, Elems(was), FreshlyStarted(before, Configured(), bots, bringups));
      EmptyElems(was);
      ghost var once := sup.Now();
      Rollback();
      assert sup.Now() == once;
    }

    /** Records the run on every agent that was brought up and watches the
        project's events; the agents whose pid file is gone are reported. */
    method HookRunSeq(run: int, dir: string, file: Option<string>) returns (unhooked: seq<string>)
      modifies sup
      ensures unhooked == Unhooked(old(sup.Now()), autoBotNames)
      ensures sup.Now() == MarkEach(old(sup.Now()), autoBotNames, run)
      ensures IsRecordedFor(old(sup.Now()), sup.Now(), autoBotNames, run)
      ensures AreUnhooked(old(sup.Now()), autoBotNames, unhooked)
      ensures sup.tailing == if autoBotNames == [] || dir == "" || dir in old(sup.tailing) then old(sup.tailing)
                             else old(sup.tailing)[dir := Tailer(if file.Some? then |file.value| else 0, projectID)]
    {
      ghost var was := sup.Now();
      HookMeans(was, autoBotNames, run);
      unhooked := [];
      if |autoBotNames| == 0 {
        return;
      }
      for i := 0 to |autoBotNames|
        invariant sup.Now() == MarkEach(was, autoBotNames[..i], run)
        invariant unhooked == Unhooked(was, autoBotNames[..i]) && sup.tailing == old(sup.tailing)
      {
        NextPrefix(autoBotNames, i);
        MarkEachFacts(was, autoBotNames[..i], run, "");
        var ok := sup.MarkAutoRun(autoBotNames[i], run);
        if !ok {
          unhooked := unhooked + [autoBotNames[i]];
        }
      }
      assert autoBotNames[..|autoBotNames|] == autoBotNames;
      sup.WatchProjectEvents(dir, projectID, file);
    }
  }
}
