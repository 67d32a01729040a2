/** A project with its event file: which references to a run survive, however
    steps, lines, watching and polls interleave. */
module ProjectWatch {
  import opened Wrappers
  import opened Graphs
  import opened Supervisors
  import opened AgentLifecycle
  import EventTail

  /** A step of the supervisor, lines appended to the project's event file, a call
      that begins to watch it, or a tick of the tailer. */
  datatype Event = Handled(step: Step) | Logged(lines: seq<string>) | Watching | Polled

  /** Before watching begins there is a file but no tailer. */
  datatype World = World(state: State, tail: EventTail.Tail, watching: bool)

  function NextWorld(decode: EventTail.Decoder, project: int, w: World, event: Event): World {
    match event
    case Handled(step) => w.(state := Next(w.state, step))
    case Logged(lines) => w.(tail := EventTail.Next(decode, w.tail, EventTail.Append(lines)))
    case Watching => if w.watching then w else w.(tail := EventTail.Watch(w.tail.file), watching := true)
    case Polled =>
      if !w.watching then w
      else
        var runs := EventTail.Runs(decode, EventTail.Poll(w.tail.file, w.tail.offset).lines);
        w.(state := TerminalAll(w.state, project, runs), tail := EventTail.Next(decode, w.tail, EventTail.Tick))
  }

  /** The world after events, from any state and any file. */
  function WorldAfter(decode: EventTail.Decoder, project: int, s: State, file: Option<string>,
                      events: seq<Event>): World {
    if events == [] then World(s, EventTail.Tail(file, 0, []), false)
    else
      NextWorld(decode, project, WorldAfter(decode, project, s, file, events[..|events| - 1]), events[|events| - 1])
  }

  // ---------------------------------------------------------------- the file since watching began

  /** What the file held when watching began, or holds if it has not begun. */
  function FileAtWatch(file: Option<string>, events: seq<Event>): Option<string> {
    if events == [] then file
    else
      var init, last := events[..|events| - 1], events[|events| - 1];
      var base := FileAtWatch(file, init);
      if last.Logged? && Watching !in init then Some(EventTail.Content(base) + EventTail.Text(last.lines)) else base
  }

  /** What happened to the file since watching began. */
  function SinceWatching(events: seq<Event>): seq<EventTail.Step> {
    if events == [] then []
    else
      var init, last := events[..|events| - 1], events[|events| - 1];
      var steps := SinceWatching(init);
      if Watching !in init then steps
      else match last
        case Logged(lines) => steps + [EventTail.Append(lines)]
        case Polled => steps + [EventTail.Tick]
        case _ => steps
  }

  /** The lines appended since watching began. */
  function LoggedSince(events: seq<Event>): seq<string> {
    EventTail.Appended(SinceWatching(events))
  }

  lemma {:induction false} TailOfWorld(decode: EventTail.Decoder, project: int, s: State, file: Option<string>,
                                       events: seq<Event>)
    ensures var w := WorldAfter(decode, project, s, file, events);
      && (w.watching <==> Watching in events)
      && w.tail == (if w.watching
                    then EventTail.After(decode, EventTail.Watch(FileAtWatch(file, events)), SinceWatching(events))
                    else EventTail.Tail(FileAtWatch(file, events), 0, []))
      && (!w.watching ==> SinceWatching(events) == [])
    decreases |events|
  {
    if events != [] {
      var init, last := events[..|events| - 1], events[|events| - 1];
      TailOfWorld(decode, project, s, file, init);
      SplitLast(events);
      var steps := SinceWatching(init);
      if Watching in init && (last.Logged? || last.Polled?) {
        assert SinceWatching(events)[..|steps|] == steps;
      }
    }
  }

  /** What has been dispatched was logged since watching began; after a poll it is
      all of that, once each and in order. */
  lemma DispatchedIsLogged(decode: EventTail.Decoder, project: int, s: State, file: Option<string>, events: seq<Event>)
    requires EventTail.AllClean(LoggedSince(events))
    ensures var w := WorldAfter(decode, project, s, file, events);
      && (forall r | r in w.tail.dispatched :: r in EventTail.Runs(decode, LoggedSince(events)))
      && (events != [] && events[|events| - 1].Polled? && w.watching
          ==> w.tail.dispatched == EventTail.Runs(decode, LoggedSince(events)))
  {
    TailOfWorld(decode, project, s, file, events);
    if Watching in events {
      var read := EventTail.DispatchedExactlyOnce(decode, FileAtWatch(file, events), SinceWatching(events));
      EventTail.RunsSplit(decode, LoggedSince(events), read);
      if events[|events| - 1].Polled? {
        PolledIsTick(events);
        assert LoggedSince(events)[..read] == LoggedSince(events);
      }
    }
  }

  lemma PolledIsTick(events: seq<Event>)
    requires Watching in events && events[|events| - 1].Polled?
    ensures SinceWatching(events) != [] && SinceWatching(events)[|SinceWatching(events)| - 1] == EventTail.Tick
  {
    SplitLast(events);
  }

  // ---------------------------------------------------------------- one reference

  /** Unless a step clears a reference, its agent keeps pid file and project. */
  lemma EntryAfterStep(s: State, step: Step, bot: string, run: int)
    requires bot in s.entries && !Clears(s, step, bot, run)
    ensures bot in Next(s, step).entries && Next(s, step).entries[bot].projectID == s.entries[bot].projectID
  {
  }

  /** Handling the ends of runs takes exactly these from the agents of the project. */
  lemma {:induction false} RefAfterTerminalAll(s: State, project: int, runs: seq<int>, bot: string, run: int)
    ensures TerminalAll(s, project, runs).entries.Keys == s.entries.Keys
    ensures bot in s.entries ==> TerminalAll(s, project, runs).entries[bot].projectID == s.entries[bot].projectID
    ensures HoldsRef(TerminalAll(s, project, runs), bot, run)
       <==> HoldsRef(s, bot, run) && !(s.entries[bot].projectID == project && run in runs)
    decreases |runs|
  {
    if runs != [] {
      var init, last := runs[..|runs| - 1], runs[|runs| - 1];
      RefAfterTerminalAll(s, project, init, bot, run);
      RefAfterStep(TerminalAll(s, project, init), RunEnding(project, last), bot, run);
      SplitLast(runs);
      assert run in runs <==> run in init || run == last;
    }
  }

  /** Handling the ends of runs is one step of the supervisor for each, in order. */
  function RunEnds(project: int, runs: seq<int>): seq<Step> {
    seq(|runs|, i requires 0 <= i < |runs| => RunEnding(project, runs[i]))
  }

  lemma {:induction false} TerminalAllIsSteps(s: State, project: int, runs: seq<int>)
    ensures TerminalAll(s, project, runs) == Reached(s, RunEnds(project, runs))
    decreases |runs|
  {
    if runs != [] {
      var n := |runs| - 1;
      TerminalAllIsSteps(s, project, runs[..n]);
      assert RunEnds(project, runs)[..n] == RunEnds(project, runs[..n]);
    }
  }

  /** The runs dispatched by the first i events. */
  function DispatchedBy(decode: EventTail.Decoder, project: int, s: State, file: Option<string>, events: seq<Event>,
                        i: nat): seq<int>
    requires i <= |events|
  {
    WorldAfter(decode, project, s, file, events[..i]).tail.dispatched
  }

  /** The agent is one of the project and has the reference after the first i events. */
  ghost predicate HeldAt(decode: EventTail.Decoder, project: int, s: State, file: Option<string>, events: seq<Event>,
                         i: nat, bot: string, run: int) {
    i <= |events| &&
    var was := WorldAfter(decode, project, s, file, events[..i]).state;
    HoldsRef(was, bot, run) && was.entries[bot].projectID == project
  }

  /** From the i-th event on no step clears the reference, and the run is not marked
      for the agent again once its end has been dispatched since. */
  ghost predicate Kept(decode: EventTail.Decoder, project: int, s: State, file: Option<string>, events: seq<Event>,
                       i: nat, bot: string, run: int)
    requires i <= |events|
  {
    forall j | i <= j < |events| && events[j].Handled? ::
      && !Clears(WorldAfter(decode, project, s, file, events[..j]).state, events[j].step, bot, run)
      && (events[j].step == Marking(bot, run) ==> !DispatchedSince(decode, project, s, file, events, i, j, run))
  }

  /** The end of the run is dispatched by one of the events from the i-th to the j-th. */
  ghost predicate DispatchedSince(decode: EventTail.Decoder, project: int, s: State, file: Option<string>,
                                  events: seq<Event>, i: nat, j: nat, run: int)
    requires i <= j <= |events|
  {
    Behind(DispatchedBy(decode, project, s, file, events, i), DispatchedBy(decode, project, s, file, events, j), run)
  }

  ghost predicate Behind(seen: seq<int>, now: seq<int>, run: int) {
    |seen| <= |now| && run in now[|seen|..]
  }

  /** What holds while nothing else takes the reference: the agent has it until the
      end of the run is dispatched behind what had been before. */
  ghost predicate HeldUnlessDispatched(project: int, seen: seq<int>, w: World, bot: string, run: int) {
    && bot in w.state.entries && w.state.entries[bot].projectID == project
    && seen <= w.tail.dispatched
    && (HoldsRef(w.state, bot, run) <==> !Behind(seen, w.tail.dispatched, run))
  }

  lemma HeldThroughEvent(decode: EventTail.Decoder, project: int, seen: seq<int>, w: World, event: Event,
      bot: string, run: int)
    requires HeldUnlessDispatched(project, seen, w, bot, run) && (w.watching || w.tail.dispatched == [])
    requires event.Handled? ==>
      && !Clears(w.state, event.step, bot, run)
      && (event.step == Marking(bot, run) ==> !Behind(seen, w.tail.dispatched, run))
    ensures HeldUnlessDispatched(project, seen, NextWorld(decode, project, w, event), bot, run)
  {
    match event {
      case Handled(step) =>
        RefAfterStep(w.state, step, bot, run);
        EntryAfterStep(w.state, step, bot, run);
      case Polled =>
        HeldThroughPoll(decode, project, seen, w, bot, run);
      case _ =>
    }
  }

  lemma HeldThroughPoll(decode: EventTail.Decoder, project: int, seen: seq<int>, w: World, bot: string, run: int)
    requires HeldUnlessDispatched(project, seen, w, bot, run)
    ensures HeldUnlessDispatched(project, seen, NextWorld(decode, project, w, Polled), bot, run)
  {
    var runs := EventTail.Runs(decode, EventTail.Poll(w.tail.file, w.tail.offset).lines);
    RefAfterTerminalAll(w.state, project, runs, bot, run);
    var dispatched := w.tail.dispatched;
    assert (dispatched + runs)[|seen|..] == dispatched[|seen|..] + runs;
  }

  lemma {:induction false} RefIsHeldUntilDispatched(decode: EventTail.Decoder, project: int, s: State,
      file: Option<string>, events: seq<Event>, i: nat, bot: string, run: int)
    requires HeldAt(decode, project, s, file, events, i, bot, run)
          && Kept(decode, project, s, file, events, i, bot, run)
    ensures HeldUnlessDispatched(project, DispatchedBy(decode, project, s, file, events, i),
                                 WorldAfter(decode, project, s, file, events), bot, run)
    decreases |events|
  {
    assert events[..|events|] == events;
    if i < |events| {
      var n := |events| - 1;
      var init := events[..n];
      KeptBefore(decode, project, s, file, events, i, bot, run);
      RefIsHeldUntilDispatched(decode, project, s, file, init, i, bot, run);
      TailOfWorld(decode, project, s, file, init);
      HeldThroughEvent(decode, project, DispatchedBy(decode, project, s, file, events, i),
                       WorldAfter(decode, project, s, file, init), events[n], bot, run);
    }
  }

  lemma KeptBefore(decode: EventTail.Decoder, project: int, s: State, file: Option<string>, events: seq<Event>,
      i: nat, bot: string, run: int)
    requires i < |events| && HeldAt(decode, project, s, file, events, i, bot, run)
    requires Kept(decode, project, s, file, events, i, bot, run)
    ensures var init, last := events[..|events| - 1], events[|events| - 1];
      var was, seen := WorldAfter(decode, project, s, file, init), DispatchedBy(decode, project, s, file, events, i);
      && HeldAt(decode, project, s, file, init, i, bot, run) && Kept(decode, project, s, file, init, i, bot, run)
      && seen == DispatchedBy(decode, project, s, file, init, i)
      && (last.Handled? ==>
            && !Clears(was.state, last.step, bot, run)
            && (last.step == Marking(bot, run) ==> !Behind(seen, was.tail.dispatched, run)))
  {
    var init := events[..|events| - 1];
    forall j | 0 <= j <= |init|
      ensures init[..j] == events[..j]
    {
    }
  }

  /** From any state and any file: a reference that an agent has after the first i
      events, and which nothing else clears, is gone after a poll if and only if the
      end of the run has been logged since watching began behind what had been
      dispatched by then; if its end had not been dispatched by then, if and only if
      it has been logged since watching began at all. */
  lemma RefIsReleasedIff(decode: EventTail.Decoder, project: int, s: State, file: Option<string>, events: seq<Event>,
      i: nat, bot: string, run: int)
    requires EventTail.AllClean(LoggedSince(events))
    requires HeldAt(decode, project, s, file, events, i, bot, run)
          && Kept(decode, project, s, file, events, i, bot, run)
    requires Watching in events && events[|events| - 1].Polled?
    ensures var gone := !HoldsRef(WorldAfter(decode, project, s, file, events).state, bot, run);
      var seen, all := DispatchedBy(decode, project, s, file, events, i), EventTail.Runs(decode, LoggedSince(events));
      && seen <= all
      && (gone <==> run in all[|seen|..])
      && (run !in seen ==> (gone <==> run in all))
  {
    assert events[..|events|] == events;
    RefIsHeldUntilDispatched(decode, project, s, file, events, i, bot, run);
    DispatchedIsLogged(decode, project, s, file, events);
    TailOfWorld(decode, project, s, file, events);
    var seen, all := DispatchedBy(decode, project, s, file, events, i), EventTail.Runs(decode, LoggedSince(events));
    assert all == seen + all[|seen|..];
  }

  /** However late a run is marked for an agent, the reference waits for an end of the
      run that is dispatched after the mark. */
  lemma MarkStaysUntilNextEnd(decode: EventTail.Decoder, project: int, s: State, file: Option<string>,
                              events: seq<Event>, i: nat, bot: string, run: int)
    requires i < |events| && events[i] == Handled(Marking(bot, run))
    requires var was := WorldAfter(decode, project, s, file, events[..i]).state;
      bot in was.entries && was.entries[bot].projectID == project
    requires Kept(decode, project, s, file, events, i + 1, bot, run)
    ensures HoldsRef(WorldAfter(decode, project, s, file, events).state, bot, run)
       <==> !DispatchedSince(decode, project, s, file, events, i + 1, |events|, run)
  {
    var was := WorldAfter(decode, project, s, file, events[..i]).state;
    assert events[..i + 1][..i] == events[..i] && events[..|events|] == events;
    RefAfterStep(was, events[i].step, bot, run);
    assert HeldAt(decode, project, s, file, events, i + 1, bot, run);
    RefIsHeldUntilDispatched(decode, project, s, file, events, i + 1, bot, run);
  }

  /** Whatever was logged before watching began is never seen: the first poll
      releases none of the references. */
  lemma FirstPollReleasesNothing(decode: EventTail.Decoder, project: int, s: State, file: Option<string>,
                                 before: seq<Event>)
    requires Watching !in before
    ensures WorldAfter(decode, project, s, file, before + [Watching] + [Polled]).state
         == WorldAfter(decode, project, s, file, before).state
  {
    var watched := before + [Watching];
    var polled := watched + [Polled];
    assert watched[..|before|] == before && polled[..|watched|] == watched;
    TailOfWorld(decode, project, s, file, before);
    assert EventTail.Runs(decode, []) == [];
  }

  /** A run is recorded on its agents before the project is watched; when its end is
      logged in between, the reference stays. */
  lemma EndBeforeWatchingIsMissed(decode: EventTail.Decoder, s: State, file: Option<string>, bot: string, run: int,
                                  line: string)
    requires bot in s.entries && EventTail.RunOf(decode, line) == Some(run)
    ensures var events := [Handled(Marking(bot, run))] + [Logged([line])] + [Watching] + [Polled];
      HoldsRef(WorldAfter(decode, s.entries[bot].projectID, s, file, events).state, bot, run)
  {
    var project := s.entries[bot].projectID;
    var marked := [Handled(Marking(bot, run))];
    var before := marked + [Logged([line])];
    assert marked[..0] == [] && before[..1] == marked;
    FirstPollReleasesNothing(decode, project, s, file, before);
    RefAfterStep(s, Marking(bot, run), bot, run);
    assert WorldAfter(decode, project, s, file, marked).state == Next(s, Marking(bot, run));
  }

  /** A run is recorded on its agents after it was created; when the tailer is running
      by then and reads the end first, the reference stays. */
  lemma EndBeforeMarkIsMissed(decode: EventTail.Decoder, project: int, s: State, file: Option<string>,
                              before: seq<Event>, bot: string, run: int)
    requires Watching in before && EventTail.AllClean(LoggedSince(before))
    requires before[|before| - 1].Polled? && run in EventTail.Runs(decode, LoggedSince(before))
    requires var was := WorldAfter(decode, project, s, file, before).state;
      bot in was.entries && was.entries[bot].projectID == project
    ensures HoldsRef(WorldAfter(decode, project, s, file, before + [Handled(Marking(bot, run))] + [Polled]).state,
          bot, run)
  {
    var marked := before + [Handled(Marking(bot, run))];
    var polled := marked + [Polled];
    var n := |marked|;
    assert polled[..n] == marked;
    LateMark(decode, project, s, file, before, bot, run);
    AnotherPoll(marked);
    assert HeldAt(decode, project, s, file, polled, n, bot, run);
    assert Kept(decode, project, s, file, polled, n, bot, run);
    RefIsReleasedIff(decode, project, s, file, polled, n, bot, run);
  }

  lemma LateMark(decode: EventTail.Decoder, project: int, s: State, file: Option<string>, before: seq<Event>,
                 bot: string, run: int)
    requires Watching in before && before[|before| - 1].Polled? && EventTail.AllClean(LoggedSince(before))
    requires bot in WorldAfter(decode, project, s, file, before).state.entries
    ensures var marked := before + [Handled(Marking(bot, run))];
      var was, w := WorldAfter(decode, project, s, file, before), WorldAfter(decode, project, s, file, marked);
      && HoldsRef(w.state, bot, run) && w.state.entries[bot].projectID == was.state.entries[bot].projectID
      && LoggedSince(marked) == LoggedSince(before)
      && w.tail.dispatched == EventTail.Runs(decode, LoggedSince(before))
  {
    var marked := before + [Handled(Marking(bot, run))];
    assert marked[..|before|] == before;
    RefAfterStep(WorldAfter(decode, project, s, file, before).state, Marking(bot, run), bot, run);
    DispatchedIsLogged(decode, project, s, file, before);
    TailOfWorld(decode, project, s, file, before);
  }

  lemma AnotherPoll(events: seq<Event>)
    ensures LoggedSince(events + [Polled]) == LoggedSince(events)
  {
    var polled := events + [Polled];
    assert polled[..|events|] == events;
    if Watching in events {
      var steps := SinceWatching(events);
      assert SinceWatching(polled) == steps + [EventTail.Tick] && SinceWatching(polled)[..|steps|] == steps;
    }
  }

  // ---------------------------------------------------------------- all references

  /** The run was marked for the agent when its end had been dispatched. */
  ghost predicate MarkedLate(decode: EventTail.Decoder, project: int, s: State, file: Option<string>,
                             events: seq<Event>, bot: string, run: int) {
    exists j | 0 <= j < |events| ::
      events[j] == Handled(Marking(bot, run)) && run in DispatchedBy(decode, project, s, file, events, j)
  }

  /** Every reference of the project to one of these runs was marked late. */
  ghost predicate OnlyLateMarksStay(decode: EventTail.Decoder, project: int, s: State, file: Option<string>,
                                    events: seq<Event>, runs: seq<int>) {
    var now := WorldAfter(decode, project, s, file, events).state;
    forall b, r {:trigger HoldsRef(now, b, r)} |
      HoldsRef(now, b, r) && now.entries[b].projectID == project && r in runs ::
      MarkedLate(decode, project, s, file, events, b, r)
  }

  lemma {:induction false} DispatchedRefIsLate(decode: EventTail.Decoder, project: int, s: State, file: Option<string>,
      events: seq<Event>, bot: string, run: int)
    requires var w := WorldAfter(decode, project, s, file, events);
      HoldsRef(w.state, bot, run) && w.state.entries[bot].projectID == project && run in w.tail.dispatched
    ensures MarkedLate(decode, project, s, file, events, bot, run)
    decreases |events|
  {
    var n := |events| - 1;
    var init, last := events[..n], events[n];
    var was := WorldAfter(decode, project, s, file, init);
    match last {
      case Handled(step) =>
        RefAfterStep(was.state, step, bot, run);
        if Marks(was.state, step, bot, run) {
          assert run in DispatchedBy(decode, project, s, file, events, n);
          return;
        }
        EntryAfterStep(was.state, step, bot, run);
      case Polled =>
        var runs := EventTail.Runs(decode, EventTail.Poll(was.tail.file, was.tail.offset).lines);
        RefAfterTerminalAll(was.state, project, runs, bot, run);
      case _ =>
    }
    DispatchedRefIsLate(decode, project, s, file, init, bot, run);
    var j :| 0 <= j < n && init[j] == Handled(Marking(bot, run))
        && run in DispatchedBy(decode, project, s, file, init, j);
    assert init[..j] == events[..j] && events[j] == init[j];
  }

  /** From any state and any file, and however events interleave: if an agent of the
      project is kept alive by a run whose end has been dispatched, the run was marked
      for it after that. After a poll the same holds of every run whose end has been
      logged since watching began. */
  lemma NoReferenceOutlivesItsRun(decode: EventTail.Decoder, project: int, s: State, file: Option<string>,
                                  events: seq<Event>)
    requires EventTail.AllClean(LoggedSince(events))
    ensures var w := WorldAfter(decode, project, s, file, events);
      && OnlyLateMarksStay(decode, project, s, file, events, w.tail.dispatched)
      && (events != [] && events[|events| - 1].Polled? && w.watching
          ==> OnlyLateMarksStay(decode, project, s, file, events, EventTail.Runs(decode, LoggedSince(events))))
  {
    var w := WorldAfter(decode, project, s, file, events);
    forall b, r | HoldsRef(w.state, b, r) && w.state.entries[b].projectID == project && r in w.tail.dispatched
      ensures MarkedLate(decode, project, s, file, events, b, r)
    {
      DispatchedRefIsLate(decode, project, s, file, events, b, r);
    }
    DispatchedIsLogged(decode, project, s, file, events);
  }
}
