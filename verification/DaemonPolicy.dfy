/** What the daemon's counters guarantee over whole runs: bounds, no starvation, and
    how much work a failing task can waste. */
module DaemonPolicy {
  import opened Wrappers
  import opened Graphs
  import opened Daemons

  // ---------------------------------------------------------------- bounds

  ghost predicate StreaksWithin(m: map<string, nat>) {
    |m| <= MAX_ENTRIES && forall key | key in m :: 1 <= m[key] <= MAX_FAIL_STREAK
  }

  /** Both counter maps are bounded, no streak exceeds the maximum, and a reason is
      kept only for a task with a streak. */
  ghost predicate Bounded(c: Counters) {
    StreaksWithin(c.claimFails) && StreaksWithin(c.fails) && c.reasons.Keys <= c.fails.Keys
  }

  lemma BumpKeepsBounds(m: map<string, nat>, key: string)
    requires StreaksWithin(m) && Get(m, key) < MAX_FAIL_STREAK
    ensures StreaksWithin(Bump(m, key))
  {
    var room := if |m| >= MAX_ENTRIES then map[] else m;
    assert Bump(m, key).Keys == room.Keys + {key};
  }

  lemma RemoveKeepsBounds(m: map<string, nat>, key: string)
    requires StreaksWithin(m)
    ensures StreaksWithin(m - {key})
  {
    assert (m - {key}).Keys <= m.Keys;
    SmallerOrEqual((m - {key}).Keys, m.Keys);
  }

  lemma SmallerOrEqual<T>(a: set<T>, b: set<T>)
    requires a <= b
    ensures |a| <= |b|
  {
    if a != b {
      SmallerSet(a, b);
    }
  }

  lemma IterationKeepsBounds(c: Counters, username: string, r: Replies)
    requires Bounded(c)
    ensures Bounded(Iterate(c, username, r).counters)
  {
    if r.projects.Some? {
      var candidates := OfProjects(r.projects.value, username);
      var task := Pick(c.claimFails, candidates).0;
      if task != "" {
        PickedIsOpen(c.claimFails, candidates);
        match r.claim
        case Refused(_) => BumpKeepsBounds(c.claimFails, task);
        case Claimed =>
          RemoveKeepsBounds(c.claimFails, task);
          WorkKeepsBounds(c.(active := task, claimFails := c.claimFails - {task}), task, r);
        case _ =>
      }
    }
  }

  lemma ClearKeepsBounds(c: Counters, task: string)
    requires Bounded(c)
    ensures Bounded(ClearTask(c, task))
  {
    RemoveKeepsBounds(c.fails, task);
  }

  lemma BumpFailsKeepsBounds(c: Counters, task: string)
    requires Bounded(c) && Get(c.fails, task) < MAX_FAIL_STREAK
    ensures Bounded(BumpFails(c, task)) && task in BumpFails(c, task).fails
  {
    BumpKeepsBounds(c.fails, task);
  }

  lemma WorkKeepsBounds(c: Counters, task: string, r: Replies)
    requires Bounded(c)
    ensures Bounded(AfterClaim(c, task, r).counters)
  {
    ClearKeepsBounds(c, task);
    if Get(c.fails, task) < MAX_FAIL_STREAK {
      BumpFailsKeepsBounds(c, task);
      if r.work.WorkFailed? {
        FailureKeepsBounds(c, task, r);
      }
    }
  }

  lemma FailureKeepsBounds(c: Counters, task: string, r: Replies)
    requires Bounded(c) && Get(c.fails, task) < MAX_FAIL_STREAK && r.work.WorkFailed?
    ensures Bounded(AfterClaim(c, task, r).counters)
  {
    BumpFailsKeepsBounds(c, task);
    var bumped := BumpFails(c, task);
    var noted := bumped.(reasons := bumped.reasons[task := r.work.message]);
    assert Bounded(noted);
    ClearKeepsBounds(noted, task);
  }

  /** A task that is picked has not been refused too often. */
  lemma PickedIsOpen(claimFails: map<string, nat>, candidates: seq<(string, int)>)
    requires Pick(claimFails, candidates).0 != ""
    ensures Get(claimFails, Pick(claimFails, candidates).0) < MAX_FAIL_STREAK
    ensures Pick(claimFails, candidates) in candidates
  {
    if AllSkipped(claimFails, candidates) {
      NothingToPick(claimFails, candidates);
    } else {
      PickInFront(claimFails, candidates, []);
    }
  }

  /** Whatever the coordinator replies, the counters stay bounded. */
  lemma {:induction false} CountersAreBounded(username: string, rs: seq<Replies>)
    ensures Bounded(After(FRESH, username, rs))
    decreases |rs|
  {
    if rs != [] {
      CountersAreBounded(username, rs[..|rs| - 1]);
      IterationKeepsBounds(After(FRESH, username, rs[..|rs| - 1]), username, rs[|rs| - 1]);
    }
  }

  // ---------------------------------------------------------------- no starvation

  /** The ready tasks are, in this order, some that refuse to be claimed, one that
      can be claimed, and others. */
  ghost predicate Listed(r: Replies, username: string, wedged: seq<string>, good: string) {
    r.projects.Some? &&
    var candidates := OfProjects(r.projects.value, username);
    && |candidates| > |wedged| && candidates[|wedged|].0 == good
    && forall i | 0 <= i < |wedged| :: candidates[i].0 == wedged[i]
  }

  /** Every iteration finds such a list and tries a task that refuses. */
  ghost predicate Refusing(username: string, rs: seq<Replies>, wedged: seq<string>, good: string) {
    forall i | 0 <= i < |rs| :: Listed(rs[i], username, wedged, good) && rs[i].claim.Refused?
  }

  ghost predicate Distinct(wedged: seq<string>, good: string) {
    NoDup(wedged) && "" !in wedged && good != "" && good !in wedged
  }

  function Picked(c: Counters, username: string, r: Replies): string
    requires r.projects.Some?
  {
    Pick(c.claimFails, OfProjects(r.projects.value, username)).0
  }

  /** How often the i-th of the refusing tasks has been tried after n iterations. */
  function Tries(n: nat, i: nat): nat {
    if i < n / MAX_FAIL_STREAK then MAX_FAIL_STREAK
    else if i == n / MAX_FAIL_STREAK then n % MAX_FAIL_STREAK
    else 0
  }

  ghost predicate Progressed(claimFails: map<string, nat>, wedged: seq<string>, n: nat) {
    && StreaksWithin(claimFails) && claimFails.Keys <= Elems(wedged)
    && forall i | 0 <= i < |wedged| :: Get(claimFails, wedged[i]) == Tries(n, i)
  }

  /** The task at a place of the list, if those before it are skipped and it is not. */
  lemma PickAt(claimFails: map<string, nat>, candidates: seq<(string, int)>, j: nat)
    requires j < |candidates| && Get(claimFails, candidates[j].0) < MAX_FAIL_STREAK
    requires forall i | 0 <= i < j :: Get(claimFails, candidates[i].0) >= MAX_FAIL_STREAK
    ensures Pick(claimFails, candidates) == candidates[j]
  {
    PickAfterSkipped(claimFails, candidates[..j], candidates[j..]);
    assert candidates == candidates[..j] + candidates[j..];
  }

  lemma PickProgressed(c: Counters, username: string, r: Replies, wedged: seq<string>, good: string, n: nat)
    requires Distinct(wedged, good) && Listed(r, username, wedged, good)
    requires Progressed(c.claimFails, wedged, n) && n <= MAX_FAIL_STREAK * |wedged|
    ensures Picked(c, username, r) == if n / MAX_FAIL_STREAK < |wedged| then wedged[n / MAX_FAIL_STREAK] else good
  {
    PickAt(c.claimFails, OfProjects(r.projects.value, username), n / MAX_FAIL_STREAK);
  }

  lemma OneMoreTry(claimFails: map<string, nat>, wedged: seq<string>, n: nat)
    requires NoDup(wedged) && |wedged| < MAX_ENTRIES && n < MAX_FAIL_STREAK * |wedged|
    requires Progressed(claimFails, wedged, n)
    ensures Progressed(Bump(claimFails, wedged[n / MAX_FAIL_STREAK]), wedged, n + 1)
  {
    var task := wedged[n / MAX_FAIL_STREAK];
    NoDupSize(wedged);
    SmallerOrEqual(claimFails.Keys, Elems(wedged));
    assert |claimFails| == |claimFails.Keys|;
    BumpKeepsBounds(claimFails, task);
    forall i | 0 <= i < |wedged|
      ensures Get(Bump(claimFails, task), wedged[i]) == Tries(n + 1, i)
    {
      assert i != n / MAX_FAIL_STREAK ==> wedged[i] != task;
    }
  }

  /** Refusing tasks, fewer than the map has room for, are tried one after the
      other, each exactly as often as the streak allows. */
  lemma {:induction false} RefusingTasksAreTriedInTurn(username: string, rs: seq<Replies>, wedged: seq<string>,
      good: string)
    requires Distinct(wedged, good) && Refusing(username, rs, wedged, good)
    requires |wedged| < MAX_ENTRIES && |rs| <= MAX_FAIL_STREAK * |wedged|
    ensures Progressed(After(FRESH, username, rs).claimFails, wedged, |rs|)
    decreases |rs|
  {
    if rs != [] {
      var n := |rs| - 1;
      var init := rs[..n];
      RefusingTasksAreTriedInTurn(username, init, wedged, good);
      var c := After(FRESH, username, init);
      PickProgressed(c, username, rs[n], wedged, good, n);
      OneMoreTry(c.claimFails, wedged, n);
    }
  }

  /** A full map has a task that may still be tried. */
  ghost predicate Stuck(claimFails: map<string, nat>) {
    && StreaksWithin(claimFails)
    && (|claimFails| == MAX_ENTRIES ==> exists key | key in claimFails :: claimFails[key] < MAX_FAIL_STREAK)
  }

  lemma BumpKeepsStuck(claimFails: map<string, nat>, key: string)
    requires Stuck(claimFails) && Get(claimFails, key) < MAX_FAIL_STREAK
    ensures Stuck(Bump(claimFails, key))
  {
    BumpKeepsBounds(claimFails, key);
    var bumped := Bump(claimFails, key);
    if |claimFails| < MAX_ENTRIES && |bumped| == MAX_ENTRIES {
      assert key in claimFails ==> bumped.Keys == claimFails.Keys;
      assert |bumped| == |bumped.Keys| && |claimFails| == |claimFails.Keys|;
      assert bumped[key] == 1;
    }
  }

  lemma StuckPicksRefusing(c: Counters, username: string, r: Replies, wedged: seq<string>, good: string)
    requires Distinct(wedged, good) && Listed(r, username, wedged, good)
    requires Stuck(c.claimFails) && |wedged| >= MAX_ENTRIES
    ensures Picked(c, username, r) in wedged && Get(c.claimFails, Picked(c, username, r)) < MAX_FAIL_STREAK
  {
    var candidates := OfProjects(r.projects.value, username);
    var front := candidates[..|wedged|];
    if AllSkipped(c.claimFails, front) {
      forall id | id in Elems(wedged)
        ensures id in c.claimFails && c.claimFails[id] == MAX_FAIL_STREAK
      {
        var i :| 0 <= i < |wedged| && wedged[i] == id;
        assert front[i] in front;
      }
      NoDupSize(wedged);
      SmallerOrEqual(Elems(wedged), c.claimFails.Keys);
      assert |c.claimFails| == |c.claimFails.Keys|;
      SubsetOfSameSize(Elems(wedged), c.claimFails.Keys);
    }
    PickInFront(c.claimFails, front, candidates[|wedged|..]);
    assert candidates == front + candidates[|wedged|..];
  }

  /** As many refusing tasks as the map has room for, or more, are tried for ever. */
  lemma {:induction false} TooManyRefusingTasksStarve(username: string, rs: seq<Replies>, wedged: seq<string>,
      good: string)
    requires Distinct(wedged, good) && Refusing(username, rs, wedged, good) && |wedged| >= MAX_ENTRIES
    ensures Stuck(After(FRESH, username, rs).claimFails)
    decreases |rs|
  {
    if rs != [] {
      var n := |rs| - 1;
      TooManyRefusingTasksStarve(username, rs[..n], wedged, good);
      var c := After(FRESH, username, rs[..n]);
      StuckPicksRefusing(c, username, rs[n], wedged, good);
      BumpKeepsStuck(c.claimFails, Picked(c, username, rs[n]));
    }
  }

  /** A claimable task behind k tasks that always refuse is picked after exactly
      k times the maximal streak of failed iterations, if k is below the size of
      the map, and otherwise never. */
  lemma ClaimableTaskIsPickedIff(username: string, rs: seq<Replies>, r: Replies, wedged: seq<string>, good: string)
    requires Distinct(wedged, good) && Refusing(username, rs, wedged, good) && Listed(r, username, wedged, good)
    requires |rs| <= MAX_FAIL_STREAK * |wedged| || |wedged| >= MAX_ENTRIES
    ensures Picked(After(FRESH, username, rs), username, r) == good
       <==> |wedged| < MAX_ENTRIES && |rs| == MAX_FAIL_STREAK * |wedged|
    ensures Picked(After(FRESH, username, rs), username, r) in wedged + [good]
  {
    var c := After(FRESH, username, rs);
    if |wedged| < MAX_ENTRIES {
      RefusingTasksAreTriedInTurn(username, rs, wedged, good);
      PickProgressed(c, username, r, wedged, good, |rs|);
    } else {
      TooManyRefusingTasksStarve(username, rs, wedged, good);
      StuckPicksRefusing(c, username, r, wedged, good);
    }
  }

  // ---------------------------------------------------------------- wasted work

  /** An iteration after which the streak of a task starts over: its work is
      accepted, its contract miss is reported, or FailTask is accepted. */
  ghost predicate Clears(it: Iteration, task: string) {
    it.task == task && it.outcome == Outcome(true, None)
  }

  /** No iteration clears the streak of the task or drops the map as a whole. */
  ghost predicate Uninterrupted(c: Counters, username: string, rs: seq<Replies>, task: string) {
    forall i | 0 <= i < |rs| ::
      !Clears(At(c, username, rs, i), task) && |After(c, username, rs[..i]).fails| < MAX_ENTRIES
  }

  /** How often the work of a task was run. */
  function Processed(c: Counters, username: string, rs: seq<Replies>, task: string): nat {
    if rs == [] then 0
    else
      var it := At(c, username, rs, |rs| - 1);
      Processed(c, username, rs[..|rs| - 1], task) + if it.processed && it.task == task then 1 else 0
  }

  lemma FailsAfterWork(c: Counters, task: string, r: Replies)
    ensures var fails := AfterClaim(c, task, r).counters.fails;
      || fails == c.fails || fails == c.fails - {task}
      || fails == Bump(c.fails, task) || fails == Bump(c.fails, task) - {task}
  {
    var fails := AfterClaim(c, task, r).counters.fails;
    if Get(c.fails, task) >= MAX_FAIL_STREAK {
      assert fails == if r.failTask.Some? then c.fails else c.fails - {task};
    } else if r.work.Submitted? || (r.work.ContractMissed? && !r.report.ReportFailed?) {
      assert fails == c.fails - {task};
    } else if r.work.ContractMissed? || Bump(c.fails, task)[task] < MAX_FAIL_STREAK || r.failTask.Some? {
      assert fails == Bump(c.fails, task);
    } else {
      assert fails == Bump(c.fails, task) - {task};
    }
  }

  lemma WorkLeavesOthers(c: Counters, other: string, r: Replies, task: string)
    requires other != task && |c.fails| < MAX_ENTRIES
    ensures Get(AfterClaim(c, other, r).counters.fails, task) == Get(c.fails, task)
  {
    FailsAfterWork(c, other, r);
    BumpLeavesOthers(c.fails, other, task);
  }

  lemma BumpLeavesOthers(m: map<string, nat>, other: string, task: string)
    requires other != task && |m| < MAX_ENTRIES
    ensures Get(Bump(m, other), task) == Get(m, task) && Get(m - {other}, task) == Get(m, task)
    ensures Get(Bump(m, other) - {other}, task) == Get(m, task)
  {
  }

  lemma WorkCounts(c: Counters, task: string, r: Replies)
    requires |c.fails| < MAX_ENTRIES
    ensures var it := AfterClaim(c, task, r);
      Get(it.counters.fails, task)
      == if Clears(it, task) then 0 else Get(c.fails, task) + if it.processed then 1 else 0
  {
  }

  /** One iteration adds to the streak of a task exactly if it runs its work in vain. */
  lemma StreakAfterIteration(c: Counters, username: string, r: Replies, task: string)
    requires task != "" && |c.fails| < MAX_ENTRIES
    ensures var it := Iterate(c, username, r);
      Get(it.counters.fails, task)
      == if Clears(it, task) then 0
         else Get(c.fails, task) + if it.processed && it.task == task then 1 else 0
  {
    if r.projects.Some? && r.claim.Claimed? {
      var picked := Picked(c, username, r);
      var claimed := c.(active := picked, claimFails := c.claimFails - {picked});
      if picked == task {
        WorkCounts(claimed, task, r);
      } else {
        WorkLeavesOthers(claimed, picked, r, task);
      }
    }
  }

  lemma {:induction false} UninterruptedPrefix(c: Counters, username: string, rs: seq<Replies>, task: string)
    requires rs != [] && Uninterrupted(c, username, rs, task)
    ensures Uninterrupted(c, username, rs[..|rs| - 1], task)
  {
    var init := rs[..|rs| - 1];
    forall i | 0 <= i < |init|
      ensures init[..i] == rs[..i]
    {
    }
  }

  /** Between two clearings the streak of a task counts how often its work was run,
      which is therefore at most as often as the maximal streak. */
  lemma {:induction false} StreakCountsWork(c: Counters, username: string, rs: seq<Replies>, task: string)
    requires Bounded(c) && task != "" && Uninterrupted(c, username, rs, task)
    ensures Get(After(c, username, rs).fails, task) == Get(c.fails, task) + Processed(c, username, rs, task)
    ensures Bounded(After(c, username, rs)) && Processed(c, username, rs, task) <= MAX_FAIL_STREAK
    decreases |rs|
  {
    if rs != [] {
      var n := |rs| - 1;
      UninterruptedPrefix(c, username, rs, task);
      StreakCountsWork(c, username, rs[..n], task);
      assert !Clears(At(c, username, rs, n), task);
      StreakAfterIteration(After(c, username, rs[..n]), username, rs[n], task);
      IterationKeepsBounds(After(c, username, rs[..n]), username, rs[n]);
    }
  }

  /** Once the streak is exhausted, claiming the task again never runs its work, but
      calls FailTask with the recorded reason; the streak stays until that succeeds. */
  lemma ExhaustedTaskIsOnlyFailed(c: Counters, username: string, r: Replies, task: string)
    requires Bounded(c) && Get(c.fails, task) == MAX_FAIL_STREAK && task != ""
    ensures var it := Iterate(c, username, r);
      && !(it.task == task && it.processed)
      && (it.task == task && r.claim.Claimed?
          ==> it.failReason == Some(if task in c.reasons then c.reasons[task] else ""))
  {
  }

  lemma ExhaustedStreakStays(c: Counters, username: string, r: Replies, task: string)
    requires Bounded(c) && Get(c.fails, task) == MAX_FAIL_STREAK && task != "" && |c.fails| < MAX_ENTRIES
    ensures var it := Iterate(c, username, r);
      !Clears(it, task) ==> Get(it.counters.fails, task) == MAX_FAIL_STREAK
  {
    ExhaustedTaskIsOnlyFailed(c, username, r, task);
    StreakAfterIteration(c, username, r, task);
  }

  /** An iteration calls FailTask exactly if it claims a task whose streak is
      exhausted, or whose work fails for the last time that the streak allows. */
  lemma FailTaskIff(c: Counters, username: string, r: Replies, task: string)
    requires Bounded(c) && task != "" && |c.fails| < MAX_ENTRIES
    ensures var it := Iterate(c, username, r);
      (it.task == task && it.failReason.Some?)
      <==> it.task == task && r.claim.Claimed?
           && (Get(c.fails, task) == MAX_FAIL_STREAK
               || (r.work.WorkFailed? && Get(c.fails, task) == MAX_FAIL_STREAK - 1))
  {
  }

  // ---------------------------------------------------------------- contract misses

  /** Whenever the task's work is run, it ends with a contract miss or is accepted. */
  ghost predicate OnlyMisses(c: Counters, username: string, rs: seq<Replies>, task: string) {
    forall i | 0 <= i < |rs| ::
      var it := At(c, username, rs, i);
      it.task == task && it.processed ==> !rs[i].work.WorkFailed?
  }

  /** How many reports of the task's contract misses failed. */
  function FailedReports(c: Counters, username: string, rs: seq<Replies>, task: string): nat {
    if rs == [] then 0
    else
      var n := |rs| - 1;
      var it := At(c, username, rs, n);
      FailedReports(c, username, rs[..n], task)
      + if it.task == task && it.processed && rs[n].work.ContractMissed? && rs[n].report.ReportFailed? then 1 else 0
  }

  /** A task that only misses its contract is sent to FailTask, when it is claimed
      again, exactly if as many reports of its misses have failed as the streak
      allows since the streak was last clear. */
  lemma MissingTaskIsFailedIff(c: Counters, username: string, rs: seq<Replies>, r: Replies, task: string)
    requires Bounded(c) && Get(c.fails, task) == 0 && task != ""
    requires Uninterrupted(c, username, rs, task) && OnlyMisses(c, username, rs, task)
    requires Iterate(After(c, username, rs), username, r).task == task && r.claim.Claimed? && !r.work.WorkFailed?
    ensures Iterate(After(c, username, rs), username, r).failReason.Some?
       <==> FailedReports(c, username, rs, task) == MAX_FAIL_STREAK
  {
    StreakCountsWork(c, username, rs, task);
    FailedReportsAreWork(c, username, rs, task);
  }

  /** The task is listed first, is claimed, misses its contract, and the miss cannot be
      reported. */
  ghost predicate Misses(r: Replies, username: string, task: string) {
    && r.projects.Some? && OfProjects(r.projects.value, username) != []
    && OfProjects(r.projects.value, username)[0].0 == task
    && r.claim.Claimed? && r.work.ContractMissed? && r.report.ReportFailed?
  }

  /** The counters after some contract misses that could not be reported. */
  function Missed(task: string, n: nat): Counters {
    Counters(map[], if n == 0 then map[] else map[task := n], map[], if n == 0 then "" else task)
  }

  lemma MissOnce(username: string, task: string, miss: Replies, n: nat)
    requires task != "" && n < MAX_FAIL_STREAK && Misses(miss, username, task)
    ensures Iterate(Missed(task, n), username, miss)
         == Iteration(Missed(task, n + 1), task, true, None, Outcome(true, Some(miss.report.error)))
  {
    var none: map<string, nat> := map[];
    assert none - {task} == none;
  }

  lemma {:induction false} MissesAddUp(username: string, task: string, rs: seq<Replies>)
    requires task != "" && |rs| <= MAX_FAIL_STREAK
    requires forall r | r in rs :: Misses(r, username, task)
    ensures After(FRESH, username, rs) == Missed(task, |rs|)
    decreases |rs|
  {
    if rs != [] {
      MissesAddUp(username, task, rs[..|rs| - 1]);
      MissOnce(username, task, rs[|rs| - 1], |rs| - 1);
    }
  }

  lemma MissAtLimit(username: string, task: string, r: Replies)
    requires task != "" && Misses(r, username, task)
    ensures Iterate(Missed(task, MAX_FAIL_STREAK), username, r).task == task
    ensures Iterate(Missed(task, MAX_FAIL_STREAK), username, r).failReason.Some?
  {
  }

  lemma OnlyMissesAre(c: Counters, username: string, rs: seq<Replies>, task: string)
    requires forall r | r in rs :: r.work.ContractMissed?
    ensures OnlyMisses(c, username, rs, task)
  {
    forall i | 0 <= i < |rs|
      ensures !rs[i].work.WorkFailed?
    {
      assert rs[i] in rs;
    }
  }

  /** Such runs exist: a task that is listed first, and three of whose misses cannot be
      reported, is sent to FailTask the next time, although its work only ever missed
      its contract. */
  lemma MissingTaskIsFailed(username: string, task: string, rs: seq<Replies>, r: Replies)
    requires task != "" && |rs| == MAX_FAIL_STREAK
    requires Misses(r, username, task) && forall miss | miss in rs :: Misses(miss, username, task)
    ensures OnlyMisses(FRESH, username, rs, task)
    ensures Iterate(After(FRESH, username, rs), username, r).task == task
    ensures Iterate(After(FRESH, username, rs), username, r).failReason.Some?
  {
    OnlyMissesAre(FRESH, username, rs, task);
    MissesAddUp(username, task, rs);
    MissAtLimit(username, task, r);
  }

  lemma {:induction false} FailedReportsAreWork(c: Counters, username: string, rs: seq<Replies>, task: string)
    requires task != "" && Uninterrupted(c, username, rs, task) && OnlyMisses(c, username, rs, task)
    ensures FailedReports(c, username, rs, task) == Processed(c, username, rs, task)
    decreases |rs|
  {
    if rs != [] {
      var init := rs[..|rs| - 1];
      UninterruptedPrefix(c, username, rs, task);
      forall i | 0 <= i < |init|
        ensures init[..i] == rs[..i]
      {
      }
      FailedReportsAreWork(c, username, init, task);
      var it := At(c, username, rs, |rs| - 1);
      assert !Clears(it, task);
    }
  }

  /** If every report succeeds, a task that only misses its contract is never sent to
      FailTask, however long the run and whatever happens to other tasks. */
  lemma {:induction false} ReportedMissesNeverFailTask(username: string, rs: seq<Replies>, task: string)
    requires task != "" && OnlyMisses(FRESH, username, rs, task)
    requires forall i | 0 <= i < |rs| && At(FRESH, username, rs, i).task == task :: !rs[i].report.ReportFailed?
    ensures Get(After(FRESH, username, rs).fails, task) == 0
    ensures rs != [] && At(FRESH, username, rs, |rs| - 1).task == task ==>
      At(FRESH, username, rs, |rs| - 1).failReason.None?
    decreases |rs|
  {
    if rs != [] {
      var n := |rs| - 1;
      var init := rs[..n];
      forall i | 0 <= i < n
        ensures At(FRESH, username, init, i) == At(FRESH, username, rs, i)
      {
        assert init[..i] == rs[..i];
      }
      ReportedMissesNeverFailTask(username, init, task);
      ReportedMissKeepsClear(After(FRESH, username, init), username, rs[n], task);
    }
  }

  lemma ReportedMissKeepsClear(c: Counters, username: string, r: Replies, task: string)
    requires task != "" && Get(c.fails, task) == 0
    requires Iterate(c, username, r).task == task ==> !r.report.ReportFailed?
    requires Iterate(c, username, r).task == task && Iterate(c, username, r).processed ==> !r.work.WorkFailed?
    ensures Get(Iterate(c, username, r).counters.fails, task) == 0
    ensures Iterate(c, username, r).task == task ==> Iterate(c, username, r).failReason.None?
  {
    if r.projects.Some? && r.claim.Claimed? {
      var picked := Picked(c, username, r);
      ClaimKeepsClear(c.(active := picked, claimFails := c.claimFails - {picked}), picked, task, r);
    }
  }

  lemma ClaimKeepsClear(c: Counters, picked: string, task: string, r: Replies)
    requires Get(c.fails, task) == 0
    requires picked == task ==> !r.report.ReportFailed? && !r.work.WorkFailed?
    ensures Get(AfterClaim(c, picked, r).counters.fails, task) == 0
    ensures picked == task ==> AfterClaim(c, picked, r).failReason.None?
  {
    if picked == task {
      AcceptedWorkKeepsClear(c, task, r);
    } else {
      FailsAfterWork(c, picked, r);
      ClearStaysClear(c.fails, picked, task);
    }
  }

  lemma AcceptedWorkKeepsClear(c: Counters, task: string, r: Replies)
    requires Get(c.fails, task) == 0 && !r.report.ReportFailed? && !r.work.WorkFailed?
    ensures AfterClaim(c, task, r).failReason.None? && AfterClaim(c, task, r).counters == ClearTask(c, task)
  {
  }

  lemma ClearStaysClear(m: map<string, nat>, other: string, task: string)
    requires other != task && Get(m, task) == 0
    ensures Get(Bump(m, other), task) == 0 && Get(m - {other}, task) == 0 && Get(Bump(m, other) - {other}, task) == 0
  {
  }
}
