/** What the daemon's counters tell about its past: over whole runs, from the replies
    alone. */
module DaemonHistory {
  import opened Wrappers
  import opened Graphs
  import opened Daemons

  // ---------------------------------------------------------------- which task is tried

  /** The k-th task of the j-th run of the i-th project is there, has the id and may be
      taken by the agent. */
  ghost predicate IsOffered(projects: seq<ProjectView>, username: string, i: int, j: int, k: int, id: string) {
    0 <= i < |projects| && projects[i].runs.Some? && IsOfferedIn(projects[i].runs.value, username, j, k, id)
  }

  ghost predicate IsOfferedIn(runs: seq<RunView>, username: string, j: int, k: int, id: string) {
    0 <= j < |runs| && runs[j].Some? && IsOfferedAt(runs[j].value, username, k, id)
  }

  ghost predicate IsOfferedAt(tasks: seq<Task>, username: string, k: int, id: string) {
    && 0 <= k < |tasks| && tasks[k].id == id != ""
    && (tasks[k].assignTo.None? || tasks[k].assignTo.value == [] || username in tasks[k].assignTo.value)
  }

  predicate IsEarlier(x: int, y: int, z: int, i: int, j: int, k: int) {
    x < i || (x == i && (y < j || (y == j && z < k)))
  }

  /** Three claims of the task were refused. */
  predicate IsGivenUp(claimFails: map<string, nat>, id: string) {
    id in claimFails && claimFails[id] >= 3
  }

  /** The task is the first one offered that is not given up. */
  ghost predicate IsTried(claimFails: map<string, nat>, username: string, r: Replies, id: string) {
    r.projects.Some? && exists i, j, k :: IsFirstOffer(claimFails, username, r.projects.value, i, j, k, id)
  }

  ghost predicate IsFirstOffer(claimFails: map<string, nat>, username: string, projects: seq<ProjectView>,
                               i: int, j: int, k: int, id: string) {
    && IsOffered(projects, username, i, j, k, id) && !IsGivenUp(claimFails, id)
    && forall x, y, z, other | IsOffered(projects, username, x, y, z, other) && IsEarlier(x, y, z, i, j, k) ::
         IsGivenUp(claimFails, other)
  }

  lemma {:induction false} SkippedTasks(claimFails: map<string, nat>, project: int, tasks: seq<Task>, username: string)
    ensures AllSkipped(claimFails, OfTasks(project, tasks, username))
       <==> forall k, id | IsOfferedAt(tasks, username, k, id) :: IsGivenUp(claimFails, id)
    decreases |tasks|
  {
    if tasks != [] {
      var init, n := tasks[..|tasks| - 1], |tasks| - 1;
      SkippedTasks(claimFails, project, init, username);
      assert forall k, id :: IsOfferedAt(init, username, k, id) <==> k < n && IsOfferedAt(tasks, username, k, id);
      assert AssignableTo(tasks[n], username) && tasks[n].id != "" <==> IsOfferedAt(tasks, username, n, tasks[n].id);
    }
  }

  lemma {:induction false} SkippedRuns(claimFails: map<string, nat>, project: int, runs: seq<RunView>, username: string)
    ensures AllSkipped(claimFails, OfRuns(project, runs, username))
       <==> forall j, k, id | IsOfferedIn(runs, username, j, k, id) :: IsGivenUp(claimFails, id)
    decreases |runs|
  {
    if runs != [] {
      var init, n := runs[..|runs| - 1], |runs| - 1;
      SkippedRuns(claimFails, project, init, username);
      assert forall j, k, id ::
          IsOfferedIn(init, username, j, k, id) <==> j < n && IsOfferedIn(runs, username, j, k, id);
      if runs[n].Some? {
        SkippedTasks(claimFails, project, runs[n].value, username);
        assert forall k, id :: IsOfferedIn(runs, username, n, k, id) <==> IsOfferedAt(runs[n].value, username, k, id);
      }
    }
  }

  lemma OffersInFront(projects: seq<ProjectView>, username: string)
    requires projects != []
    ensures var n := |projects| - 1;
      forall i, j, k, id {:trigger IsOffered(projects, username, i, j, k, id)}
                         {:trigger IsOffered(projects[..n], username, i, j, k, id)} ::
        IsOffered(projects[..n], username, i, j, k, id) <==> i < n && IsOffered(projects, username, i, j, k, id)
  {
  }

  lemma {:induction false} SkippedProjects(claimFails: map<string, nat>, projects: seq<ProjectView>, username: string)
    ensures AllSkipped(claimFails, OfProjects(projects, username))
       <==> forall i, j, k, id | IsOffered(projects, username, i, j, k, id) :: IsGivenUp(claimFails, id)
    decreases |projects|
  {
    if projects != [] {
      var init, n := projects[..|projects| - 1], |projects| - 1;
      SkippedProjects(claimFails, init, username);
      OffersInFront(projects, username);
      SkippedProject(claimFails, projects, n, username);
    }
  }

  lemma SkippedProject(claimFails: map<string, nat>, projects: seq<ProjectView>, n: int, username: string)
    requires 0 <= n < |projects|
    ensures AllSkipped(claimFails, OfProject(projects[n], username))
       <==> forall j, k, id | IsOffered(projects, username, n, j, k, id) :: IsGivenUp(claimFails, id)
  {
    if projects[n].runs.Some? {
      SkippedRuns(claimFails, projects[n].id, projects[n].runs.value, username);
      assert forall j, k, id ::
        IsOffered(projects, username, n, j, k, id) <==> IsOfferedIn(projects[n].runs.value, username, j, k, id);
    }
  }

  lemma {:induction false} FirstTask(claimFails: map<string, nat>, project: int, tasks: seq<Task>, username: string)
      returns (k: int)
    requires !AllSkipped(claimFails, OfTasks(project, tasks, username))
    ensures var id := Pick(claimFails, OfTasks(project, tasks, username)).0;
      IsOfferedAt(tasks, username, k, id) && !IsGivenUp(claimFails, id)
    ensures forall z, other | IsOfferedAt(tasks, username, z, other) && z < k :: IsGivenUp(claimFails, other)
    decreases |tasks|
  {
    var init, n := tasks[..|tasks| - 1], |tasks| - 1;
    var front := OfTasks(project, init, username);
    SkippedTasks(claimFails, project, init, username);
    k := n;
    if AllSkipped(claimFails, front) {
      PickAfterSkipped(claimFails, front, [(tasks[n].id, project)]);
      assert forall z, other | IsOfferedAt(tasks, username, z, other) && z < n :: IsOfferedAt(init, username, z, other);
    } else {
      k := FirstTask(claimFails, project, init, username);
      PickInFront(claimFails, front, [(tasks[n].id, project)]);
      assert forall z, other | IsOfferedAt(tasks, username, z, other) && z < k :: IsOfferedAt(init, username, z, other);
    }
  }

  lemma OffersInFrontRuns(runs: seq<RunView>, username: string)
    requires runs != []
    ensures var n := |runs| - 1;
      forall j, k, id {:trigger IsOfferedIn(runs, username, j, k, id)}
                      {:trigger IsOfferedIn(runs[..n], username, j, k, id)} ::
        IsOfferedIn(runs[..n], username, j, k, id) <==> j < n && IsOfferedIn(runs, username, j, k, id)
  {
  }

  lemma {:induction false} FirstInRuns(claimFails: map<string, nat>, project: int, runs: seq<RunView>, username: string)
      returns (j: int, k: int)
    requires !AllSkipped(claimFails, OfRuns(project, runs, username))
    ensures var id := Pick(claimFails, OfRuns(project, runs, username)).0;
      IsOfferedIn(runs, username, j, k, id) && !IsGivenUp(claimFails, id)
    ensures forall y, z, other | IsOfferedIn(runs, username, y, z, other) && (y < j || (y == j && z < k)) ::
              IsGivenUp(claimFails, other)
    decreases |runs|
  {
    var init, n := runs[..|runs| - 1], |runs| - 1;
    var front, last := OfRuns(project, init, username), OfRun(project, runs[n], username);
    SkippedRuns(claimFails, project, init, username);
    OffersInFrontRuns(runs, username);
    if AllSkipped(claimFails, front) {
      PickAfterSkipped(claimFails, front, last);
      j := n;
      k := FirstTask(claimFails, project, runs[n].value, username);
    } else {
      j, k := FirstInRuns(claimFails, project, init, username);
      PickInFront(claimFails, front, last);
    }
  }

  lemma {:induction false} FirstInProjects(claimFails: map<string, nat>, projects: seq<ProjectView>, username: string)
      returns (i: int, j: int, k: int)
    requires !AllSkipped(claimFails, OfProjects(projects, username))
    ensures IsFirstOffer(claimFails, username, projects, i, j, k, Pick(claimFails, OfProjects(projects, username)).0)
    decreases |projects|
  {
    var init, n := projects[..|projects| - 1], |projects| - 1;
    var front, last := OfProjects(init, username), OfProject(projects[n], username);
    SkippedProjects(claimFails, init, username);
    OffersInFront(projects, username);
    if AllSkipped(claimFails, front) {
      PickAfterSkipped(claimFails, front, last);
      i := n;
      j, k := FirstInRuns(claimFails, projects[n].id, projects[n].runs.value, username);
      OffersOfProject(projects, n, username);
    } else {
      i, j, k := FirstInProjects(claimFails, init, username);
      PickInFront(claimFails, front, last);
    }
  }

  lemma OffersOfProject(projects: seq<ProjectView>, n: int, username: string)
    requires 0 <= n < |projects| && projects[n].runs.Some?
    ensures forall j, k, id {:trigger IsOffered(projects, username, n, j, k, id)}
                            {:trigger IsOfferedIn(projects[n].runs.value, username, j, k, id)} ::
              IsOffered(projects, username, n, j, k, id) <==> IsOfferedIn(projects[n].runs.value, username, j, k, id)
  {
  }

  /** Of all tasks offered the iteration tries the first that is not given up. */
  lemma TriedIff(claimFails: map<string, nat>, username: string, r: Replies, id: string)
    requires r.projects.Some?
    ensures id != "" && Pick(claimFails, OfProjects(r.projects.value, username)).0 == id
       <==> IsTried(claimFails, username, r, id)
  {
    var projects := r.projects.value;
    var candidates := OfProjects(projects, username);
    SkippedProjects(claimFails, projects, username);
    if AllSkipped(claimFails, candidates) {
      NothingToPick(claimFails, candidates);
    } else {
      var i, j, k := FirstInProjects(claimFails, projects, username);
      if IsTried(claimFails, username, r, id) {
        var x, y, z :| IsFirstOffer(claimFails, username, projects, x, y, z, id);
        assert !IsEarlier(x, y, z, i, j, k) && !IsEarlier(i, j, k, x, y, z);
      }
    }
  }

  // ---------------------------------------------------------------- refused claims

  /** Before the i-th iteration. */
  function Before(username: string, rs: seq<Replies>, i: nat): Counters
    requires i <= |rs|
  {
    After(FRESH, username, rs[..i])
  }

  ghost predicate TriedOn(username: string, rs: seq<Replies>, i: int, t: string) {
    0 <= i < |rs| && IsTried(Before(username, rs, i).claimFails, username, rs[i], t)
  }

  ghost predicate RefusedOn(username: string, rs: seq<Replies>, i: int, t: string) {
    TriedOn(username, rs, i, t) && rs[i].claim.Refused?
  }

  ghost predicate ClaimedOn(username: string, rs: seq<Replies>, i: int, t: string) {
    TriedOn(username, rs, i, t) && rs[i].claim.Claimed?
  }

  /** A claim is refused when 1024 tasks are counted: all counts are dropped. */
  ghost predicate DropsAt(username: string, rs: seq<Replies>, i: int) {
    0 <= i < |rs| && |Before(username, rs, i).claimFails| >= 1024 && exists u :: RefusedOn(username, rs, i, u)
  }

  /** The count of a task starts over with the m-th iteration. */
  ghost predicate StartsOver(username: string, rs: seq<Replies>, m: int, t: string) {
    m == 0 || ClaimedOn(username, rs, m - 1, t) || DropsAt(username, rs, m)
  }

  ghost predicate GoesOn(username: string, rs: seq<Replies>, m: int, t: string) {
    forall i | m <= i < |rs| :: !ClaimedOn(username, rs, i, t) && (i > m ==> !DropsAt(username, rs, i))
  }

  lemma OneTried(claimFails: map<string, nat>, username: string, r: Replies, t: string, u: string)
    requires IsTried(claimFails, username, r, t) && IsTried(claimFails, username, r, u)
    ensures t == u && t != ""
  {
    TriedIff(claimFails, username, r, t);
    TriedIff(claimFails, username, r, u);
  }

  /** What one iteration does to the refusals counted for a task. */
  lemma RefusalsAfter(c: Counters, username: string, r: Replies, t: string)
    requires t != ""
    ensures var now := Iterate(c, username, r).counters.claimFails;
      var drops := r.claim.Refused? && |c.claimFails| >= 1024 && exists u :: IsTried(c.claimFails, username, r, u);
      Get(now, t)
      == (if drops || (r.claim.Claimed? && IsTried(c.claimFails, username, r, t)) then 0 else Get(c.claimFails, t))
       + (if r.claim.Refused? && IsTried(c.claimFails, username, r, t) then 1 else 0)
  {
    if r.projects.Some? {
      var u := Pick(c.claimFails, OfProjects(r.projects.value, username)).0;
      TriedIff(c.claimFails, username, r, t);
      TriedIff(c.claimFails, username, r, u);
      if v :| IsTried(c.claimFails, username, r, v) {
        TriedIff(c.claimFails, username, r, v);
      }
      if u != "" && r.claim.Claimed? {
        WorkKeepsRefusals(c.(active := u, claimFails := c.claimFails - {u}), u, r);
      }
    }
  }

  lemma WorkKeepsRefusals(c: Counters, task: string, r: Replies)
    ensures AfterClaim(c, task, r).counters.claimFails == c.claimFails
  {
    if Get(c.fails, task) < MAX_FAIL_STREAK && r.work.WorkFailed? {
      FailureKeepsRefusals(c, task, r);
    }
  }

  lemma FailureKeepsRefusals(c: Counters, task: string, r: Replies)
    requires Get(c.fails, task) < MAX_FAIL_STREAK && r.work.WorkFailed?
    ensures AfterClaim(c, task, r).counters.claimFails == c.claimFails
  {
    var bumped := BumpFails(c, task);
    assert bumped.claimFails == c.claimFails;
    if bumped.fails[task] >= MAX_FAIL_STREAK {
      var noted := bumped.(reasons := bumped.reasons[task := r.work.message]);
      assert FailTerminally(noted, task, r.work.message, r.failTask).0.claimFails == c.claimFails;
    }
  }

  lemma CountAfter(username: string, rs: seq<Replies>, i: nat, t: string)
    requires t != "" && i < |rs|
    ensures Get(Before(username, rs, i + 1).claimFails, t)
         == if ClaimedOn(username, rs, i, t) then 0
            else
              (if DropsAt(username, rs, i) then 0 else Get(Before(username, rs, i).claimFails, t))
              + (if RefusedOn(username, rs, i, t) then 1 else 0)
  {
    var c := Before(username, rs, i);
    NextPrefix(rs, i);
    RefusalsAfter(c, username, rs[i], t);
    if rs[i].claim.Refused? {
      if u :| IsTried(c.claimFails, username, rs[i], u) {
        assert RefusedOn(username, rs, i, u);
      }
    }
  }

  /** Whatever the replies were: what is counted for a task are the refusals of its
      claim since it was last claimed, or all counts were dropped. A lost race, an empty
      or a failed listing, and other tasks change nothing. */
  lemma RefusalsAreCounted(username: string, rs: seq<Replies>, t: string, m: nat)
    requires t != "" && m <= |rs| && StartsOver(username, rs, m, t) && GoesOn(username, rs, m, t)
    ensures Get(After(FRESH, username, rs).claimFails, t)
         == |set i | m <= i < |rs| && RefusedOn(username, rs, i, t)|
  {
    forall i | 0 <= i < |rs|
      ensures Counts(RefusalCounts(username, rs, t), ClaimsOf(username, rs, t), DropsOf(username, rs),
                     RefusalsOf(username, rs, t), i)
    {
      CountAfter(username, rs, i, t);
    }
    Tally(RefusalCounts(username, rs, t), ClaimsOf(username, rs, t), DropsOf(username, rs),
          RefusalsOf(username, rs, t), m, |rs|);
    RefusalsHit(username, rs, t, m);
    assert rs[..|rs|] == rs;
  }

  ghost function RefusalCounts(username: string, rs: seq<Replies>, t: string): seq<nat> {
    seq(|rs| + 1, i requires 0 <= i <= |rs| => Get(Before(username, rs, i).claimFails, t))
  }

  ghost function ClaimsOf(username: string, rs: seq<Replies>, t: string): seq<bool> {
    seq(|rs|, i => ClaimedOn(username, rs, i, t))
  }

  ghost function DropsOf(username: string, rs: seq<Replies>): seq<bool> {
    seq(|rs|, i => DropsAt(username, rs, i))
  }

  ghost function RefusalsOf(username: string, rs: seq<Replies>, t: string): seq<bool> {
    seq(|rs|, i => RefusedOn(username, rs, i, t))
  }

  lemma RefusalsHit(username: string, rs: seq<Replies>, t: string, m: nat)
    ensures Hits(RefusalsOf(username, rs, t), m, |rs|) == set i | m <= i < |rs| && RefusedOn(username, rs, i, t)
  {
  }

  // ---------------------------------------------------------------- counting

  /** A counter that is hit, dropped, or back at zero. */
  ghost predicate Counts(values: seq<nat>, settled: seq<bool>, dropped: seq<bool>, hit: seq<bool>, i: int)
    requires |values| == |hit| + 1 && |settled| == |dropped| == |hit|
  {
    0 <= i < |hit| ==>
      values[i + 1] == if settled[i] then 0 else (if dropped[i] then 0 else values[i]) + (if hit[i] then 1 else 0)
  }

  ghost function Hits(hit: seq<bool>, m: int, n: int): set<int> {
    set i | m <= i < n && 0 <= i < |hit| && hit[i]
  }

  lemma OneMoreHit(hit: seq<bool>, m: nat, n: nat)
    requires m < n <= |hit|
    ensures |Hits(hit, m, n)| == |Hits(hit, m, n - 1)| + if hit[n - 1] then 1 else 0
  {
    assert Hits(hit, m, n) == Hits(hit, m, n - 1) + if hit[n - 1] then {n - 1} else {};
    OneMore(Hits(hit, m, n - 1), n - 1, hit[n - 1]);
  }

  lemma NoHits(hit: seq<bool>, m: nat)
    ensures |Hits(hit, m, m)| == 0
  {
    assert Hits(hit, m, m) == {};
  }

  lemma {:induction false} Tally(values: seq<nat>, settled: seq<bool>, dropped: seq<bool>, hit: seq<bool>, m: nat,
                                 n: nat)
    requires |values| == |hit| + 1 && |settled| == |dropped| == |hit| && m <= n <= |hit| && values[0] == 0
    requires forall i | 0 <= i < |hit| :: Counts(values, settled, dropped, hit, i)
    requires m == 0 || settled[m - 1] || (m < n && dropped[m])
    requires forall i | m <= i < n :: !settled[i] && (i > m ==> !dropped[i])
    ensures values[n] == |Hits(hit, m, n)|
    decreases n
  {
    NoHits(hit, m);
    if n == m {
      if m > 0 {
        assert Counts(values, settled, dropped, hit, m - 1);
      }
    } else {
      assert Counts(values, settled, dropped, hit, n - 1);
      OneMoreHit(hit, m, n);
      if n - 1 != m || !dropped[m] {
        Tally(values, settled, dropped, hit, m, n - 1);
      }
    }
  }

  lemma OneMore(s: set<int>, n: int, more: bool)
    requires n !in s
    ensures |s + if more then {n} else {}| == |s| + if more then 1 else 0
  {
    if !more {
      assert s + {} == s;
    }
  }

  /** There is always a place from which is counted. */
  lemma {:induction false} SomeStart(settled: seq<bool>, dropped: seq<bool>, n: nat) returns (m: nat)
    requires |settled| == |dropped| && n <= |settled|
    ensures m <= n && (m == 0 || settled[m - 1] || (m < n && dropped[m]))
    ensures forall i | m <= i < n :: !settled[i] && (i > m ==> !dropped[i])
  {
    if n == 0 || settled[n - 1] {
      m := n;
    } else if dropped[n - 1] {
      m := n - 1;
    } else {
      m := SomeStart(settled, dropped, n - 1);
    }
  }

  // ---------------------------------------------------------------- failed work

  /** The work is run and fails, or it misses its contract and that cannot be reported. */
  ghost predicate Fails(c: Counters, username: string, r: Replies, t: string) {
    && IsTried(c.claimFails, username, r, t) && r.claim.Claimed?
    && Get(c.fails, t) < 3 && (r.work.WorkFailed? || (r.work.ContractMissed? && r.report.ReportFailed?))
  }

  /** The work is accepted, a miss of its contract is reported, or the task is failed:
      with three failures behind it, or with the third one. */
  ghost predicate Settles(c: Counters, username: string, r: Replies, t: string) {
    && IsTried(c.claimFails, username, r, t) && r.claim.Claimed?
    && if Get(c.fails, t) >= 3 then r.failTask.None?
       else match r.work
            case Submitted => true
            case ContractMissed => !r.report.ReportFailed?
            case WorkFailed(_, _) => r.failTask.None? && Get(c.fails, t) == 2 && |c.fails| < 1024
  }

  /** Some work fails when 1024 tasks are counted: all counts are dropped. */
  ghost predicate DropsFails(c: Counters, username: string, r: Replies) {
    |c.fails| >= 1024 && exists u :: Fails(c, username, r, u)
  }

  lemma DropsFailsIff(c: Counters, username: string, r: Replies, u: string)
    requires IsTried(c.claimFails, username, r, u)
    ensures DropsFails(c, username, r) <==> |c.fails| >= 1024 && Fails(c, username, r, u)
  {
    if v :| Fails(c, username, r, v) {
      OneTried(c.claimFails, username, r, u, v);
    }
  }

  /** What one iteration does to the failures counted for a task. */
  lemma FailuresAfter(c: Counters, username: string, r: Replies, t: string)
    requires t != ""
    ensures Get(Iterate(c, username, r).counters.fails, t) == FailuresNow(c, username, r, t)
  {
    if r.projects.Some? {
      var u := Pick(c.claimFails, OfProjects(r.projects.value, username)).0;
      TriedIff(c.claimFails, username, r, u);
      if u != "" {
        FailuresOnTry(c, username, r, u, t);
      } else if v :| IsTried(c.claimFails, username, r, v) {
        TriedIff(c.claimFails, username, r, v);
      }
    }
  }

  ghost function FailuresNow(c: Counters, username: string, r: Replies, t: string): nat {
    if Settles(c, username, r, t) then 0
    else (if DropsFails(c, username, r) then 0 else Get(c.fails, t)) + (if Fails(c, username, r, t) then 1 else 0)
  }

  lemma FailuresOnTry(c: Counters, username: string, r: Replies, u: string, t: string)
    requires IsTried(c.claimFails, username, r, u) && t != ""
    ensures Get(Iterate(c, username, r).counters.fails, t) == FailuresNow(c, username, r, t)
  {
    TriedIff(c.claimFails, username, r, u);
    TriedIff(c.claimFails, username, r, t);
    DropsFailsIff(c, username, r, u);
    if r.claim.Claimed? {
      FailuresAfterClaim(c.(active := u, claimFails := c.claimFails - {u}), u, r, t);
    }
  }

  lemma FailuresAfterClaim(c: Counters, u: string, r: Replies, t: string)
    ensures var streak, now := Get(c.fails, u), Get(AfterClaim(c, u, r).counters.fails, t);
      var fails := streak < 3 && (r.work.WorkFailed? || (r.work.ContractMissed? && r.report.ReportFailed?));
      var base := if fails && |c.fails| >= 1024 then 0 else Get(c.fails, t);
      if t != u then now == base
      else if streak >= 3 then now == if r.failTask.None? then 0 else base
      else if !fails then now == 0
      else now == if r.work.WorkFailed? && r.failTask.None? && base == 2 then 0 else base + 1
  {
    if Get(c.fails, u) >= 3 {
    } else if r.work.WorkFailed? {
      var bumped := BumpFails(c, u);
      assert Get(bumped.fails, t) == (if |c.fails| >= 1024 then 0 else Get(c.fails, t)) + if t == u then 1 else 0;
    }
  }

  ghost predicate FailsOn(username: string, rs: seq<Replies>, i: int, t: string) {
    0 <= i < |rs| && Fails(Before(username, rs, i), username, rs[i], t)
  }

  ghost predicate SettlesOn(username: string, rs: seq<Replies>, i: int, t: string) {
    0 <= i < |rs| && Settles(Before(username, rs, i), username, rs[i], t)
  }

  ghost predicate DropsFailsAt(username: string, rs: seq<Replies>, i: int) {
    0 <= i < |rs| && DropsFails(Before(username, rs, i), username, rs[i])
  }

  /** Whatever the replies were: the streak of a task are its failures since it was last
      settled, or all counts were dropped. */
  lemma FailuresAreCounted(username: string, rs: seq<Replies>, t: string, m: nat)
    requires t != "" && m <= |rs|
    requires m == 0 || SettlesOn(username, rs, m - 1, t) || DropsFailsAt(username, rs, m)
    requires forall i | m <= i < |rs| :: !SettlesOn(username, rs, i, t) && (i > m ==> !DropsFailsAt(username, rs, i))
    ensures Get(After(FRESH, username, rs).fails, t) == |set i | m <= i < |rs| && FailsOn(username, rs, i, t)|
  {
    forall i | 0 <= i < |rs|
      ensures Counts(FailureCounts(username, rs, t), SettlementsOf(username, rs, t), FailDropsOf(username, rs),
                     FailuresOf(username, rs, t), i)
    {
      NextPrefix(rs, i);
      FailuresAfter(Before(username, rs, i), username, rs[i], t);
    }
    Tally(FailureCounts(username, rs, t), SettlementsOf(username, rs, t), FailDropsOf(username, rs),
          FailuresOf(username, rs, t), m, |rs|);
    FailuresHit(username, rs, t, m);
    assert rs[..|rs|] == rs;
  }

  ghost function FailureCounts(username: string, rs: seq<Replies>, t: string): seq<nat> {
    seq(|rs| + 1, i requires 0 <= i <= |rs| => Get(Before(username, rs, i).fails, t))
  }

  ghost function SettlementsOf(username: string, rs: seq<Replies>, t: string): seq<bool> {
    seq(|rs|, i => SettlesOn(username, rs, i, t))
  }

  ghost function FailDropsOf(username: string, rs: seq<Replies>): seq<bool> {
    seq(|rs|, i => DropsFailsAt(username, rs, i))
  }

  ghost function FailuresOf(username: string, rs: seq<Replies>, t: string): seq<bool> {
    seq(|rs|, i => FailsOn(username, rs, i, t))
  }

  lemma FailuresHit(username: string, rs: seq<Replies>, t: string, m: nat)
    ensures Hits(FailuresOf(username, rs, t), m, |rs|) == set i | m <= i < |rs| && FailsOn(username, rs, i, t)
  {
  }

  // ---------------------------------------------------------------- the claim that is held

  /** What one iteration does to the claim that is held. */
  lemma ActiveAfter(c: Counters, username: string, r: Replies, t: string)
    requires t != ""
    ensures Iterate(c, username, r).counters.active == t
       <==> if r.claim.Claimed? && exists u :: IsTried(c.claimFails, username, r, u)
            then IsTried(c.claimFails, username, r, t) && !Settles(c, username, r, t)
            else c.active == t
  {
    if r.projects.Some? {
      var u := Pick(c.claimFails, OfProjects(r.projects.value, username)).0;
      TriedIff(c.claimFails, username, r, t);
      TriedIff(c.claimFails, username, r, u);
      if v :| IsTried(c.claimFails, username, r, v) {
        TriedIff(c.claimFails, username, r, v);
      }
      if u != "" && r.claim.Claimed? {
        ActiveAfterClaim(c.(active := u, claimFails := c.claimFails - {u}), u, r);
      }
    }
  }

  lemma ActiveAfterClaim(c: Counters, u: string, r: Replies)
    requires c.active == u != ""
    ensures var streak := Get(c.fails, u);
      AfterClaim(c, u, r).counters.active
      == if (if streak >= 3 then r.failTask.None?
             else match r.work
                  case Submitted => true
                  case ContractMissed => !r.report.ReportFailed?
                  case WorkFailed(_, _) => r.failTask.None? && streak == 2 && |c.fails| < 1024)
         then "" else u
  {
    if Get(c.fails, u) < 3 && r.work.WorkFailed? {
      var bumped := BumpFails(c, u);
      assert bumped.active == u && bumped.fails[u] == (if |c.fails| >= 1024 then 0 else Get(c.fails, u)) + 1;
    }
  }

  /** Of the first n iterations the i-th was the last to claim a task, and it was this. */
  ghost predicate IsLastClaim(username: string, rs: seq<Replies>, n: int, i: int, t: string) {
    i < n && ClaimedOn(username, rs, i, t) && forall j, u | i < j < n :: !ClaimedOn(username, rs, j, u)
  }

  ghost predicate ClaimsSome(username: string, rs: seq<Replies>, i: int) {
    exists u :: ClaimedOn(username, rs, i, u)
  }

  ghost predicate HoldsLastClaim(username: string, rs: seq<Replies>, n: int, t: string) {
    exists i :: IsLastClaim(username, rs, n, i, t) && !SettlesOn(username, rs, i, t)
  }

  lemma ClaimedNow(username: string, rs: seq<Replies>, n: nat, t: string)
    requires t != "" && n < |rs|
    ensures Before(username, rs, n + 1).active == t
       <==> if ClaimsSome(username, rs, n) then ClaimedOn(username, rs, n, t) && !SettlesOn(username, rs, n, t)
            else Before(username, rs, n).active == t
  {
    var c := Before(username, rs, n);
    NextPrefix(rs, n);
    ActiveAfter(c, username, rs[n], t);
    if rs[n].claim.Claimed? {
      if u :| IsTried(c.claimFails, username, rs[n], u) {
        assert ClaimedOn(username, rs, n, u);
      }
    }
  }

  lemma LastClaimIff(username: string, rs: seq<Replies>, n: nat, i: int, t: string)
    requires n < |rs|
    ensures IsLastClaim(username, rs, n + 1, i, t)
       <==> if ClaimsSome(username, rs, n) then i == n && ClaimedOn(username, rs, n, t)
            else IsLastClaim(username, rs, n, i, t)
  {
  }

  lemma HoldsIff(username: string, rs: seq<Replies>, n: nat, t: string)
    requires n < |rs|
    ensures HoldsLastClaim(username, rs, n + 1, t)
       <==> if ClaimsSome(username, rs, n) then ClaimedOn(username, rs, n, t) && !SettlesOn(username, rs, n, t)
            else HoldsLastClaim(username, rs, n, t)
  {
    LastClaimIff(username, rs, n, n, t);
    if i :| IsLastClaim(username, rs, n + 1, i, t) && !SettlesOn(username, rs, i, t) {
      LastClaimIff(username, rs, n, i, t);
    }
    if i :| IsLastClaim(username, rs, n, i, t) && !SettlesOn(username, rs, i, t) {
      LastClaimIff(username, rs, n, i, t);
    }
  }

  ghost predicate Held(username: string, rs: seq<Replies>, n: nat, t: string)
    requires n <= |rs|
  {
    Before(username, rs, n).active == t <==> HoldsLastClaim(username, rs, n, t)
  }

  lemma HeldStep(username: string, rs: seq<Replies>, n: nat, t: string)
    requires t != "" && n < |rs| && Held(username, rs, n, t)
    ensures Held(username, rs, n + 1, t)
  {
    ClaimedNow(username, rs, n, t);
    HoldsIff(username, rs, n, t);
  }

  lemma {:induction false} HeldAfter(username: string, rs: seq<Replies>, n: nat, t: string)
    requires t != "" && n <= |rs|
    ensures Held(username, rs, n, t)
    decreases n
  {
    if n == 0 {
      assert rs[..0] == [];
    } else {
      HeldAfter(username, rs, n - 1, t);
      HeldStep(username, rs, n - 1, t);
    }
  }

  /** The claim that is held is the last one, unless it was settled. */
  lemma ActiveIff(username: string, rs: seq<Replies>, t: string)
    requires t != ""
    ensures After(FRESH, username, rs).active == t
       <==> exists i :: IsLastClaim(username, rs, |rs|, i, t) && !SettlesOn(username, rs, i, t)
  {
    HeldAfter(username, rs, |rs|, t);
    assert rs[..|rs|] == rs;
  }

  // ---------------------------------------------------------------- recorded reasons

  /** The third failure, by work that fails. */
  ghost predicate FailsLast(c: Counters, username: string, r: Replies, t: string) {
    Fails(c, username, r, t) && r.work.WorkFailed? && Get(c.fails, t) == 2 && |c.fails| < 1024
  }

  /** What one iteration does to the reason recorded for a task: the third failure records
      its message, which stays until the task is settled or all counts are dropped. */
  lemma ReasonAfter(c: Counters, username: string, r: Replies, t: string)
    requires t != ""
    ensures var now := Iterate(c, username, r).counters.reasons;
      if Settles(c, username, r, t) then t !in now
      else if FailsLast(c, username, r, t) then t in now && now[t] == r.work.message
      else if DropsFails(c, username, r) then t !in now
      else (t in now <==> t in c.reasons) && (t in now ==> now[t] == c.reasons[t])
  {
    if r.projects.Some? {
      var u := Pick(c.claimFails, OfProjects(r.projects.value, username)).0;
      TriedIff(c.claimFails, username, r, u);
      if u != "" {
        ReasonOnTry(c, username, r, u, t);
      } else if v :| IsTried(c.claimFails, username, r, v) {
        TriedIff(c.claimFails, username, r, v);
      }
    }
  }

  lemma ReasonOnTry(c: Counters, username: string, r: Replies, u: string, t: string)
    requires IsTried(c.claimFails, username, r, u) && t != ""
    ensures var now := Iterate(c, username, r).counters.reasons;
      if Settles(c, username, r, t) then t !in now
      else if FailsLast(c, username, r, t) then t in now && now[t] == r.work.message
      else if DropsFails(c, username, r) then t !in now
      else (t in now <==> t in c.reasons) && (t in now ==> now[t] == c.reasons[t])
  {
    TriedIff(c.claimFails, username, r, u);
    TriedIff(c.claimFails, username, r, t);
    DropsFailsIff(c, username, r, u);
    if r.claim.Claimed? {
      ReasonAfterClaim(c.(active := u, claimFails := c.claimFails - {u}), u, r, t);
    }
  }

  lemma ReasonAfterClaim(c: Counters, u: string, r: Replies, t: string)
    ensures var streak, now := Get(c.fails, u), AfterClaim(c, u, r).counters.reasons;
      var fails := streak < 3 && (r.work.WorkFailed? || (r.work.ContractMissed? && r.report.ReportFailed?));
      var drops, last := fails && |c.fails| >= 1024, r.work.WorkFailed? && streak == 2 && |c.fails| < 1024;
      if t == u && (if streak >= 3 || last then r.failTask.None? else !fails) then t !in now
      else if t == u && last then t in now && now[t] == r.work.message
      else if drops then t !in now
      else (t in now <==> t in c.reasons) && (t in now ==> now[t] == c.reasons[t])
  {
    if Get(c.fails, u) < 3 && r.work.WorkFailed? {
      var bumped := BumpFails(c, u);
      assert bumped.fails[u] == (if |c.fails| >= 1024 then 0 else Get(c.fails, u)) + 1;
    }
  }

  // ---------------------------------------------------------------- what an iteration answers

  /** What is sent with a call of FailTask, if it is called. */
  ghost function SentWith(c: Counters, t: string, r: Replies): Option<string> {
    if Get(c.fails, t) >= 3 then Some(if t in c.reasons then c.reasons[t] else "")
    else if r.work.WorkFailed? && Get(c.fails, t) == 2 && |c.fails| < 1024 then Some(r.work.message)
    else None
  }

  /** How an iteration on a task ends. */
  ghost function ErrorOf(c: Counters, t: string, r: Replies): Option<Error> {
    match r.claim
    case RaceLost => None
    case Refused(error) =>
      if (if |c.claimFails| >= 1024 then 0 else Get(c.claimFails, t)) >= 2 then None else Some(error)
    case Claimed =>
      if SentWith(c, t, r).Some? then r.failTask
      else match r.work
           case Submitted => None
           case ContractMissed => if r.report.ReportFailed? then Some(r.report.error) else None
           case WorkFailed(error, _) => Some(error)
  }

  /** The task of an iteration, whether its work is run, what FailTask is called with, and
      what the loop is told. */
  lemma IterationTells(c: Counters, username: string, r: Replies, t: string)
    requires IsTried(c.claimFails, username, r, t)
    ensures var it := Iterate(c, username, r);
      && it.task == t && (it.processed <==> r.claim.Claimed? && Get(c.fails, t) < 3)
      && it.failReason == (if r.claim.Claimed? then SentWith(c, t, r) else None)
      && (it.outcome.worked <==> r.claim.Claimed?) && it.outcome.error == ErrorOf(c, t, r)
  {
    TriedIff(c.claimFails, username, r, t);
    if r.claim.Claimed? {
      ClaimTells(c.(active := t, claimFails := c.claimFails - {t}), t, r);
    }
  }

  lemma ClaimTells(c: Counters, t: string, r: Replies)
    ensures var it := AfterClaim(c, t, r);
      && it.task == t && (it.processed <==> Get(c.fails, t) < 3) && it.failReason == SentWith(c, t, r)
      && it.outcome.worked && it.outcome.error == if SentWith(c, t, r).Some? then r.failTask
                                                  else match r.work
                                                       case Submitted => None
                                                       case ContractMissed =>
                                                         if r.report.ReportFailed? then Some(r.report.error) else None
                                                       case WorkFailed(error, _) => Some(error)
  {
    if Get(c.fails, t) < 3 && r.work.WorkFailed? {
      var bumped := BumpFails(c, t);
      assert bumped.fails[t] == (if |c.fails| >= 1024 then 0 else Get(c.fails, t)) + 1;
    }
  }

  /** Without a task to try nothing happens. */
  lemma NothingTriedTells(c: Counters, username: string, r: Replies)
    requires forall t :: !IsTried(c.claimFails, username, r, t)
    ensures Iterate(c, username, r)
         == Iteration(c, "", false, None, Outcome(false, if r.projects.None? then Some(Transient) else None))
  {
    if r.projects.Some? {
      TriedIff(c.claimFails, username, r, Pick(c.claimFails, OfProjects(r.projects.value, username)).0);
    }
  }

  // ---------------------------------------------------------------- pauses

  predicate IsBad(outcome: Outcome) {
    !outcome.worked || outcome.error.Some?
  }

  /** The last k of the first n iterations ended badly, and the one before did not. */
  ghost predicate BadInARow(outcomes: seq<Outcome>, n: int, k: int) {
    && 0 <= k <= n <= |outcomes| && (forall i | n - k <= i < n :: IsBad(outcomes[i]))
    && (k < n ==> !IsBad(outcomes[n - k - 1]))
  }

  function TwoTimes(pause: nat, k: nat): nat {
    if k == 0 then pause else 2 * TwoTimes(pause, k - 1)
  }

  lemma {:induction false} NextPauseIs(floor: nat, max: nat, outcomes: seq<Outcome>, k: nat)
    requires BadInARow(outcomes, |outcomes|, k)
    ensures NextPause(floor, max, outcomes)
         == if k == 0 || TwoTimes(floor, k) <= max then TwoTimes(floor, k) else max
    decreases |outcomes|
  {
    if k > 0 {
      var n := |outcomes| - 1;
      assert BadInARow(outcomes[..n], n, k - 1);
      NextPauseIs(floor, max, outcomes[..n], k - 1);
    }
  }

  /** After the n-th iteration there is a pause exactly if it ended badly: the floor,
      doubled for each bad one directly before it, and cut off at the maximum. */
  lemma PauseAfter(floor: nat, max: nat, outcomes: seq<Outcome>, n: nat, k: nat)
    requires n < |outcomes| && BadInARow(outcomes, n, k)
    ensures Pauses(floor, max, outcomes[..n + 1])
         == Pauses(floor, max, outcomes[..n])
          + if !IsBad(outcomes[n]) then []
            else [if k == 0 || TwoTimes(floor, k) <= max then TwoTimes(floor, k) else max]
  {
    NextPrefix(outcomes, n);
    assert BadInARow(outcomes[..n], n, k);
    NextPauseIs(floor, max, outcomes[..n], k);
  }
}
