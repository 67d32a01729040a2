/** The agent daemon: finding work, one iteration with its failure counters, and
    the loop with its backoff. The coordinator's replies are inputs. */
module Daemons {
  import opened Wrappers
  import opened Graphs

  const MAX_FAIL_STREAK: nat := 3

  /** Where a counter map is dropped as a whole. */
  const MAX_ENTRIES: nat := 1024

  // ---------------------------------------------------------------- replies

  /** An error; NoCloneSource is the one that no retry can mend. */
  datatype Error = Transient | NoCloneSource

  /** A ready task; without a list of citizens it is open to all. */
  datatype Task = Task(id: string, assignTo: Option<seq<string>>)

  /** The ready tasks of a run, or None where listing them failed. */
  type RunView = Option<seq<Task>>

  /** The runs of a project, or None where listing them failed. */
  datatype ProjectView = ProjectView(id: int, runs: Option<seq<RunView>>)

  datatype ClaimReply = Claimed | RaceLost | Refused(error: Error)

  datatype WorkReply = Submitted | ContractMissed | WorkFailed(error: Error, message: string)

  datatype ReportReply = ReportFailed(error: Error) | Escalated | Counted

  /** What is answered in one iteration. */
  datatype Replies = Replies(
    projects: Option<seq<ProjectView>>,
    claim: ClaimReply,
    work: WorkReply,
    report: ReportReply,
    failTask: Option<Error>)

  /** Whether a claim was held, and the error of the iteration. */
  datatype Outcome = Outcome(worked: bool, error: Option<Error>)

  // ---------------------------------------------------------------- counters

  datatype Counters = Counters(
    claimFails: map<string, nat>,
    fails: map<string, nat>,
    reasons: map<string, string>,
    active: string)

  const FRESH := Counters(map[], map[], map[], "")

  function Get(m: map<string, nat>, key: string): nat {
    if key in m then m[key] else 0
  }

  /** One more failure, counted after dropping a map that is full. */
  function Bump(m: map<string, nat>, key: string): map<string, nat> {
    var room := if |m| >= MAX_ENTRIES then map[] else m;
    room[key := Get(room, key) + 1]
  }

  function BumpFails(c: Counters, task: string): Counters {
    c.(fails := Bump(c.fails, task), reasons := if |c.fails| >= MAX_ENTRIES then map[] else c.reasons)
  }

  function ClearTask(c: Counters, task: string): Counters {
    c.(fails := c.fails - {task}, reasons := c.reasons - {task}, active := "")
  }

  // ---------------------------------------------------------------- finding work

  predicate AssignableTo(task: Task, username: string) {
    task.assignTo.None? || task.assignTo.value == [] || username in task.assignTo.value
  }

  /** The tasks that the agent may claim, in the order of the lists. */
  function OfTasks(project: int, tasks: seq<Task>, username: string): seq<(string, int)> {
    if tasks == [] then []
    else
      var rest := OfTasks(project, tasks[..|tasks| - 1], username);
      var task := tasks[|tasks| - 1];
      if AssignableTo(task, username) && task.id != "" then rest + [(task.id, project)] else rest
  }

  function OfRun(project: int, run: RunView, username: string): seq<(string, int)> {
    match run
    case None => []
    case Some(tasks) => OfTasks(project, tasks, username)
  }

  function OfRuns(project: int, runs: seq<RunView>, username: string): seq<(string, int)> {
    if runs == [] then []
    else OfRuns(project, runs[..|runs| - 1], username) + OfRun(project, runs[|runs| - 1], username)
  }

  function OfProject(project: ProjectView, username: string): seq<(string, int)> {
    match project.runs
    case None => []
    case Some(runs) => OfRuns(project.id, runs, username)
  }

  function OfProjects(projects: seq<ProjectView>, username: string): seq<(string, int)> {
    if projects == [] then []
    else OfProjects(projects[..|projects| - 1], username) + OfProject(projects[|projects| - 1], username)
  }

  /** The first candidate that has not been refused too often, or no task. */
  function Pick(claimFails: map<string, nat>, candidates: seq<(string, int)>): (string, int)
    decreases |candidates|
  {
    if candidates == [] then ("", 0)
    else if Get(claimFails, candidates[0].0) < MAX_FAIL_STREAK then candidates[0]
    else Pick(claimFails, candidates[1..])
  }

  /** Every candidate is skipped. */
  ghost predicate AllSkipped(claimFails: map<string, nat>, candidates: seq<(string, int)>) {
    forall cand | cand in candidates :: Get(claimFails, cand.0) >= MAX_FAIL_STREAK
  }

  lemma {:induction false} PickAfterSkipped(claimFails: map<string, nat>, a: seq<(string, int)>, b: seq<(string, int)>)
    requires AllSkipped(claimFails, a)
    ensures Pick(claimFails, a + b) == Pick(claimFails, b)
    decreases |a|
  {
    if a == [] {
      assert a + b == b;
    } else {
      assert a[0] in a && (a + b)[0] == a[0];
      assert (a + b)[1..] == a[1..] + b;
      PickAfterSkipped(claimFails, a[1..], b);
    }
  }

  /** A pick in a list is a pick in every longer list. */
  lemma {:induction false} PickInFront(claimFails: map<string, nat>, a: seq<(string, int)>, b: seq<(string, int)>)
    requires !AllSkipped(claimFails, a)
    ensures Pick(claimFails, a + b) == Pick(claimFails, a)
    ensures Pick(claimFails, a) in a && Get(claimFails, Pick(claimFails, a).0) < MAX_FAIL_STREAK
    decreases |a|
  {
    if a != [] {
      assert (a + b)[0] == a[0];
      if Get(claimFails, a[0].0) >= MAX_FAIL_STREAK {
        assert (a + b)[1..] == a[1..] + b;
        assert a == [a[0]] + a[1..];
        PickInFront(claimFails, a[1..], b);
      }
    }
  }

  lemma {:induction false} OfTasksConcat(project: int, a: seq<Task>, b: seq<Task>, username: string)
    ensures OfTasks(project, a + b, username) == OfTasks(project, a, username) + OfTasks(project, b, username)
    decreases |b|
  {
    if b == [] {
      assert a + b == a;
    } else {
      assert (a + b)[..|a + b| - 1] == a + b[..|b| - 1];
      OfTasksConcat(project, a, b[..|b| - 1], username);
    }
  }

  lemma {:induction false} OfRunsConcat(project: int, a: seq<RunView>, b: seq<RunView>, username: string)
    ensures OfRuns(project, a + b, username) == OfRuns(project, a, username) + OfRuns(project, b, username)
    decreases |b|
  {
    if b == [] {
      assert a + b == a;
    } else {
      assert (a + b)[..|a + b| - 1] == a + b[..|b| - 1];
      OfRunsConcat(project, a, b[..|b| - 1], username);
      ConcatAssociates(OfRuns(project, a, username), OfRuns(project, b[..|b| - 1], username),
                       OfRun(project, b[|b| - 1], username));
    }
  }

  lemma {:induction false} OfProjectsConcat(a: seq<ProjectView>, b: seq<ProjectView>, username: string)
    ensures OfProjects(a + b, username) == OfProjects(a, username) + OfProjects(b, username)
    decreases |b|
  {
    if b == [] {
      assert a + b == a;
    } else {
      assert (a + b)[..|a + b| - 1] == a + b[..|b| - 1];
      OfProjectsConcat(a, b[..|b| - 1], username);
      ConcatAssociates(OfProjects(a, username), OfProjects(b[..|b| - 1], username), OfProject(b[|b| - 1], username));
    }
  }

  lemma NothingToPick(claimFails: map<string, nat>, candidates: seq<(string, int)>)
    requires AllSkipped(claimFails, candidates)
    ensures Pick(claimFails, candidates).0 == ""
  {
    PickAfterSkipped(claimFails, candidates, []);
    assert candidates + [] == candidates;
  }

  /** A pick in a part that only skipped candidates precede. */
  lemma FoundInPart(claimFails: map<string, nat>, front: seq<(string, int)>, part: seq<(string, int)>,
      rest: seq<(string, int)>)
    requires AllSkipped(claimFails, front) && !AllSkipped(claimFails, part)
    ensures !AllSkipped(claimFails, front + part + rest)
    ensures Pick(claimFails, front + part + rest) == Pick(claimFails, part)
  {
    PickAfterSkipped(claimFails, front, part + rest);
    PickInFront(claimFails, part, rest);
    assert front + part + rest == front + (part + rest);
    assert Pick(claimFails, part) in front + part + rest;
  }

  lemma FoundInRun(claimFails: map<string, nat>, project: int, tasks: seq<Task>, i: nat, username: string)
    requires i < |tasks| && AssignableTo(tasks[i], username) && tasks[i].id != ""
    requires Get(claimFails, tasks[i].id) < MAX_FAIL_STREAK
    requires AllSkipped(claimFails, OfTasks(project, tasks[..i], username))
    ensures var candidates := OfTasks(project, tasks, username);
      !AllSkipped(claimFails, candidates) && Pick(claimFails, candidates).0 == tasks[i].id
  {
    var here := [(tasks[i].id, project)];
    NextPrefix(tasks, i);
    OfTasksConcat(project, tasks[..i + 1], tasks[i + 1..], username);
    assert tasks == tasks[..i + 1] + tasks[i + 1..];
    assert here[0] in here;
    FoundInPart(claimFails, OfTasks(project, tasks[..i], username), here, OfTasks(project, tasks[i + 1..], username));
  }

  lemma OneMoreRun(project: int, runs: seq<RunView>, i: nat, username: string)
    requires i < |runs|
    ensures OfRuns(project, runs[..i + 1], username)
         == OfRuns(project, runs[..i], username) + OfRun(project, runs[i], username)
  {
    NextPrefix(runs, i);
  }

  lemma OneMoreProject(projects: seq<ProjectView>, i: nat, username: string)
    requires i < |projects|
    ensures OfProjects(projects[..i + 1], username)
         == OfProjects(projects[..i], username) + OfProject(projects[i], username)
  {
    NextPrefix(projects, i);
  }

  lemma {:induction false} OfRunsAround(project: int, runs: seq<RunView>, i: nat, username: string)
    requires i < |runs|
    ensures OfRuns(project, runs, username)
         == OfRuns(project, runs[..i], username) + OfRun(project, runs[i], username)
          + OfRuns(project, runs[i + 1..], username)
  {
    OneMoreRun(project, runs, i, username);
    SplitAt(runs, i + 1);
    OfRunsConcat(project, runs[..i + 1], runs[i + 1..], username);
  }

  lemma {:induction false} OfProjectsAround(projects: seq<ProjectView>, i: nat, username: string)
    requires i < |projects|
    ensures OfProjects(projects, username)
         == OfProjects(projects[..i], username) + OfProject(projects[i], username)
          + OfProjects(projects[i + 1..], username)
  {
    OneMoreProject(projects, i, username);
    SplitAt(projects, i + 1);
    OfProjectsConcat(projects[..i + 1], projects[i + 1..], username);
  }

  lemma {:induction false} FoundInProject(claimFails: map<string, nat>, project: int, runs: seq<RunView>, i: nat,
      username: string)
    requires i < |runs| && AllSkipped(claimFails, OfRuns(project, runs[..i], username))
    requires !AllSkipped(claimFails, OfRun(project, runs[i], username))
    ensures var candidates := OfRuns(project, runs, username);
      && !AllSkipped(claimFails, candidates)
      && Pick(claimFails, candidates) == Pick(claimFails, OfRun(project, runs[i], username))
  {
    OfRunsAround(project, runs, i, username);
    FoundInPart(claimFails, OfRuns(project, runs[..i], username), OfRun(project, runs[i], username),
                OfRuns(project, runs[i + 1..], username));
  }

  lemma FoundInList(claimFails: map<string, nat>, projects: seq<ProjectView>, i: nat, username: string)
    requires i < |projects| && AllSkipped(claimFails, OfProjects(projects[..i], username))
    requires !AllSkipped(claimFails, OfProject(projects[i], username))
    ensures var candidates := OfProjects(projects, username);
      && !AllSkipped(claimFails, candidates)
      && Pick(claimFails, candidates) == Pick(claimFails, OfProject(projects[i], username))
  {
    OfProjectsAround(projects, i, username);
    FoundInPart(claimFails, OfProjects(projects[..i], username), OfProject(projects[i], username),
                OfProjects(projects[i + 1..], username));
  }

  // ---------------------------------------------------------------- one iteration

  /** What one iteration did: the counters after it, the task it was about, whether
      the work was run, whether FailTask was called and with what reason. */
  datatype Iteration = Iteration(
    counters: Counters,
    task: string,
    processed: bool,
    failReason: Option<string>,
    outcome: Outcome)

  function FailTerminally(c: Counters, task: string, reason: string, failTask: Option<Error>): (Counters, Outcome) {
    match failTask
    case Some(error) => (c, Outcome(true, Some(error)))
    case None => (ClearTask(c, task), Outcome(true, None))
  }

  function ReportMiss(c: Counters, task: string, report: ReportReply): (Counters, Outcome) {
    match report
    case ReportFailed(error) => (BumpFails(c, task), Outcome(true, Some(error)))
    case Escalated => (ClearTask(c, task), Outcome(true, None))
    case Counted => (ClearTask(c, task), Outcome(true, None))
  }

  function AfterClaim(c: Counters, task: string, r: Replies): Iteration {
    if Get(c.fails, task) >= MAX_FAIL_STREAK then
      var reason := if task in c.reasons then c.reasons[task] else "";
      var (after, outcome) := FailTerminally(c, task, reason, r.failTask);
      Iteration(after, task, false, Some(reason), outcome)
    else
      match r.work
      case Submitted => Iteration(ClearTask(c, task), task, true, None, Outcome(true, None))
      case ContractMissed =>
        var (after, outcome) := ReportMiss(c, task, r.report);
        Iteration(after, task, true, None, outcome)
      case WorkFailed(error, message) =>
        var bumped := BumpFails(c, task);
        if bumped.fails[task] >= MAX_FAIL_STREAK then
          var noted := bumped.(reasons := bumped.reasons[task := message]);
          var (after, outcome) := FailTerminally(noted, task, message, r.failTask);
          Iteration(after, task, true, Some(message), outcome)
        else
          Iteration(bumped, task, true, None, Outcome(true, Some(error)))
  }

  function Iterate(c: Counters, username: string, r: Replies): Iteration {
    if r.projects.None? then
      Iteration(c, "", false, None, Outcome(false, Some(Transient)))
    else
      var task := Pick(c.claimFails, OfProjects(r.projects.value, username)).0;
      if task == "" then
        Iteration(c, "", false, None, Outcome(false, None))
      else
        match r.claim
        case RaceLost => Iteration(c, task, false, None, Outcome(false, None))
        case Refused(error) =>
          var claimFails := Bump(c.claimFails, task);
          Iteration(c.(claimFails := claimFails), task, false, None,
                    Outcome(false, if claimFails[task] >= MAX_FAIL_STREAK then None else Some(error)))
        case Claimed =>
          AfterClaim(c.(active := task, claimFails := c.claimFails - {task}), task, r)
  }

  /** The counters after iterations. */
  function After(c: Counters, username: string, rs: seq<Replies>): Counters {
    if rs == [] then c else Iterate(After(c, username, rs[..|rs| - 1]), username, rs[|rs| - 1]).counters
  }

  /** The iteration that the i-th replies lead to. */
  function At(c: Counters, username: string, rs: seq<Replies>, i: nat): Iteration
    requires i < |rs|
  {
    Iterate(After(c, username, rs[..i]), username, rs[i])
  }

  // ---------------------------------------------------------------- the backoff

  /** The pauses of the loop for outcomes in turn; the pause doubles up to a limit
      and starts over after an iteration that did its work without an error. */
  function Pauses(floor: nat, max: nat, outcomes: seq<Outcome>): seq<nat> {
    if outcomes == [] then []
    else
      var init := outcomes[..|outcomes| - 1];
      var rest := Pauses(floor, max, init);
      if Clean(outcomes[|outcomes| - 1]) then rest else rest + [NextPause(floor, max, init)]
  }

  predicate Clean(outcome: Outcome) {
    outcome.worked && outcome.error.None?
  }

  function NextPause(floor: nat, max: nat, outcomes: seq<Outcome>): nat {
    if outcomes == [] || Clean(outcomes[|outcomes| - 1]) then floor
    else
      var doubled := NextPause(floor, max, outcomes[..|outcomes| - 1]) * 2;
      if doubled > max then max else doubled
  }

  /** How many iterations have passed since the last clean one. */
  function SinceClean(outcomes: seq<Outcome>): nat {
    if outcomes == [] || Clean(outcomes[|outcomes| - 1]) then 0
    else SinceClean(outcomes[..|outcomes| - 1]) + 1
  }

  function Doubled(floor: nat, n: nat): nat {
    if n == 0 then floor else Doubled(floor, n - 1) * 2
  }

  /** The pause after n iterations that were not clean is the floor doubled n
      times, cut off at the maximum from the first doubling on. */
  lemma {:induction false} PauseIsCappedDoubling(floor: nat, max: nat, outcomes: seq<Outcome>)
    ensures var n := SinceClean(outcomes);
      NextPause(floor, max, outcomes)
      == if n == 0 || Doubled(floor, n) <= max then Doubled(floor, n) else max
    decreases |outcomes|
  {
    if outcomes != [] && !Clean(outcomes[|outcomes| - 1]) {
      PauseIsCappedDoubling(floor, max, outcomes[..|outcomes| - 1]);
    }
  }

  // ---------------------------------------------------------------- the object

  function OutcomesOf(c: Counters, username: string, rs: seq<Replies>): seq<Outcome> {
    if rs == [] then []
    else OutcomesOf(c, username, rs[..|rs| - 1]) + [At(c, username, rs, |rs| - 1).outcome]
  }

  ghost predicate Unfatal(outcomes: seq<Outcome>) {
    forall outcome | outcome in outcomes :: outcome.error != Some(NoCloneSource)
  }

  lemma OneMorePause(floor: nat, max: nat, outcomes: seq<Outcome>, outcome: Outcome)
    ensures var pause := NextPause(floor, max, outcomes);
      && Pauses(floor, max, outcomes + [outcome])
         == (if Clean(outcome) then Pauses(floor, max, outcomes) else Pauses(floor, max, outcomes) + [pause])
      && NextPause(floor, max, outcomes + [outcome])
         == if Clean(outcome) then floor else if pause * 2 > max then max else pause * 2
  {
    assert (outcomes + [outcome])[..|outcomes|] == outcomes;
  }

  /** Where the loop is after some replies: the counters, and outcomes none of which
      ended it. */
  ghost predicate Ran(c: Counters, username: string, rs: seq<Replies>, now: Counters, outcomes: seq<Outcome>) {
    now == After(c, username, rs) && outcomes == OutcomesOf(c, username, rs) && Unfatal(outcomes)
  }

  ghost predicate Paused(floor: nat, max: nat, outcomes: seq<Outcome>, backoff: nat, pauses: seq<nat>) {
    backoff == NextPause(floor, max, outcomes) && pauses == Pauses(floor, max, outcomes)
  }

  lemma RanOneMore(c: Counters, username: string, rs: seq<Replies>, n: nat, outcomes: seq<Outcome>)
    requires n < |rs| && Ran(c, username, rs[..n], After(c, username, rs[..n]), outcomes)
    ensures var it := Iterate(After(c, username, rs[..n]), username, rs[n]);
      && At(c, username, rs, n) == it && After(c, username, rs[..n + 1]) == it.counters
      && (it.outcome.error != Some(NoCloneSource)
          ==> Ran(c, username, rs[..n + 1], it.counters, outcomes + [it.outcome]))
  {
    NextPrefix(rs, n);
  }

  class Daemon {
    const username: string
    const pollFloor: nat
    const backoffMax: nat
    var claimFailStreak: map<string, nat>
    var failStreak: map<string, nat>
    var failReason: map<string, string>
    var activeClaim: string

    constructor (username: string, pollFloor: nat, backoffMax: nat)
      ensures this.username == username && Now() == FRESH
      ensures this.pollFloor == (if pollFloor == 0 then 1000 else pollFloor)
      ensures this.backoffMax == (if backoffMax == 0 then 30000 else backoffMax)
    {
      this.username := username;
      this.pollFloor := if pollFloor == 0 then 1000 else pollFloor;
      this.backoffMax := if backoffMax == 0 then 30000 else backoffMax;
      claimFailStreak, failStreak, failReason, activeClaim := map[], map[], map[], "";
    }

    function Now(): Counters
      reads this
    {
      Counters(claimFailStreak, failStreak, failReason, activeClaim)
    }

    method FindInRun(project: int, tasks: seq<Task>) returns (task: string)
      ensures var candidates := OfTasks(project, tasks, username);
        task == if AllSkipped(claimFailStreak, candidates) then "" else Pick(claimFailStreak, candidates).0
      ensures task == "" <==> AllSkipped(claimFailStreak, OfTasks(project, tasks, username))
    {
      for i := 0 to |tasks|
        invariant AllSkipped(claimFailStreak, OfTasks(project, tasks[..i], username))
      {
        NextPrefix(tasks, i);
        if AssignableTo(tasks[i], username) && tasks[i].id != ""
            && Get(claimFailStreak, tasks[i].id) < MAX_FAIL_STREAK {
          FoundInRun(claimFailStreak, project, tasks, i, username);
          return tasks[i].id;
        }
      }
      assert tasks[..|tasks|] == tasks;
      task := "";
    }

    method FindInProject(project: int, runs: seq<RunView>) returns (task: string)
      ensures var candidates := OfRuns(project, runs, username);
        task == if AllSkipped(claimFailStreak, candidates) then "" else Pick(claimFailStreak, candidates).0
      ensures task == "" <==> AllSkipped(claimFailStreak, OfRuns(project, runs, username))
    {
      for i := 0 to |runs|
        invariant AllSkipped(claimFailStreak, OfRuns(project, runs[..i], username))
      {
        OneMoreRun(project, runs, i, username);
        if runs[i].Some? {
          task := FindInRun(project, runs[i].value);
          if task != "" {
            FoundInProject(claimFailStreak, project, runs, i, username);
            return;
          }
        }
      }
      assert runs[..|runs|] == runs;
      task := "";
    }

    method FindWork(projects: seq<ProjectView>) returns (task: string)
      ensures task == Pick(claimFailStreak, OfProjects(projects, username)).0
    {
      for i := 0 to |projects|
        invariant AllSkipped(claimFailStreak, OfProjects(projects[..i], username))
      {
        OneMoreProject(projects, i, username);
        if projects[i].runs.Some? {
          task := FindInProject(projects[i].id, projects[i].runs.value);
          if task != "" {
            FoundInList(claimFailStreak, projects, i, username);
            return;
          }
        }
      }
      assert projects[..|projects|] == projects;
      NothingToPick(claimFailStreak, OfProjects(projects, username));
      task := "";
    }

    /** Counts a failure of the work, dropping full maps first. */
    method CountFailure(task: string)
      modifies this
      ensures Now() == BumpFails(old(Now()), task)
    {
      if |failStreak| >= MAX_ENTRIES {
        failStreak := map[];
        failReason := map[];
      }
      failStreak := failStreak[task := Get(failStreak, task) + 1];
    }

    /** Calls FailTask with a reason, which is what is sent. */
    method FailTaskTerminally(task: string, reason: string, failTask: Option<Error>)
      returns (outcome: Outcome, sent: Option<string>)
      modifies this
      ensures (Now(), outcome) == FailTerminally(old(Now()), task, reason, failTask) && sent == Some(reason)
    {
      sent := Some(reason);
      if failTask.Some? {
        outcome := Outcome(true, Some(failTask.value));
        return;
      }
      failStreak := failStreak - {task};
      failReason := failReason - {task};
      activeClaim := "";
      outcome := Outcome(true, None);
    }

    method ReportCitizenVerifyFail(task: string, report: ReportReply) returns (outcome: Outcome)
      modifies this
      ensures (Now(), outcome) == ReportMiss(old(Now()), task, report)
    {
      if report.ReportFailed? {
        CountFailure(task);
        return Outcome(true, Some(report.error));
      }
      failStreak := failStreak - {task};
      failReason := failReason - {task};
      activeClaim := "";
      outcome := Outcome(true, None);
    }

    /** One iteration of the loop: how it ended, the task it was about, whether the work
        was run, and the reason sent with a call of FailTask. */
    method RunOnce(r: Replies) returns (outcome: Outcome, task: string, processed: bool, failed: Option<string>)
      modifies this
      ensures Iteration(Now(), task, processed, failed, outcome) == Iterate(old(Now()), username, r)
    {
      task, processed, failed := "", false, None;
      if r.projects.None? {
        outcome := Outcome(false, Some(Transient));
        return;
      }
      task := FindWork(r.projects.value);
      if task == "" {
        outcome := Outcome(false, None);
        return;
      }
      if r.claim.RaceLost? {
        outcome := Outcome(false, None);
        return;
      }
      if r.claim.Refused? {
        if |claimFailStreak| >= MAX_ENTRIES {
          claimFailStreak := map[];
        }
        claimFailStreak := claimFailStreak[task := Get(claimFailStreak, task) + 1];
        if claimFailStreak[task] >= MAX_FAIL_STREAK {
          outcome := Outcome(false, None);
          return;
        }
        outcome := Outcome(false, Some(r.claim.error));
        return;
      }
      activeClaim := task;
      claimFailStreak := claimFailStreak - {task};
      outcome, processed, failed := WorkOn(task, r);
    }

    /** Works on a claimed task. */
    method WorkOn(task: string, r: Replies) returns (outcome: Outcome, processed: bool, failed: Option<string>)
      modifies this
      ensures Iteration(Now(), task, processed, failed, outcome) == AfterClaim(old(Now()), task, r)
    {
      processed, failed := false, None;
      if Get(failStreak, task) >= MAX_FAIL_STREAK {
        outcome, failed := FailTaskTerminally(task, if task in failReason then failReason[task] else "", r.failTask);
        return;
      }
      processed := true;
      if r.work.ContractMissed? {
        outcome := ReportCitizenVerifyFail(task, r.report);
        return;
      }
      if r.work.WorkFailed? {
        CountFailure(task);
        if failStreak[task] >= MAX_FAIL_STREAK {
          failReason := failReason[task := r.work.message];
          outcome, failed := FailTaskTerminally(task, failReason[task], r.failTask);
          return;
        }
        outcome := Outcome(true, Some(r.work.error));
        return;
      }
      failStreak := failStreak - {task};
      failReason := failReason - {task};
      activeClaim := "";
      outcome := Outcome(true, None);
    }

    /** The loop, for as many iterations as there are replies: the pauses taken, how
        many iterations they follow, and whether the next one ended the loop with an
        error that no retry can mend. */
    method Run(rs: seq<Replies>) returns (pauses: seq<nat>, n: nat, fatal: bool)
      modifies this
      ensures n <= |rs| && Unfatal(OutcomesOf(old(Now()), username, rs[..n]))
      ensures pauses == Pauses(pollFloor, backoffMax, OutcomesOf(old(Now()), username, rs[..n]))
      ensures fatal ==> n < |rs| && At(old(Now()), username, rs, n).outcome.error == Some(NoCloneSource)
      ensures !fatal ==> n == |rs|
      ensures Now() == After(old(Now()), username, if fatal then rs[..n + 1] else rs[..n])
    {
      pauses, n, fatal := [], 0, false;
      var backoff: nat := pollFloor;
      ghost var start, outcomes: seq<Outcome> := Now(), [];
      while n < |rs|
        invariant n <= |rs| && Ran(start, username, rs[..n], Now(), outcomes)
        invariant Paused(pollFloor, backoffMax, outcomes, backoff, pauses)
      {
        var outcome, _, _, _ := RunOnce(rs[n]);
        RanOneMore(start, username, rs, n, outcomes);
        if outcome.error == Some(NoCloneSource) {
          fatal := true;
          return;
        }
        OneMorePause(pollFloor, backoffMax, outcomes, outcome);
        outcomes := outcomes + [outcome];
        if outcome.worked && outcome.error.None? {
          backoff := pollFloor;
        } else {
          pauses := pauses + [backoff];
          backoff := backoff * 2;
          if backoff > backoffMax {
            backoff := backoffMax;
          }
        }
        n := n + 1;
      }
      assert rs[..n] == rs;
    }
  }
}
