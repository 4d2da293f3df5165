/**
  Job rows and the two background tasks (apps/common/repositories.py, apps/assessments/tasks.py,
  apps/roadmaps/tasks.py): what a chain of retried executions leaves in the job row and in the row it works on.
*/
module Jobs {
  import opened Common
  import opened Retry

  datatype JobStatus = JobPending | JobRunning | JobCompleted | JobFailed | JobDeadLetter

  datatype Job = Job(status: JobStatus, attempts: nat, lastError: Option<string>,
                     startedAt: Option<int>, completedAt: Option<int>)

  function MarkedRunning(j: Job, now: int): Job {
    if j.status.JobCompleted? then j else j.(status := JobRunning, attempts := j.attempts + 1, startedAt := Some(now))
  }

  function MarkedPendingRetry(j: Job, error: string): Job {
    if j.status.JobCompleted? then j else j.(status := JobPending, lastError := Some(error))
  }

  function StartedBy(j: Job, now: int): Option<int> {
    if j.startedAt.None? then Some(now) else j.startedAt
  }

  function MarkedCompleted(j: Job, now: int): Job {
    j.(status := JobCompleted, lastError := None, completedAt := Some(now), startedAt := StartedBy(j, now))
  }

  function MarkedFailed(j: Job, error: string, now: int, deadLetter: bool): Job {
    j.(status := if deadLetter then JobDeadLetter else JobFailed, lastError := Some(error),
       completedAt := Some(now), startedAt := StartedBy(j, now))
  }

  /** The assessment or the roadmap that a job works on; hasResult is its stored score, or its steps. */
  datatype WorkStatus = WorkPending | WorkRunning | WorkCompleted | WorkFailed
  datatype Work = Work(status: WorkStatus, hasResult: bool)

  datatype Kind = ScoreJob | RoadmapJob

  datatype State = State(job: Job, work: Work)

  predicate Ready(w: Work) { w == Work(WorkCompleted, true) }

  // --------------------------------------------------------------- one execution

  /**
    Where an execution raises, relative to its commits. marked: the failing score computation could still be
    recorded as failed, and leaves says what it left stored.
  */
  datatype Point =
    | AtJobRunning(committed: bool)
    | BeforeWork
    | InWork(marked: bool, leaves: bool)
    | AfterWork(marked: bool)
    | AtJobCompleted(committed: bool)

  /** How far the failure handler gets before it raises itself, if it does. */
  datatype Reach = NoMark | JobMarked | AllMarked

  datatype Fault = Fault(point: Point, exception: Exception, message: string, reach: Reach)

  datatype Execution = Execution(now: int, fault: Option<Fault>)

  datatype Ending = Finished | DeadLettered | Retrying(seconds: int) | Abandoned

  function Started(kind: Kind, w: Work): Work {
    w.(status := if kind.ScoreJob? then WorkRunning else WorkPending)
  }

  /** A failing score computation records the failure at once; a failing roadmap leaves it to the handler. */
  function FailedWork(kind: Kind, w: Work, marked: bool, leaves: bool): Work {
    if kind.ScoreJob? && marked then Work(WorkFailed, leaves) else w
  }

  /** The state after the body of an execution, and whether it raised. Work that is ready is not done again. */
  function Body(kind: Kind, s: State, x: Execution): (State, bool) {
    var running := State(MarkedRunning(s.job, x.now), s.work);
    var point := if x.fault.Some? then Some(x.fault.value.point) else None;
    if point.Some? && point.value.AtJobRunning? then (if point.value.committed then running else s, true)
    else if point == Some(BeforeWork) then (running, true)
    else if !Ready(s.work) && point.Some? && point.value.InWork? then
      (running.(work := FailedWork(kind, Started(kind, s.work), point.value.marked, point.value.leaves)), true)
    else if !Ready(s.work) && point.Some? && point.value.AfterWork? then
      (running.(work := FailedWork(kind, Work(WorkCompleted, true), point.value.marked, true)), true)
    else
      var done := running.(work := Work(WorkCompleted, true));
      var completed := done.(job := MarkedCompleted(done.job, x.now));
      if point.Some? && point.value.AtJobCompleted? then (if point.value.committed then completed else done, true)
      else (completed, false)
  }

  function DecisionFor(kind: Kind, e: Exception, retries: nat, maxRetries: nat): Decision {
    if kind.ScoreJob? then ScoreDecision(e, retries, maxRetries) else RoadmapDecision(e, retries, maxRetries)
  }

  function Handled(kind: Kind, s: State, f: Fault, now: int, retries: nat, maxRetries: nat): (State, Ending) {
    var decision := DecisionFor(kind, f.exception, retries, maxRetries);
    var job := if decision.DeadLetter? then MarkedFailed(s.job, f.message, now, true)
               else MarkedPendingRetry(s.job, f.message);
    var work := if kind.RoadmapJob? && decision.DeadLetter? then s.work.(status := WorkFailed) else s.work;
    match f.reach
    case NoMark => (s, Abandoned)
    case JobMarked => (State(job, s.work), Abandoned)
    case AllMarked => (State(job, work), if decision.DeadLetter? then DeadLettered else Retrying(decision.seconds))
  }

  function Execute(kind: Kind, s: State, x: Execution, retries: nat, maxRetries: nat): (State, Ending) {
    var (after, raised) := Body(kind, s, x);
    if raised then Handled(kind, after, x.fault.value, x.now, retries, maxRetries) else (after, Finished)
  }

  // --------------------------------------------------------------- the rows and their workers

  class JobRow {
    var job: Job

    constructor ()
      ensures job == Job(JobPending, 0, None, None, None)
    {
      job := Job(JobPending, 0, None, None, None);
    }

    method MarkRunning(now: int)
      modifies this
      ensures job == MarkedRunning(old(job), now)
    {
      if job.status != JobCompleted {
        job := job.(status := JobRunning, attempts := job.attempts + 1, startedAt := Some(now));
      }
    }

    method MarkPendingRetry(error: string)
      modifies this
      ensures job == MarkedPendingRetry(old(job), error)
    {
      if job.status != JobCompleted {
        job := job.(status := JobPending, lastError := Some(error));
      }
    }

    method MarkCompleted(now: int)
      modifies this
      ensures job == MarkedCompleted(old(job), now)
    {
      job := job.(status := JobCompleted, lastError := None, completedAt := Some(now));
      if job.startedAt.None? {
        job := job.(startedAt := Some(now));
      }
    }

    /** Whatever the row said before, a completed job included. */
    method MarkFailed(error: string, now: int, deadLetter: bool)
      modifies this
      ensures job == MarkedFailed(old(job), error, now, deadLetter)
    {
      job := job.(status := if deadLetter then JobDeadLetter else JobFailed, lastError := Some(error),
                  completedAt := Some(now));
      if job.startedAt.None? {
        job := job.(startedAt := Some(now));
      }
    }
  }

  class Worker {
    const kind: Kind
    const row: JobRow
    var work: Work

    constructor (kind: Kind, row: JobRow)
      ensures this.kind == kind && this.row == row && work == Work(WorkPending, false)
    {
      this.kind, this.row, work := kind, row, Work(WorkPending, false);
    }

    function Current(): State reads this, row { State(row.job, work) }

    predicate RaisesAt(x: Execution, p: Point -> bool) {
      x.fault.Some? && p(x.fault.value.point)
    }

    /** The processing of the assessment or roadmap; true where it raises. */
    method Process(x: Execution) returns (raised: bool)
      modifies this
      ensures row.job == old(row.job)
      ensures old(Ready(work)) ==> !raised && work == old(work)
      ensures !old(Ready(work)) ==>
                raised == RaisesAt(x, (p: Point) => p.InWork? || p.AfterWork?)
                && work == if !raised then Work(WorkCompleted, true)
                           else if x.fault.value.point.InWork?
                           then FailedWork(kind, Started(kind, old(work)), x.fault.value.point.marked, x.fault.value.point.leaves)
                           else FailedWork(kind, Work(WorkCompleted, true), x.fault.value.point.marked, true)
    {
      if work == Work(WorkCompleted, true) {
        return false;
      }
      work := work.(status := if kind.ScoreJob? then WorkRunning else WorkPending);
      if x.fault.Some? && x.fault.value.point.InWork? {
        if kind.ScoreJob? && x.fault.value.point.marked {
          work := Work(WorkFailed, x.fault.value.point.leaves);
        }
        return true;
      }
      work := Work(WorkCompleted, true);
      if x.fault.Some? && x.fault.value.point.AfterWork? {
        if kind.ScoreJob? && x.fault.value.point.marked {
          work := work.(status := WorkFailed);
        }
        return true;
      }
      raised := false;
    }

    method HandleFailure(f: Fault, now: int, retries: nat, maxRetries: nat) returns (ending: Ending)
      modifies this, row
      ensures (Current(), ending) == Handled(kind, old(Current()), f, now, retries, maxRetries)
    {
      hide Pow2, IsDefinitive, IsTransient;
      if f.reach.NoMark? {
        return Abandoned;
      }
      var decision := DecisionFor(kind, f.exception, retries, maxRetries);
      if decision.DeadLetter? {
        row.MarkFailed(f.message, now, true);
      } else {
        row.MarkPendingRetry(f.message);
      }
      if f.reach.JobMarked? {
        return Abandoned;
      }
      if kind.RoadmapJob? && decision.DeadLetter? {
        work := work.(status := WorkFailed);
      }
      ending := if decision.DeadLetter? then DeadLettered else Retrying(decision.seconds);
    }

    /** One delivery of the job's message. */
    method RunTask(x: Execution, retries: nat, maxRetries: nat) returns (ending: Ending)
      modifies this, row
      ensures (Current(), ending) == Execute(kind, old(Current()), x, retries, maxRetries)
    {
      hide Handled, MarkedRunning, MarkedCompleted, FailedWork, Started;
      var at := x.fault;
      if at.Some? && at.value.point == AtJobRunning(false) {
        ending := HandleFailure(at.value, x.now, retries, maxRetries);
        return;
      }
      row.MarkRunning(x.now);
      if at.Some? && (at.value.point.AtJobRunning? || at.value.point.BeforeWork?) {
        ending := HandleFailure(at.value, x.now, retries, maxRetries);
        return;
      }
      var raised := Process(x);
      if raised {
        ending := HandleFailure(at.value, x.now, retries, maxRetries);
        return;
      }
      if at.Some? && at.value.point == AtJobCompleted(false) {
        ending := HandleFailure(at.value, x.now, retries, maxRetries);
        return;
      }
      row.MarkCompleted(x.now);
      if at.Some? && at.value.point.AtJobCompleted? {
        ending := HandleFailure(at.value, x.now, retries, maxRetries);
        return;
      }
      ending := Finished;
    }
  }

  // --------------------------------------------------------------- retried executions

  datatype Chain = Chain(state: State, executions: nat, backoff: int, ending: Ending, last: Execution)

  /** A task's executions, one after the other, until one is not retried; xs says what befalls each. */
  function Retried(kind: Kind, s: State, xs: seq<Execution>, retries: nat, maxRetries: nat): Chain
    requires |xs| > maxRetries - retries && retries <= maxRetries
    decreases |xs|
  {
    var (after, ending) := Execute(kind, s, xs[0], retries, maxRetries);
    if ending.Retrying? && retries < maxRetries then
      var rest := Retried(kind, after, xs[1..], retries + 1, maxRetries);
      rest.(executions := rest.executions + 1, backoff := rest.backoff + ending.seconds)
    else Chain(after, 1, 0, ending, xs[0])
  }

  /** What a recorded dead letter leaves: a roadmap is marked failed with its job, an assessment is not touched. */
  predicate DeadRows(kind: Kind, s: State) {
    s.job.status.JobDeadLetter? && (kind.RoadmapJob? ==> s.work.status.WorkFailed?)
  }

  /** One execution: when it may be retried, and what its ending says about the rows. */
  lemma ExecutionEnds(kind: Kind, s: State, x: Execution, retries: nat, maxRetries: nat)
    ensures var (s', ending) := Execute(kind, s, x, retries, maxRetries);
            (ending.Retrying? ==> retries < maxRetries && ending.seconds == Pow2(retries))
            && (ending.Finished? ==> s'.job.status.JobCompleted? && Ready(s'.work))
            && (ending.DeadLettered? ==> DeadRows(kind, s'))
            && (ending.DeadLettered? && retries < maxRetries ==> x.fault.Some? && IsDefinitive(x.fault.value.exception))
            && (ending.Abandoned? ==> x.fault.Some? && !x.fault.value.reach.AllMarked?)
            && s.job.attempts <= s'.job.attempts <= s.job.attempts + 1
  {
    if x.fault.Some? {
      HandlersAgree(x.fault.value.exception, retries, maxRetries, 1);
    }
    hide IsTransient, IsDefinitive, StartedBy, Pow2, ScoreDecision, RoadmapDecision;
    DecisionsRetryWithPow2(if x.fault.Some? then x.fault.value.exception else {}, retries, maxRetries);
  }

  lemma DecisionsRetryWithPow2(e: Exception, retries: nat, maxRetries: nat)
    ensures ScoreDecision(e, retries, maxRetries)
         == if IsDefinitive(e) || retries >= maxRetries then DeadLetter else RetryIn(Pow2(retries))
    ensures RoadmapDecision(e, retries, maxRetries) == ScoreDecision(e, retries, maxRetries)
  {
  }

  /**
    A task is executed at most maxRetries + 1 times, waits 2^(k - 1) - 1 seconds in all over its k executions,
    and ends: finished, with the job and its work completed; dead-lettered, by a definitive error or on its last
    try; or abandoned, when the failure handler itself raised.
  */
  lemma {:induction false} RetriesEnd(kind: Kind, s: State, xs: seq<Execution>, retries: nat, maxRetries: nat)
    requires |xs| > maxRetries - retries && retries <= maxRetries
    ensures var c := Retried(kind, s, xs, retries, maxRetries);
            1 <= c.executions <= maxRetries - retries + 1
            && c.backoff == Pow2(retries + c.executions - 1) - Pow2(retries)
            && !c.ending.Retrying?
            && (c.ending.Finished? ==> c.state.job.status.JobCompleted? && Ready(c.state.work))
            && (c.ending.DeadLettered? ==> DeadRows(kind, c.state))
            && (c.ending.DeadLettered? && c.executions <= maxRetries - retries ==>
                  c.last.fault.Some? && IsDefinitive(c.last.fault.value.exception))
            && (c.ending.Abandoned? ==> c.last.fault.Some? && !c.last.fault.value.reach.AllMarked?)
            && c.state.job.attempts <= s.job.attempts + c.executions
    decreases |xs|
  {
    ExecutionEnds(kind, s, xs[0], retries, maxRetries);
    hide Execute, Ready, IsDefinitive;
    var (after, ending) := Execute(kind, s, xs[0], retries, maxRetries);
    if ending.Retrying? {
      RetriesEnd(kind, after, xs[1..], retries + 1, maxRetries);
    }
  }

  lemma {:induction false} Pow2Grows(m: nat, n: nat)
    requires m <= n
    ensures Pow2(m) <= Pow2(n)
  {
    if m < n {
      Pow2Grows(m, n - 1);
    }
  }

  /** From the first delivery on: the total wait stays below 2^maxRetries seconds. */
  lemma BackoffIsBounded(kind: Kind, s: State, xs: seq<Execution>, maxRetries: nat)
    requires |xs| > maxRetries
    ensures Retried(kind, s, xs, 0, maxRetries).backoff
         == Pow2(Retried(kind, s, xs, 0, maxRetries).executions - 1) - 1
         <= Pow2(maxRetries) - 1
  {
    hide Execute, Retried;
    RetriesEnd(kind, s, xs, 0, maxRetries);
    Pow2Grows(Retried(kind, s, xs, 0, maxRetries).executions - 1, maxRetries);
  }

  // --------------------------------------------------------------- the job row and its work agree

  /** A completed job's work is completed, with its result. */
  ghost predicate Agrees(s: State) {
    s.job.status.JobCompleted? ==> Ready(s.work)
  }

  lemma ExecutionKeepsAgreement(kind: Kind, s: State, x: Execution, retries: nat, maxRetries: nat)
    requires Agrees(s)
    ensures Agrees(Execute(kind, s, x, retries, maxRetries).0)
  {
    hide IsTransient, IsDefinitive, StartedBy, Pow2;
  }

  /** One delivery of some task for the job: several tasks may be dispatched for it, one after the other. */
  datatype Delivery = Delivery(execution: Execution, retries: nat, maxRetries: nat)

  function Deliveries(kind: Kind, s: State, ds: seq<Delivery>): State
    decreases |ds|
  {
    if ds == [] then s
    else Deliveries(kind, Execute(kind, s, ds[0].execution, ds[0].retries, ds[0].maxRetries).0, ds[1..])
  }

  const NEW := State(Job(JobPending, 0, None, None, None), Work(WorkPending, false))

  lemma {:induction false} DeliveriesKeepAgreement(kind: Kind, s: State, ds: seq<Delivery>)
    requires Agrees(s)
    ensures Agrees(Deliveries(kind, s, ds))
    decreases |ds|
  {
    if ds != [] {
      var d := ds[0];
      ExecutionKeepsAgreement(kind, s, d.execution, d.retries, d.maxRetries);
      hide Execute, Agrees;
      DeliveriesKeepAgreement(kind, Execute(kind, s, d.execution, d.retries, d.maxRetries).0, ds[1..]);
    }
  }

  /** Whatever executions a job sees, in any number of tasks: completed means its work is there. */
  lemma CompletedJobHasItsResult(kind: Kind, ds: seq<Delivery>)
    ensures Deliveries(kind, NEW, ds).job.status.JobCompleted? ==> Ready(Deliveries(kind, NEW, ds).work)
  {
    DeliveriesKeepAgreement(kind, NEW, ds);
  }

  /**
    On a completed job, whose work is not done again: the execution raises outside the work, and its handler gets to
    record a dead letter.
  */
  ghost predicate DeadLettersCompleted(x: Execution, retries: nat, maxRetries: nat) {
    x.fault.Some? && !x.fault.value.reach.NoMark?
    && !x.fault.value.point.InWork? && !x.fault.value.point.AfterWork?
    && (IsDefinitive(x.fault.value.exception) || retries >= maxRetries)
  }

  /**
    A score once computed stays, since completed assessments are not processed again. A completed job does not
    stay completed: it leaves that status exactly when an execution raises and its handler gets to record a dead letter.
  */
  lemma CompletedJobIsLostExactlyByDeadLetter(s: State, x: Execution, retries: nat, maxRetries: nat)
    requires Agrees(s) && s.job.status.JobCompleted?
    ensures var s' := Execute(ScoreJob, s, x, retries, maxRetries).0;
            s'.work == s.work
            && (s'.job.status != JobCompleted <==> DeadLettersCompleted(x, retries, maxRetries))
  {
    if x.fault.Some? {
      DecisionsRetryWithPow2(x.fault.value.exception, retries, maxRetries);
    }
    hide IsTransient, IsDefinitive, StartedBy, Pow2, ScoreDecision, RoadmapDecision;
  }

  /**
    A completed roadmap job is lost under the same condition. Its handler then fails the roadmap too, unless it raises
    between the two marks; nothing else changes a roadmap whose job is completed.
  */
  lemma CompletedRoadmapIsLostExactlyByDeadLetter(s: State, x: Execution, retries: nat, maxRetries: nat)
    requires Agrees(s) && s.job.status.JobCompleted?
    ensures var s' := Execute(RoadmapJob, s, x, retries, maxRetries).0;
            var lost := DeadLettersCompleted(x, retries, maxRetries);
            (s'.job.status != JobCompleted <==> lost)
            && s'.work == if lost && x.fault.value.reach.AllMarked? then Work(WorkFailed, true) else s.work
  {
    if x.fault.Some? {
      DecisionsRetryWithPow2(x.fault.value.exception, retries, maxRetries);
    }
    hide IsTransient, IsDefinitive, StartedBy, Pow2, ScoreDecision, RoadmapDecision;
  }
}
