/** Why each job ended as it did: in every interleaving the outcome of a job is decided by one
    moment of the run, and by nothing else. */
module SchedulerOutcomes {
  import opened FiniteMaps
  import opened Scheduler
  import opened SchedulerSafety
  import opened SchedulerRuns

  datatype Cause =
    | PassedCheck   // at the generation check the job was its scope's newest
    | FailedCheck   // at the generation check a newer one had been accepted
    | Erred         // the operation threw something else than a cancellation
    | GaveUp        // the wait was abandoned, the operation cancelled, or its result refused
    | Handled       // the cancellation handler ran

  /** The moment itself. */
  predicate Decides(s: State, step: Step, id: nat, cause: Cause) {
    && step.id == id && id in s.jobs
    && match cause
       case PassedCheck => step.CheckGeneration? && IsNewest(s, s.jobs[id])
       case FailedCheck => step.CheckGeneration? && !IsNewest(s, s.jobs[id])
       case Erred => step.ThrowError?
       case GaveUp => step.ThrowCancelled? || ((step.AbandonWait? || step.CheckToken?) && s.jobs[id].token)
       case Handled => step.CatchCancellation?
  }

  /** No submission of its scope was accepted after this one. */
  predicate IsNewest(s: State, job: Job) {
    job.scope in s.generations && s.generations[job.scope] == job.generation
  }

  /** Some step of the run was that moment. */
  predicate Happened(p: Policy, s: State, steps: seq<Step>, id: nat, cause: Cause)
    requires Possible(p, s, steps)
    decreases |steps|
  {
    steps != [] && (Decides(s, steps[0], id, cause) || Happened(p, Apply(p, s, steps[0]), steps[1..], id, cause))
  }

  /** Past its handlers: the outcome is decided. */
  predicate IsDecided(job: Job) {
    job.phase == Finishing || job.phase == Releasing || job.phase == Removing || job.phase == Delivering || job.phase == Done
  }

  /** What a job shows of it from then on. */
  predicate Shows(s: State, id: nat, cause: Cause) {
    id in s.jobs && JobShows(s.jobs[id], cause)
  }

  predicate JobShows(job: Job, cause: Cause) {
    match cause
    case PassedCheck => job.phase == Fresh || job.state == Completed
    case FailedCheck => job.phase == Phase.Superseded || job.state == Stale
    case Erred => job.phase == Erring || job.state == Failed
    case GaveUp => (job.phase == Caught && job.state != Stale) || job.state == Cancelled
    case Handled => IsDecided(job) && (job.state == Cancelled || job.state == Stale)
  }

  lemma CheckedIsListed(p: Policy, s: State, id: nat)
    requires Inv(p, s) && At(s, id, Uncancelled)
    ensures s.jobs[id].scope in s.generations
  {
    hide Counts, QueueBounded, Outcomes, ActiveOk, PassesOk, StaleOk, NumbersDistinct, NewestExists;
    assert !BeforeNumber(s.jobs[id]);
  }

  /** What the invariant says about the stepping job. */
  predicate StepKnown(s: State, step: Step) {
    && Enabled(s, step) && (step.id in s.jobs ==> StateOk(s.jobs[step.id]))
    && (step.CheckGeneration? ==> s.jobs[step.id].scope in s.generations)
  }

  lemma OwnPassedCheck(p: Policy, s: State, step: Step)
    requires StepKnown(s, step)
    ensures JobShows(JobAfter(p, s, step), PassedCheck) <==> Shows(s, step.id, PassedCheck) || Decides(s, step, step.id, PassedCheck)
  {
    hide Current, EventOf;
  }

  lemma OwnFailedCheck(p: Policy, s: State, step: Step)
    requires StepKnown(s, step)
    ensures JobShows(JobAfter(p, s, step), FailedCheck) <==> Shows(s, step.id, FailedCheck) || Decides(s, step, step.id, FailedCheck)
  {
    hide Current, EventOf;
  }

  lemma OwnErred(p: Policy, s: State, step: Step)
    requires StepKnown(s, step)
    ensures JobShows(JobAfter(p, s, step), Erred) <==> Shows(s, step.id, Erred) || Decides(s, step, step.id, Erred)
  {
    hide Current, EventOf;
  }

  lemma OwnGaveUp(p: Policy, s: State, step: Step)
    requires StepKnown(s, step)
    ensures JobShows(JobAfter(p, s, step), GaveUp) <==> Shows(s, step.id, GaveUp) || Decides(s, step, step.id, GaveUp)
  {
    hide Current, EventOf;
  }

  lemma OwnHandled(p: Policy, s: State, step: Step)
    requires StepKnown(s, step)
    ensures JobShows(JobAfter(p, s, step), Handled) <==> Shows(s, step.id, Handled) || Decides(s, step, step.id, Handled)
  {
    hide Current, EventOf;
  }

  lemma OwnStepShows(p: Policy, s: State, step: Step, cause: Cause)
    requires StepKnown(s, step)
    ensures JobShows(JobAfter(p, s, step), cause)
        <==> Shows(s, step.id, cause) || Decides(s, step, step.id, cause)
  {
    hide Enabled, StepKnown, JobAfter, JobShows, Decides;
    match cause
    case PassedCheck => OwnPassedCheck(p, s, step);
    case FailedCheck => OwnFailedCheck(p, s, step);
    case Erred => OwnErred(p, s, step);
    case GaveUp => OwnGaveUp(p, s, step);
    case Handled => OwnHandled(p, s, step);
  }

  lemma StepShows(p: Policy, s: State, step: Step, id: nat, cause: Cause)
    requires Inv(p, s) && Enabled(s, step)
    ensures Shows(Apply(p, s, step), id, cause) <==> Shows(s, id, cause) || Decides(s, step, id, cause)
  {
    hide Inv, Apply, JobAfter, StateOk, JobShows, IsNewest;
    if step.CheckGeneration? { CheckedIsListed(p, s, step.id); }
    OneJobMoves(p, s, step);
    StatesOk(p, s, step);
    hide Enabled;
    if step.id == id {
      OwnStepShows(p, s, step, cause);
    }
  }

  lemma StatesOk(p: Policy, s: State, step: Step)
    requires Inv(p, s)
    ensures step.id in s.jobs ==> StateOk(s.jobs[step.id])
  {
  }

  lemma {:induction false} RunShows(p: Policy, s: State, steps: seq<Step>, id: nat, cause: Cause)
    requires Inv(p, s) && Possible(p, s, steps)
    ensures Shows(After(p, s, steps), id, cause) <==> Shows(s, id, cause) || Happened(p, s, steps, id, cause)
    decreases |steps|
  {
    hide Inv, Apply, Enabled, Shows, Decides;
    if steps != [] {
      StepShows(p, s, steps[0], id, cause);
      StepInv(p, s, steps[0]);
      RunShows(p, Apply(p, s, steps[0]), steps[1..], id, cause);
    }
  }

  lemma DecidedShows(job: Job, cause: Cause)
    requires IsDecided(job)
    ensures JobShows(job, cause) <==> match cause
      case PassedCheck => job.state == Completed
      case FailedCheck => job.state == Stale
      case Erred => job.state == Failed
      case GaveUp => job.state == Cancelled
      case Handled => job.state == Cancelled || job.state == Stale
  {
  }

  /** In every interleaving: a job is completed exactly if at its generation check it was the
      newest of its scope, stale exactly if it was not, failed exactly if its operation threw an
      error, and cancelled exactly if its operation threw a cancellation or its token was found
      cancelled during its wait or after its operation returned. The cancellation handler runs for
      exactly the stale and the cancelled. */
  lemma OutcomeExplained(p: Policy, steps: seq<Step>, id: nat)
    requires Possible(p, Initial(p), steps)
    requires id in After(p, Initial(p), steps).jobs && IsDecided(After(p, Initial(p), steps).jobs[id])
    ensures var state := After(p, Initial(p), steps).jobs[id].state;
      && (state == Completed <==> Happened(p, Initial(p), steps, id, PassedCheck))
      && (state == Stale <==> Happened(p, Initial(p), steps, id, FailedCheck))
      && (state == Failed <==> Happened(p, Initial(p), steps, id, Erred))
      && (state == Cancelled <==> Happened(p, Initial(p), steps, id, GaveUp))
      && (state == Cancelled || state == Stale <==> Happened(p, Initial(p), steps, id, Handled))
  {
    hide Inv, Possible, After, Happened, JobShows, IsDecided;
    var start, job := Initial(p), After(p, Initial(p), steps).jobs[id];
    InitialInv(p);
    RunShows(p, start, steps, id, PassedCheck);
    RunShows(p, start, steps, id, FailedCheck);
    RunShows(p, start, steps, id, Erred);
    RunShows(p, start, steps, id, GaveUp);
    RunShows(p, start, steps, id, Handled);
    DecidedShows(job, PassedCheck);
    DecidedShows(job, FailedCheck);
    DecidedShows(job, Erred);
    DecidedShows(job, GaveUp);
    DecidedShows(job, Handled);
  }

  // ---- Cancellation ----

  /** The token check has not been passed. */
  predicate Cancellable(job: Job) {
    && job.phase != Uncancelled && job.phase != Fresh && job.phase != Phase.Superseded
    && job.state != Completed && job.state != Stale
  }

  predicate Doomed(s: State, id: nat) {
    id in s.jobs && s.jobs[id].token && Cancellable(s.jobs[id])
  }

  lemma CancelDooms(p: Policy, s: State, id: nat)
    requires id in s.jobs && Cancellable(s.jobs[id])
    ensures Doomed(Apply(p, s, Cancel(id)), id)
  {
    OneJobMoves(p, s, Cancel(id));
    hide Apply;
  }

  lemma OwnStepDoomed(p: Policy, s: State, step: Step)
    requires Enabled(s, step) && Doomed(s, step.id)
    ensures JobAfter(p, s, step).token && Cancellable(JobAfter(p, s, step))
  {
    hide Current, EventOf, IsCurrent;
  }

  lemma StaysDoomed(p: Policy, s: State, step: Step, id: nat)
    requires Enabled(s, step) && Doomed(s, id)
    ensures Doomed(Apply(p, s, step), id)
  {
    OneJobMoves(p, s, step);
    hide Apply, Enabled, JobAfter, Cancellable;
    if step.id == id { OwnStepDoomed(p, s, step); }
  }

  lemma {:induction false} RunStaysDoomed(p: Policy, s: State, steps: seq<Step>, id: nat)
    requires Possible(p, s, steps) && Doomed(s, id)
    ensures Doomed(After(p, s, steps), id)
    decreases |steps|
  {
    hide Apply, Enabled, Doomed;
    if steps != [] {
      StaysDoomed(p, s, steps[0], id);
      RunStaysDoomed(p, Apply(p, s, steps[0]), steps[1..], id);
    }
  }

  /** A job cancelled before its result has passed the token check never completes and is never
      stale, whatever happens afterwards. */
  lemma CancelledInTime(p: Policy, s: State, id: nat, later: seq<Step>)
    requires id in s.jobs && Cancellable(s.jobs[id]) && Possible(p, Apply(p, s, Cancel(id)), later)
    ensures var t := After(p, Apply(p, s, Cancel(id)), later);
      && id in t.jobs && t.jobs[id].token
      && t.jobs[id].state != Completed && t.jobs[id].state != Stale
  {
    hide Apply, Possible, After;
    CancelDooms(p, s, id);
    RunStaysDoomed(p, Apply(p, s, Cancel(id)), later, id);
  }
}
