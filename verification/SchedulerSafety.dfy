/** What holds of the scheduler in every interleaving. */
module SchedulerSafety {
  import opened FiniteMaps
  import opened Scheduler

  // ---- Counters are head counts ----

  /** Counted in `queued`. */
  predicate InQueue(j: Job) {
    match j.phase
    case Counted(_) => true
    case Rejecting => true
    case Admitted => true
    case Numbered => true
    case Waiting => true
    case Entered => true
    case Caught => !j.entered
    case Finishing => !j.entered
    case _ => false
  }

  /** Counted in `running`. */
  predicate InRunning(j: Job) {
    match j.phase
    case Executing => true
    case Returned => true
    case Uncancelled => true
    case Fresh => true
    case Superseded => true
    case Caught => j.entered
    case Erring => true
    case Finishing => j.entered
    case _ => false
  }

  /** Between acquiring and releasing a slot. */
  predicate HoldsSlot(j: Job) {
    match j.phase
    case Entered => true
    case LeftQueue => true
    case Executing => true
    case Returned => true
    case Uncancelled => true
    case Fresh => true
    case Superseded => true
    case Caught => j.entered
    case Erring => true
    case Finishing => j.entered
    case Releasing => true
    case _ => false
  }

  /** Turned away: counted while over capacity, count not yet taken back. */
  predicate TurnedAway(p: Policy, j: Job) {
    j.phase == Rejecting || (j.phase.Counted? && j.phase.seen > p.maximumQueuedJobs)
  }

  function Turned(p: Policy): Job -> bool {
    (j: Job) => TurnedAway(p, j)
  }

  /** Accepted, or certain to be accepted, and still counted as queued. */
  function Accepted(p: Policy): Job -> bool {
    (j: Job) => InQueue(j) && !TurnedAway(p, j)
  }

  function InState(state: JobState): Job -> bool {
    (j: Job) => j.state == state
  }

  /** Took a generation in `scope`. */
  function NumberedIn(scope: string): Job -> bool {
    (j: Job) => j.scope == scope && j.generation > 0
  }

  /** The local flag agrees with the phase. */
  predicate EnteredOk(j: Job) {
    match j.phase
    case Counted(_) => !j.entered
    case Rejecting => !j.entered
    case Rejected => !j.entered
    case Admitted => !j.entered
    case Numbered => !j.entered
    case Waiting => !j.entered
    case Caught => true
    case Finishing => true
    case Removing => true
    case Delivering => true
    case Done => true
    case _ => j.entered
  }

  ghost predicate Counts(p: Policy, s: State) {
    && s.queued == Count(s.jobs, InQueue)
    && s.running == Count(s.jobs, InRunning)
    && s.permits + Count(s.jobs, HoldsSlot) == p.maximumConcurrency
    && s.permits >= 0
    && (forall id :: id in s.jobs ==> EnteredOk(s.jobs[id]))
  }

  lemma OneJobMoves(p: Policy, s: State, step: Step)
    requires Enabled(s, step)
    ensures step.id in Apply(p, s, step).jobs
    ensures Apply(p, s, step).jobs == s.jobs[step.id := JobAfter(p, s, step)]
  {
    hide QueuedAfter, RunningAfter, PermitsAfter, CompletedAfter, CancelledAfter, StaleAfter, FailedAfter, GenerationsAfter, ActiveAfter, PassedAfter, CountedAfter, DeliveredAfter, JobAfter, IsCurrent, EventOf, Current;
  }

  function Unit(b: bool): int {
    if b then 1 else 0
  }

  /** The contribution of one job before a step; a new submission contributes nothing. */
  function Share(s: State, id: nat, p: Job -> bool): int {
    Unit(id in s.jobs && p(s.jobs[id]))
  }

  /** The flag of the stepping job, when it exists, agrees with its phase. */
  predicate StepReady(s: State, step: Step) {
    Enabled(s, step) && (step.id in s.jobs ==> EnteredOk(s.jobs[step.id]))
  }

  lemma EnteredKept(p: Policy, s: State, step: Step)
    requires StepReady(s, step)
    ensures EnteredOk(JobAfter(p, s, step))
  {
    hide IsCurrent, EventOf, Current, Apply, StateAfter;
  }

  /** Every shared counter moves exactly as the stepping job's own contribution does. */
  lemma QueuedFollows(p: Policy, s: State, step: Step)
    requires StepReady(s, step)
    ensures Apply(p, s, step).queued - s.queued == Unit(InQueue(JobAfter(p, s, step))) - Share(s, step.id, InQueue)
  {
    hide RunningAfter, PermitsAfter, CompletedAfter, CancelledAfter, StaleAfter, FailedAfter, GenerationsAfter, ActiveAfter, PassedAfter, CountedAfter, DeliveredAfter, InRunning, HoldsSlot, IsCurrent, EventOf, Current, StateAfter;
  }

  lemma RunningFollows(p: Policy, s: State, step: Step)
    requires StepReady(s, step)
    ensures Apply(p, s, step).running - s.running == Unit(InRunning(JobAfter(p, s, step))) - Share(s, step.id, InRunning)
  {
    hide QueuedAfter, PermitsAfter, CompletedAfter, CancelledAfter, StaleAfter, FailedAfter, GenerationsAfter, ActiveAfter, PassedAfter, CountedAfter, DeliveredAfter, InQueue, HoldsSlot, IsCurrent, EventOf, Current, StateAfter;
  }

  lemma PermitsFollow(p: Policy, s: State, step: Step)
    requires StepReady(s, step)
    ensures s.permits - Apply(p, s, step).permits == Unit(HoldsSlot(JobAfter(p, s, step))) - Share(s, step.id, HoldsSlot)
    ensures s.permits >= 0 ==> Apply(p, s, step).permits >= 0
  {
    hide QueuedAfter, RunningAfter, CompletedAfter, CancelledAfter, StaleAfter, FailedAfter, GenerationsAfter, ActiveAfter, PassedAfter, CountedAfter, DeliveredAfter, InQueue, InRunning, IsCurrent, EventOf, Current, StateAfter;
  }

  lemma CountsKept(p: Policy, s: State, step: Step)
    requires Counts(p, s) && Enabled(s, step)
    ensures Counts(p, Apply(p, s, step))
  {
    OneJobMoves(p, s, step);
    EnteredKept(p, s, step);
    QueuedFollows(p, s, step);
    RunningFollows(p, s, step);
    PermitsFollow(p, s, step);
    var job := JobAfter(p, s, step);
    hide Count, Apply, JobAfter, Enabled, InQueue, InRunning, HoldsSlot, EnteredOk;
    CountUpdate(s.jobs, step.id, job, InQueue);
    CountUpdate(s.jobs, step.id, job, InRunning);
    CountUpdate(s.jobs, step.id, job, HoldsSlot);
  }

  lemma {:induction false} CountWithin(m: map<nat, Job>, p: Job -> bool, q: Job -> bool)
    requires forall id :: id in m && p(m[id]) ==> q(m[id])
    ensures Count(m, p) <= Count(m, q)
  {
    assert Hits(m, p) <= Hits(m, q);
    SubsetSize(Hits(m, p), Hits(m, q));
  }

  lemma {:induction false} SubsetSize(a: set<nat>, b: set<nat>)
    requires a <= b
    ensures |a| <= |b|
  {
    if x :| x in a { SubsetSize(a - {x}, b - {x}); }
  }

  lemma CountSplit(m: map<nat, Job>, p: Job -> bool, q: Job -> bool, r: Job -> bool)
    requires forall id :: id in m ==> (p(m[id]) <==> q(m[id]) || r(m[id])) && !(q(m[id]) && r(m[id]))
    ensures Count(m, p) == Count(m, q) + Count(m, r)
  {
    assert Hits(m, p) == Hits(m, q) + Hits(m, r);
    assert Hits(m, q) !! Hits(m, r);
  }

  /** Accepted jobs that still wait never exceed the queue capacity. */
  ghost predicate QueueBounded(p: Policy, s: State) {
    Count(s.jobs, Accepted(p)) <= p.maximumQueuedJobs
  }

  /** Only a submission within capacity becomes an accepted waiting job. */
  lemma AcceptedFollows(p: Policy, s: State, step: Step)
    requires StepReady(s, step)
    ensures var job := JobAfter(p, s, step);
      && (step.Submit? ==> Apply(p, s, step).queued == s.queued + 1
                           && (Accepted(p)(job) ==> s.queued + 1 <= p.maximumQueuedJobs))
      && (!step.Submit? && Accepted(p)(job) ==> Share(s, step.id, Accepted(p)) == 1)
  {
  }

  lemma QueueBoundKept(p: Policy, s: State, step: Step)
    requires Counts(p, s) && QueueBounded(p, s) && Enabled(s, step)
    ensures QueueBounded(p, Apply(p, s, step))
  {
    OneJobMoves(p, s, step);
    AcceptedFollows(p, s, step);
    CountsKept(p, s, step);
    var t, job := Apply(p, s, step), JobAfter(p, s, step);
    assert t.queued == Count(t.jobs, InQueue);
    CountUpdate(s.jobs, step.id, job, Accepted(p));
    if step.Submit? && Accepted(p)(job) {
      CountWithin(t.jobs, Accepted(p), InQueue);
    }
    hide Count, Apply, JobAfter, Enabled, InQueue, EnteredOk, Counts;
  }

  // ---- Outcomes ----

  /** A job has a terminal state exactly when its outcome has been counted. */
  predicate StateOk(j: Job) {
    match j.phase
    case Executing => j.state == Running
    case Returned => j.state == Running
    case Uncancelled => j.state == Running
    case Fresh => j.state == Running
    case Superseded => j.state == Running
    case Erring => j.state == Running
    case Caught => j.state == Queued || j.state == Running || j.state == Stale
    case Finishing => Terminal(j)
    case Releasing => Terminal(j)
    case Removing => Terminal(j)
    case Delivering => Terminal(j)
    case Done => Terminal(j)
    case _ => j.state == Queued
  }

  predicate Terminal(j: Job) {
    j.state != Queued && j.state != Running
  }

  ghost predicate Outcomes(s: State) {
    && s.completed == Count(s.jobs, InState(Completed))
    && s.cancelled == Count(s.jobs, InState(Cancelled))
    && s.stale == Count(s.jobs, InState(Stale))
    && s.failed == Count(s.jobs, InState(Failed))
    && (forall id :: id in s.jobs ==> StateOk(s.jobs[id]))
  }

  predicate StateReady(s: State, step: Step) {
    Enabled(s, step) && (step.id in s.jobs ==> StateOk(s.jobs[step.id]))
  }

  lemma StateOkKept(p: Policy, s: State, step: Step)
    requires StateReady(s, step)
    ensures StateOk(JobAfter(p, s, step))
  {
    hide IsCurrent, EventOf, Current, Apply;
  }

  /** Only a submission introduces a job. */
  lemma SubmitIsNew(s: State, step: Step)
    requires Enabled(s, step)
    ensures step.Submit? <==> step.id !in s.jobs
  {
    hide IsCurrent, Current, EventOf;
  }

  /** The lifecycle states in which an outcome can still be assigned. */
  lemma StateBefore(s: State, step: Step)
    requires StateReady(s, step) && !step.Submit?
    ensures step.Complete? || step.CatchError? || step.MarkStale? ==> s.jobs[step.id].state == Running
    ensures step.EnterRunning? ==> s.jobs[step.id].state == Queued
    ensures step.CatchCancellation? ==> s.jobs[step.id].state == Queued || s.jobs[step.id].state == Running
                                        || s.jobs[step.id].state == Stale
  {
  }

  lemma CompletedFollows(p: Policy, s: State, step: Step)
    requires StateReady(s, step)
    ensures Apply(p, s, step).completed - s.completed
         == Unit(JobAfter(p, s, step).state == Completed) - Share(s, step.id, InState(Completed))
  {
    hide QueuedAfter, RunningAfter, PermitsAfter, CancelledAfter, StaleAfter, FailedAfter, GenerationsAfter, ActiveAfter, PassedAfter, CountedAfter, DeliveredAfter, IsCurrent, EventOf, Current, PhaseAfter;
    SubmitIsNew(s, step);
    if !step.Submit? { StateBefore(s, step); }
    hide Enabled, StateOk;
  }

  lemma CancelledFollows(p: Policy, s: State, step: Step)
    requires StateReady(s, step)
    ensures Apply(p, s, step).cancelled - s.cancelled
         == Unit(JobAfter(p, s, step).state == Cancelled) - Share(s, step.id, InState(Cancelled))
  {
    hide QueuedAfter, RunningAfter, PermitsAfter, CompletedAfter, StaleAfter, FailedAfter, GenerationsAfter, ActiveAfter, PassedAfter, CountedAfter, DeliveredAfter, IsCurrent, EventOf, Current, PhaseAfter;
    SubmitIsNew(s, step);
    if !step.Submit? { StateBefore(s, step); }
    hide Enabled, StateOk;
  }

  lemma StaleCountFollows(p: Policy, s: State, step: Step)
    requires StateReady(s, step)
    ensures Apply(p, s, step).stale - s.stale
         == Unit(JobAfter(p, s, step).state == Stale) - Share(s, step.id, InState(Stale))
  {
    hide QueuedAfter, RunningAfter, PermitsAfter, CompletedAfter, CancelledAfter, FailedAfter, GenerationsAfter, ActiveAfter, PassedAfter, CountedAfter, DeliveredAfter, IsCurrent, EventOf, Current, PhaseAfter;
    SubmitIsNew(s, step);
    if !step.Submit? { StateBefore(s, step); }
    hide Enabled, StateOk;
  }

  lemma FailedFollows(p: Policy, s: State, step: Step)
    requires StateReady(s, step)
    ensures Apply(p, s, step).failed - s.failed
         == Unit(JobAfter(p, s, step).state == Failed) - Share(s, step.id, InState(Failed))
  {
    hide QueuedAfter, RunningAfter, PermitsAfter, CompletedAfter, CancelledAfter, StaleAfter, GenerationsAfter, ActiveAfter, PassedAfter, CountedAfter, DeliveredAfter, IsCurrent, EventOf, Current, PhaseAfter;
    SubmitIsNew(s, step);
    if !step.Submit? { StateBefore(s, step); }
    hide Enabled, StateOk;
  }

  lemma OneOutcome(p: Policy, s: State, step: Step, state: JobState, before: int, after: int)
    requires Enabled(s, step) && before == Count(s.jobs, InState(state))
    requires after - before == Unit(JobAfter(p, s, step).state == state) - Share(s, step.id, InState(state))
    ensures after == Count(Apply(p, s, step).jobs, InState(state))
  {
    OneJobMoves(p, s, step);
    CountUpdate(s.jobs, step.id, JobAfter(p, s, step), InState(state));
    hide Count, Apply, JobAfter, Enabled;
  }

  lemma OutcomesKept(p: Policy, s: State, step: Step)
    requires Outcomes(s) && Enabled(s, step)
    ensures Outcomes(Apply(p, s, step))
  {
    hide Count, Share;
    var t := Apply(p, s, step);
    OneJobMoves(p, s, step);
    StateOkKept(p, s, step);
    CompletedFollows(p, s, step);
    CancelledFollows(p, s, step);
    StaleCountFollows(p, s, step);
    FailedFollows(p, s, step);
    hide Apply, JobAfter, Enabled, StateOk;
    OneOutcome(p, s, step, Completed, s.completed, t.completed);
    OneOutcome(p, s, step, Cancelled, s.cancelled, t.cancelled);
    OneOutcome(p, s, step, Stale, s.stale, t.stale);
    OneOutcome(p, s, step, Failed, s.failed, t.failed);
  }

  // ---- Registration ----

  predicate Registered(j: Job) {
    match j.phase
    case Counted(_) => false
    case Rejecting => false
    case Rejected => false
    case Admitted => false
    case Numbered => false
    case Delivering => false
    case Done => false
    case _ => true
  }

  ghost predicate ActiveOk(s: State) {
    forall id :: id in s.active <==> id in s.jobs && Registered(s.jobs[id])
  }

  lemma ActiveFollows(p: Policy, s: State, step: Step)
    requires Enabled(s, step)
    ensures var t := Apply(p, s, step);
      if step.Register? then t.active == s.active + {step.id} && Registered(JobAfter(p, s, step))
      else if step.Remove? then t.active == s.active - {step.id} && !Registered(JobAfter(p, s, step))
      else t.active == s.active
           && (Registered(JobAfter(p, s, step)) <==> step.id in s.jobs && Registered(s.jobs[step.id]))
  {
    hide QueuedAfter, RunningAfter, PermitsAfter, CompletedAfter, CancelledAfter, StaleAfter, FailedAfter, GenerationsAfter, PassedAfter, CountedAfter, DeliveredAfter, IsCurrent, EventOf, Current, StateAfter;
  }

  lemma ActiveKept(p: Policy, s: State, step: Step)
    requires ActiveOk(s) && Enabled(s, step)
    ensures ActiveOk(Apply(p, s, step))
  {
    hide Apply, JobAfter, Enabled, Registered;
    OneJobMoves(p, s, step);
    ActiveFollows(p, s, step);
  }

  // ---- Generations and checks ----

  predicate BeforeNumber(j: Job) {
    j.phase.Counted? || j.phase == Rejecting || j.phase == Rejected || j.phase == Admitted
  }

  /** Has passed the generation check. */
  predicate HasPassed(j: Job) {
    j.phase == Fresh || j.state == Completed
  }

  ghost predicate Newer(s: State, id: nat) {
    exists other :: NewerThan(s, other, id)
  }

  /** The job has a generation exactly from the moment it is numbered, and never a future one. */
  predicate Numbered(s: State, id: nat) {
    && id in s.jobs
    && (s.jobs[id].generation == 0 <==> BeforeNumber(s.jobs[id]))
    && s.jobs[id].generation <= Current(s, s.jobs[id].scope)
  }

  ghost predicate NumbersBounded(s: State) {
    forall id :: id in s.jobs ==> Numbered(s, id)
  }

  ghost predicate NumbersDistinct(s: State) {
    forall a, b :: a in s.jobs && b in s.jobs && a != b && s.jobs[a].generation > 0 && s.jobs[a].scope == s.jobs[b].scope
                   ==> s.jobs[a].generation != s.jobs[b].generation
  }

  ghost predicate NewestExists(s: State) {
    && (forall scope :: Current(s, scope) > 0 ==> exists id :: Owns(s, id, scope))
    && (forall scope :: scope in s.generations ==> s.generations[scope] > 0)
  }

  /** Generations number the accepted submissions of a scope, and only those. */
  ghost predicate NumbersOk(s: State) {
    NumbersBounded(s) && NumbersDistinct(s) && NewestExists(s)
  }

  /** `id` is the newest submission of `scope`. */
  predicate Owns(s: State, id: nat, scope: string) {
    id in s.jobs && s.jobs[id].scope == scope && s.jobs[id].generation == Current(s, scope)
  }

  predicate Increasing(events: seq<Event>) {
    forall i, j :: 0 <= i < j < |events| && events[i].scope == events[j].scope
      ==> events[i].generation < events[j].generation
  }

  ghost predicate PassesOk(s: State) {
    && Increasing(s.passed)
    && (forall e :: e in s.passed ==> e.id in s.jobs && HasPassed(s.jobs[e.id]) && EventOf(s, e.id) == e)
  }

  /** A stale job was overtaken by a later accepted submission of its scope. */
  ghost predicate StaleOk(s: State) {
    forall id :: id in s.jobs && (s.jobs[id].phase == Superseded || s.jobs[id].state == Stale) ==> Newer(s, id)
  }

  /** Only a submission and the numbering itself cross the line between the phases before and
      after a job is numbered. */
  lemma BeforeNumberFollows(p: Policy, s: State, step: Step)
    requires Enabled(s, step)
    ensures step.Submit? ==> BeforeNumber(JobAfter(p, s, step))
    ensures step.Bump? ==> !BeforeNumber(JobAfter(p, s, step)) && BeforeNumber(s.jobs[step.id])
    ensures !step.Submit? && !step.Bump? ==> (BeforeNumber(JobAfter(p, s, step)) <==> BeforeNumber(s.jobs[step.id]))
  {
    hide IsCurrent, EventOf, Current, StateAfter;
  }

  /** Scope and generation of a job change only when it is submitted and numbered. */
  lemma NumbersFollow(p: Policy, s: State, step: Step)
    requires Enabled(s, step)
    ensures var t, job := Apply(p, s, step), JobAfter(p, s, step);
      if step.Submit? then
        t.generations == s.generations && job.generation == 0 && BeforeNumber(job)
      else if step.Bump? then
        && job.scope == s.jobs[step.id].scope && job.generation == Current(s, job.scope) + 1
        && !BeforeNumber(job) && BeforeNumber(s.jobs[step.id])
        && t.generations == s.generations[job.scope := job.generation]
      else
        && t.generations == s.generations && job.scope == s.jobs[step.id].scope
        && job.generation == s.jobs[step.id].generation
        && (BeforeNumber(job) <==> BeforeNumber(s.jobs[step.id]))
  {
    hide QueuedAfter, RunningAfter, PermitsAfter, CompletedAfter, CancelledAfter, StaleAfter, FailedAfter, ActiveAfter,
         PassedAfter, CountedAfter, DeliveredAfter, IsCurrent, EventOf, StateAfter, PhaseAfter, BeforeNumber;
    SubmitIsNew(s, step);
    BeforeNumberFollows(p, s, step);
    hide Enabled;
  }

  lemma NewestOwned(p: Policy, s: State, step: Step, scope: string)
    requires NumbersOk(s) && Enabled(s, step) && Current(Apply(p, s, step), scope) > 0
    ensures exists id :: Owns(Apply(p, s, step), id, scope)
  {
    hide NumbersBounded, NumbersDistinct;
    if step.Bump? && scope == s.jobs[step.id].scope {
      BumpOwns(p, s, step);
    } else {
      OwnershipStays(p, s, step, scope);
    }
  }

  /** The job that takes a generation owns its scope. */
  lemma BumpOwns(p: Policy, s: State, step: Step)
    requires Enabled(s, step) && step.Bump?
    ensures Owns(Apply(p, s, step), step.id, s.jobs[step.id].scope)
  {
  }

  lemma OwnershipStays(p: Policy, s: State, step: Step, scope: string)
    requires NewestExists(s) && Enabled(s, step) && Current(Apply(p, s, step), scope) > 0
    requires step.Bump? ==> scope != s.jobs[step.id].scope
    ensures exists id :: Owns(Apply(p, s, step), id, scope)
  {
    var t := Apply(p, s, step);
    OneJobMoves(p, s, step);
    NumbersFollow(p, s, step);
    assert step.Submit? ==> step.id !in s.jobs;
    hide Apply, JobAfter, Enabled, BeforeNumber;
    assert Current(s, scope) == Current(t, scope);
    var id :| Owns(s, id, scope);
    assert Owns(t, id, scope);
  }

  lemma OtherStaysNumbered(p: Policy, s: State, step: Step, id: nat)
    requires Numbered(s, id) && Enabled(s, step) && id != step.id
    ensures Numbered(Apply(p, s, step), id)
  {
    OneJobMoves(p, s, step);
    NumbersFollow(p, s, step);
    hide Apply, JobAfter, Enabled, BeforeNumber;
  }

  lemma OwnStaysNumbered(p: Policy, s: State, step: Step)
    requires Enabled(s, step) && (!step.Submit? ==> Numbered(s, step.id))
    ensures Numbered(Apply(p, s, step), step.id)
  {
    OneJobMoves(p, s, step);
    NumbersFollow(p, s, step);
    hide Apply, JobAfter, Enabled, BeforeNumber;
  }

  lemma NumbersBoundedKept(p: Policy, s: State, step: Step)
    requires NumbersBounded(s) && Enabled(s, step)
    ensures NumbersBounded(Apply(p, s, step))
  {
    var t := Apply(p, s, step);
    OneJobMoves(p, s, step);
    hide Apply, JobAfter;
    forall id | id in t.jobs ensures Numbered(t, id) {
      if id == step.id {
        assert !step.Submit? ==> Numbered(s, id);
        OwnStaysNumbered(p, s, step);
      } else {
        assert Numbered(s, id);
        OtherStaysNumbered(p, s, step, id);
      }
    }
  }

  lemma NumbersDistinctKept(p: Policy, s: State, step: Step)
    requires NumbersBounded(s) && NumbersDistinct(s) && Enabled(s, step)
    ensures NumbersDistinct(Apply(p, s, step))
  {
    var t := Apply(p, s, step);
    OneJobMoves(p, s, step);
    hide Apply, JobAfter;
    forall a, b | a in t.jobs && b in t.jobs && a != b && t.jobs[a].generation > 0 && t.jobs[a].scope == t.jobs[b].scope
      ensures t.jobs[a].generation != t.jobs[b].generation
    {
      if a == step.id {
        assert Numbered(s, b);
        DistinctFromStepping(p, s, step, b);
      } else if b == step.id {
        assert Numbered(s, a);
        DistinctFromStepping(p, s, step, a);
      }
    }
  }

  /** A step never gives its job another job's number. */
  lemma DistinctFromStepping(p: Policy, s: State, step: Step, other: nat)
    requires NumbersDistinct(s) && Enabled(s, step) && other in s.jobs && other != step.id && Numbered(s, other)
    ensures var job := JobAfter(p, s, step);
      job.generation > 0 && job.scope == s.jobs[other].scope ==> job.generation != s.jobs[other].generation
  {
    SubmitIsNew(s, step);
    NumbersFollow(p, s, step);
    hide Apply, JobAfter, Enabled, BeforeNumber;
  }

  lemma NumbersKept(p: Policy, s: State, step: Step)
    requires NumbersOk(s) && Enabled(s, step)
    ensures NumbersOk(Apply(p, s, step))
  {
    NumbersBoundedKept(p, s, step);
    NumbersDistinctKept(p, s, step);
    var t := Apply(p, s, step);
    forall scope | Current(t, scope) > 0 ensures exists id :: Owns(t, id, scope) {
      NewestOwned(p, s, step, scope);
    }
    NumbersFollow(p, s, step);
    hide Apply, JobAfter, Enabled, BeforeNumber, Owns, NumbersBounded, NumbersDistinct;
  }

  /** Passing is permanent, and happens at the generation check only. */
  lemma HasPassedFollows(p: Policy, s: State, step: Step)
    requires Enabled(s, step) && (step.id in s.jobs ==> StateOk(s.jobs[step.id]))
    ensures var job := JobAfter(p, s, step);
      && (step.id in s.jobs && HasPassed(s.jobs[step.id]) ==> HasPassed(job))
      && (step.CheckGeneration? ==> !HasPassed(s.jobs[step.id]) && (HasPassed(job) <==> job.phase == Fresh)
                                    && (job.phase == Fresh <==> IsCurrent(s, s.jobs[step.id])))
      && (step.CheckGeneration? || !HasPassed(job) || (step.id in s.jobs && HasPassed(s.jobs[step.id])))
  {
    hide IsCurrent, Current, EventOf;
  }

  lemma PassesFollow(p: Policy, s: State, step: Step)
    requires Enabled(s, step) && (step.id in s.jobs ==> StateOk(s.jobs[step.id]))
    ensures var t, job := Apply(p, s, step), JobAfter(p, s, step);
      && (step.id in s.jobs && HasPassed(s.jobs[step.id]) ==> HasPassed(job))
      && (step.CheckGeneration? && job.phase == Fresh ==>
            && t.passed == s.passed + [EventOf(s, step.id)]
            && HasPassed(job) && !HasPassed(s.jobs[step.id])
            && IsCurrent(s, s.jobs[step.id]))
      && (!(step.CheckGeneration? && job.phase == Fresh) ==> t.passed == s.passed)
  {
    hide HasPassed, StateOk, JobAfter, IsCurrent, Current, QueuedAfter, RunningAfter, PermitsAfter, CompletedAfter,
         CancelledAfter, StaleAfter, FailedAfter, GenerationsAfter, ActiveAfter, CountedAfter, DeliveredAfter;
    HasPassedFollows(p, s, step);
  }

  lemma PassesKept(p: Policy, s: State, step: Step)
    requires NumbersOk(s) && PassesOk(s) && Outcomes(s) && Enabled(s, step)
    ensures PassesOk(Apply(p, s, step))
  {
    hide NumbersOk, Outcomes, JobAfter, HasPassed, Increasing;
    PassedJobsKept(p, s, step);
    PassesFollow(p, s, step) by { StateOkOf(s, step); }
    assert step.CheckGeneration? ==> At(s, step.id, Uncancelled);
    hide Apply, Enabled;
    if Apply(p, s, step).passed != s.passed {
      PassIsNewest(s, step.id);
    }
  }

  lemma StateOkOf(s: State, step: Step)
    requires Outcomes(s)
    ensures step.id in s.jobs ==> StateOk(s.jobs[step.id])
  {
  }

  /** A job that has passed keeps its scope and generation. */
  lemma PassedJobKept(p: Policy, s: State, step: Step)
    requires Outcomes(s) && Enabled(s, step) && step.id in s.jobs && HasPassed(s.jobs[step.id])
    ensures HasPassed(JobAfter(p, s, step))
    ensures JobAfter(p, s, step).scope == s.jobs[step.id].scope
    ensures JobAfter(p, s, step).generation == s.jobs[step.id].generation
  {
    StateOkOf(s, step);
    NumbersFollow(p, s, step);
    PassesFollow(p, s, step);
    if step.Bump? { NotYetPassed(s, step); }
  }

  lemma PassedJobsKept(p: Policy, s: State, step: Step)
    requires NumbersOk(s) && PassesOk(s) && Outcomes(s) && Enabled(s, step)
    ensures var t := Apply(p, s, step);
      forall e :: e in t.passed ==> e.id in t.jobs && HasPassed(t.jobs[e.id]) && EventOf(t, e.id) == e
  {
    hide NumbersOk, Outcomes, HasPassed, Increasing;
    var t := Apply(p, s, step);
    OneJobMoves(p, s, step);
    PassesFollow(p, s, step) by { StateOkOf(s, step); }
    NumbersFollow(p, s, step);
    assert step.Submit? ==> step.id !in s.jobs;
    hide Apply, JobAfter, Enabled, BeforeNumber;
    forall e | e in t.passed ensures e.id in t.jobs && HasPassed(t.jobs[e.id]) && EventOf(t, e.id) == e {
      if e !in s.passed {
        assert e == EventOf(s, step.id);
      } else if e.id == step.id {
        PassedJobKept(p, s, step);
      }
    }
  }

  lemma NotYetPassed(s: State, step: Step)
    requires Outcomes(s) && Enabled(s, step) && step.Bump?
    ensures !HasPassed(s.jobs[step.id])
  {
    assert StateOk(s.jobs[step.id]);
  }

  lemma AppendNewest(events: seq<Event>, e: Event)
    requires Increasing(events)
    requires forall x :: x in events && x.scope == e.scope ==> x.generation < e.generation
    ensures Increasing(events + [e])
  {
    forall i, j | 0 <= i < j < |events + [e]| && (events + [e])[i].scope == (events + [e])[j].scope
      ensures (events + [e])[i].generation < (events + [e])[j].generation
    {
      assert (events + [e])[i] in events;
    }
  }

  /** A job about to pass is newer than every job of its scope that passed before. */
  lemma PassIsNewest(s: State, id: nat)
    requires NumbersOk(s) && PassesOk(s)
    requires id in s.jobs && s.jobs[id].phase == Uncancelled && !HasPassed(s.jobs[id])
    requires IsCurrent(s, s.jobs[id])
    ensures Increasing(s.passed + [EventOf(s, id)])
  {
    hide Increasing;
    var scope := s.jobs[id].scope;
    assert s.jobs[id].generation > 0;
    assert scope in s.generations;
    forall e | e in s.passed && e.scope == scope ensures e.generation < s.jobs[id].generation {
      assert e.id != id;
      assert s.jobs[e.id].generation <= Current(s, scope);
    }
    AppendNewest(s.passed, EventOf(s, id));
  }

  lemma StaleFollows(p: Policy, s: State, step: Step)
    requires Enabled(s, step)
    ensures var job := JobAfter(p, s, step);
      (job.phase == Superseded || job.state == Stale) ==>
        step.id in s.jobs
        && (s.jobs[step.id].phase == Superseded || s.jobs[step.id].state == Stale
            || (step.CheckGeneration? && !IsCurrent(s, s.jobs[step.id])))
  {
  }

  predicate NewerThan(s: State, other: nat, id: nat) {
    && other in s.jobs && id in s.jobs
    && s.jobs[other].scope == s.jobs[id].scope && s.jobs[other].generation > s.jobs[id].generation
  }

  lemma NewerKept(p: Policy, s: State, step: Step, other: nat, id: nat)
    requires NumbersOk(s) && Enabled(s, step) && NewerThan(s, other, id)
    requires s.jobs[id].generation > 0
    ensures NewerThan(Apply(p, s, step), other, id)
  {
    assert step.Submit? ==> step.id !in s.jobs;
    assert step.Bump? ==> BeforeNumber(s.jobs[step.id]);
    OneJobMoves(p, s, step);
    NumbersFollow(p, s, step);
    hide Apply, JobAfter, Enabled, BeforeNumber, Owns;
  }

  lemma StaleKept(p: Policy, s: State, step: Step)
    requires NumbersOk(s) && StaleOk(s) && Outcomes(s) && Enabled(s, step)
    ensures StaleOk(Apply(p, s, step))
  {
    hide NumbersOk, Outcomes, Apply, JobAfter, Newer, Enabled, IsCurrent;
    var t := Apply(p, s, step);
    forall id | id in t.jobs && (t.jobs[id].phase == Superseded || t.jobs[id].state == Stale)
      ensures Newer(t, id)
    {
      StaleBefore(p, s, step, id);
      StaleJobKept(p, s, step, id);
    }
  }

  lemma StaleBefore(p: Policy, s: State, step: Step, id: nat)
    requires Enabled(s, step) && id in Apply(p, s, step).jobs
    requires var job := Apply(p, s, step).jobs[id]; job.phase == Superseded || job.state == Stale
    ensures id in s.jobs
    ensures s.jobs[id].phase == Superseded || s.jobs[id].state == Stale
            || (step == CheckGeneration(id) && !IsCurrent(s, s.jobs[id]))
  {
    OneJobMoves(p, s, step);
    StaleFollows(p, s, step);
    hide Apply, JobAfter, Enabled, IsCurrent;
  }

  lemma StaleJobKept(p: Policy, s: State, step: Step, id: nat)
    requires NumbersOk(s) && StaleOk(s) && Outcomes(s) && Enabled(s, step) && id in s.jobs
    requires s.jobs[id].phase == Superseded || s.jobs[id].state == Stale
             || (step == CheckGeneration(id) && !IsCurrent(s, s.jobs[id]))
    ensures Newer(Apply(p, s, step), id)
  {
    NumberedIfStale(s, step, id);
    hide Outcomes, Apply, JobAfter, Enabled;
    if s.jobs[id].phase == Superseded || s.jobs[id].state == Stale {
      hide NumbersOk;
      var other :| NewerThan(s, other, id);
      NewerKept(p, s, step, other, id);
    } else {
      var scope := s.jobs[id].scope;
      assert Current(s, scope) > s.jobs[id].generation;
      var other :| Owns(s, other, scope);
      NewerKept(p, s, step, other, id);
    }
  }

  lemma NumberedIfStale(s: State, step: Step, id: nat)
    requires NumbersOk(s) && Outcomes(s) && Enabled(s, step) && id in s.jobs
    requires s.jobs[id].phase == Superseded || s.jobs[id].state == Stale || step == CheckGeneration(id)
    ensures s.jobs[id].generation > 0
  {
    assert StateOk(s.jobs[id]);
    assert !BeforeNumber(s.jobs[id]);
  }

  /** The generation counter of a scope is the number of its submissions that were admitted. */
  ghost predicate GenerationCounts(s: State, scope: string) {
    Current(s, scope) == Count(s.jobs, NumberedIn(scope))
  }

  /** A generation counter moves exactly as the stepping job's own contribution does. */
  lemma CurrentFollows(p: Policy, s: State, step: Step, scope: string)
    requires NumbersOk(s) && Enabled(s, step)
    ensures Current(Apply(p, s, step), scope) - Current(s, scope)
         == Unit(NumberedIn(scope)(JobAfter(p, s, step))) - Share(s, step.id, NumberedIn(scope))
  {
    assert step.Submit? ==> step.id !in s.jobs;
    NumbersFollow(p, s, step);
    hide Apply, JobAfter, Enabled, Owns, NewestExists, NumbersDistinct;
  }

  lemma GenerationCountKept(p: Policy, s: State, step: Step, scope: string)
    requires NumbersOk(s) && GenerationCounts(s, scope) && Enabled(s, step)
    ensures GenerationCounts(Apply(p, s, step), scope)
  {
    hide NumbersOk, Count, Apply, JobAfter, Enabled, Current, NumberedIn;
    OneJobMoves(p, s, step);
    CurrentFollows(p, s, step, scope);
    CountUpdate(s.jobs, step.id, JobAfter(p, s, step), NumberedIn(scope));
  }
}
