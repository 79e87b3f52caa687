/** The bounded analysis scheduler as a protocol: every atomic update of its shared counters,
    its semaphore and its generation table is one step of one job, and steps of different
    jobs interleave freely. The policy is fixed during a run. */
module Scheduler {
  import opened FiniteMaps

  datatype Policy = Policy(maximumConcurrency: nat, maximumQueuedJobs: nat)

  /** The limits `Configure` accepts. */
  predicate ValidPolicy(p: Policy) {
    1 <= p.maximumConcurrency <= 1024 && 1 <= p.maximumQueuedJobs <= 1_000_000
  }

  datatype JobState = Queued | Running | Completed | Cancelled | Failed | Stale

  /** The point a job has reached; each transition is one atomic update. */
  datatype Phase =
    | Counted(seen: int)   // `queued` incremented; `seen` is the value it returned
    | Rejecting            // over capacity, count not yet taken back
    | Rejected
    | Admitted             // within capacity, generation not yet taken
    | Numbered             // generation taken, not yet registered
    | Waiting              // registered, waiting for a slot
    | Entered              // slot held, still counted as queued
    | LeftQueue            // no longer queued, not yet running
    | Executing
    | Returned             // the operation returned a result
    | Uncancelled          // the token was not cancelled
    | Fresh                // passed the generation check
    | Superseded           // failed the generation check
    | Caught               // in the cancellation handler
    | Erring               // in the general handler
    | Finishing            // in the finally block
    | Releasing            // no longer running, slot not yet released
    | Removing             // slot returned, still registered
    | Delivering           // finally block over, task not yet completed
    | Done

  datatype Job = Job(scope: string, generation: nat, phase: Phase, state: JobState,
                     entered: bool, token: bool)

  /** One job passing the generation check, being counted as completed, or handing its
      result to its caller. */
  datatype Event = Event(id: nat, scope: string, generation: nat)

  datatype State = State(queued: int, running: int, permits: int,
                         completed: int, cancelled: int, stale: int, failed: int,
                         generations: map<string, nat>, active: set<nat>,
                         jobs: map<nat, Job>, passed: seq<Event>, counted: seq<Event>, delivered: seq<Event>)

  datatype Step =
    | Submit(id: nat, scope: string)
    | Cancel(id: nat)
    | Decide(id: nat)
    | Reject(id: nat)
    | Bump(id: nat)
    | Register(id: nat)
    | Acquire(id: nat)
    | AbandonWait(id: nat)
    | LeaveQueue(id: nat)
    | EnterRunning(id: nat)
    | Return(id: nat)
    | ThrowCancelled(id: nat)
    | ThrowError(id: nat)
    | CheckToken(id: nat)
    | CheckGeneration(id: nat)
    | Complete(id: nat)
    | MarkStale(id: nat)
    | CatchCancellation(id: nat)
    | CatchError(id: nat)
    | Finish(id: nat)
    | Release(id: nat)
    | Remove(id: nat)
    | Deliver(id: nat)

  function Initial(p: Policy): State {
    State(0, 0, p.maximumConcurrency, 0, 0, 0, 0, map[], {}, map[], [], [], [])
  }

  function Current(s: State, scope: string): nat {
    if scope in s.generations then s.generations[scope] else 0
  }

  predicate At(s: State, id: nat, phase: Phase) {
    id in s.jobs && s.jobs[id].phase == phase
  }

  predicate Enabled(s: State, step: Step) {
    match step
    case Submit(id, _) => id !in s.jobs
    case Cancel(id) => id in s.jobs
    case Decide(id) => id in s.jobs && s.jobs[id].phase.Counted?
    case Reject(id) => At(s, id, Rejecting)
    case Bump(id) => At(s, id, Admitted)
    case Register(id) => At(s, id, Numbered)
    case Acquire(id) => At(s, id, Waiting) && s.permits > 0
    case AbandonWait(id) => At(s, id, Waiting) && s.jobs[id].token
    case LeaveQueue(id) => At(s, id, Entered)
    case EnterRunning(id) => At(s, id, LeftQueue)
    case Return(id) => At(s, id, Executing)
    case ThrowCancelled(id) => At(s, id, Executing)
    case ThrowError(id) => At(s, id, Executing)
    case CheckToken(id) => At(s, id, Returned)
    case CheckGeneration(id) => At(s, id, Uncancelled)
    case Complete(id) => At(s, id, Fresh)
    case MarkStale(id) => At(s, id, Superseded)
    case CatchCancellation(id) => At(s, id, Caught)
    case CatchError(id) => At(s, id, Erring)
    case Finish(id) => At(s, id, Finishing)
    case Release(id) => At(s, id, Releasing)
    case Remove(id) => At(s, id, Removing)
    case Deliver(id) => At(s, id, Delivering)
  }

  function EventOf(s: State, id: nat): Event
    requires id in s.jobs
  {
    Event(id, s.jobs[id].scope, s.jobs[id].generation)
  }

  /** The generation check: the scope's newest generation is still the job's own. */
  predicate IsCurrent(s: State, job: Job) {
    job.scope in s.generations ==> s.generations[job.scope] == job.generation
  }

  /** Where a step takes its own job. */
  function PhaseAfter(p: Policy, s: State, step: Step): Phase
    requires Enabled(s, step)
  {
    match step
    case Submit(_, _) => Counted(s.queued + 1)
    case Cancel(id) => s.jobs[id].phase
    case Decide(id) => if s.jobs[id].phase.seen > p.maximumQueuedJobs then Rejecting else Admitted
    case Reject(_) => Rejected
    case Bump(_) => Numbered
    case Register(_) => Waiting
    case Acquire(_) => Entered
    case AbandonWait(_) => Caught
    case LeaveQueue(_) => LeftQueue
    case EnterRunning(_) => Executing
    case Return(_) => Returned
    case ThrowCancelled(_) => Caught
    case ThrowError(_) => Erring
    case CheckToken(id) => if s.jobs[id].token then Caught else Uncancelled
    case CheckGeneration(id) => if IsCurrent(s, s.jobs[id]) then Fresh else Superseded
    case Complete(_) => Finishing
    case MarkStale(_) => Caught
    case CatchCancellation(_) => Finishing
    case CatchError(_) => Finishing
    case Finish(id) => if s.jobs[id].entered then Releasing else Removing
    case Release(_) => Removing
    case Remove(_) => Delivering
    case Deliver(_) => Done
  }

  /** The lifecycle state a step leaves its job in. */
  function StateAfter(job: Job, step: Step): JobState {
    match step
    case EnterRunning(_) => Running
    case Complete(_) => Completed
    case MarkStale(_) => Stale
    case CatchCancellation(_) => if job.state == Stale then Stale else Cancelled
    case CatchError(_) => Failed
    case _ => job.state
  }

  /** What a step makes of its own job. */
  function JobAfter(p: Policy, s: State, step: Step): Job
    requires Enabled(s, step)
  {
    if step.Submit? then Job(step.scope, 0, PhaseAfter(p, s, step), Queued, false, false)
    else
      var job := s.jobs[step.id];
      Job(job.scope, if step.Bump? then Current(s, job.scope) + 1 else job.generation,
          PhaseAfter(p, s, step), StateAfter(job, step),
          job.entered || step.Acquire?, job.token || step.Cancel?)
  }

  // What a step does to each part of the shared state.

  function QueuedAfter(s: State, step: Step): int
    requires Enabled(s, step)
  {
    match step
    case Submit(_, _) => s.queued + 1
    case Reject(_) => s.queued - 1
    case LeaveQueue(_) => s.queued - 1
    case Finish(id) => if s.jobs[id].entered then s.queued else s.queued - 1
    case _ => s.queued
  }

  function RunningAfter(s: State, step: Step): int
    requires Enabled(s, step)
  {
    match step
    case EnterRunning(_) => s.running + 1
    case Finish(id) => if s.jobs[id].entered then s.running - 1 else s.running
    case _ => s.running
  }

  function PermitsAfter(s: State, step: Step): int {
    match step
    case Acquire(_) => s.permits - 1
    case Release(_) => s.permits + 1
    case _ => s.permits
  }

  function CompletedAfter(s: State, step: Step): int {
    if step.Complete? then s.completed + 1 else s.completed
  }

  /** A stale job reaches the cancellation handler too, and is not counted again there. */
  function CancelledAfter(s: State, step: Step): int
    requires Enabled(s, step)
  {
    if step.CatchCancellation? && s.jobs[step.id].state != Stale then s.cancelled + 1 else s.cancelled
  }

  function StaleAfter(s: State, step: Step): int {
    if step.MarkStale? then s.stale + 1 else s.stale
  }

  function FailedAfter(s: State, step: Step): int {
    if step.CatchError? then s.failed + 1 else s.failed
  }

  function GenerationsAfter(s: State, step: Step): map<string, nat>
    requires Enabled(s, step)
  {
    if step.Bump? then
      s.generations[s.jobs[step.id].scope := Current(s, s.jobs[step.id].scope) + 1]
    else s.generations
  }

  function ActiveAfter(s: State, step: Step): set<nat> {
    match step
    case Register(id) => s.active + {id}
    case Remove(id) => s.active - {id}
    case _ => s.active
  }

  function PassedAfter(s: State, step: Step): seq<Event>
    requires Enabled(s, step)
  {
    if step.CheckGeneration? && IsCurrent(s, s.jobs[step.id]) then s.passed + [EventOf(s, step.id)] else s.passed
  }

  function CountedAfter(s: State, step: Step): seq<Event>
    requires Enabled(s, step)
  {
    if step.Complete? then s.counted + [EventOf(s, step.id)] else s.counted
  }

  function DeliveredAfter(s: State, step: Step): seq<Event>
    requires Enabled(s, step)
  {
    if step.Deliver? && s.jobs[step.id].state == Completed then s.delivered + [EventOf(s, step.id)] else s.delivered
  }

  /** One atomic step. */
  function Apply(p: Policy, s: State, step: Step): State
    requires Enabled(s, step)
  {
    State(QueuedAfter(s, step), RunningAfter(s, step), PermitsAfter(s, step),
          CompletedAfter(s, step), CancelledAfter(s, step), StaleAfter(s, step), FailedAfter(s, step),
          GenerationsAfter(s, step), ActiveAfter(s, step), s.jobs[step.id := JobAfter(p, s, step)],
          PassedAfter(s, step), CountedAfter(s, step), DeliveredAfter(s, step))
  }

  /** A run in which every step is enabled when it is taken. */
  predicate Possible(p: Policy, s: State, steps: seq<Step>)
    decreases |steps|
  {
    steps == [] || (Enabled(s, steps[0]) && Possible(p, Apply(p, s, steps[0]), steps[1..]))
  }

  function After(p: Policy, s: State, steps: seq<Step>): State
    requires Possible(p, s, steps)
    decreases |steps|
  {
    if steps == [] then s else After(p, Apply(p, s, steps[0]), steps[1..])
  }

  lemma Prepend(p: Policy, s: State, step: Step, rest: seq<Step>)
    requires Enabled(s, step) && Possible(p, Apply(p, s, step), rest)
    ensures Possible(p, s, [step] + rest)
    ensures After(p, s, [step] + rest) == After(p, Apply(p, s, step), rest)
  {
    assert ([step] + rest)[1..] == rest;
  }

  lemma Unroll(p: Policy, s: State, steps: seq<Step>)
    requires steps != [] && Possible(p, s, steps)
    ensures Enabled(s, steps[0]) && Possible(p, Apply(p, s, steps[0]), steps[1..])
    ensures After(p, s, steps) == After(p, Apply(p, s, steps[0]), steps[1..])
  {
  }

  lemma Stop(p: Policy, s: State)
    ensures Possible(p, s, []) && After(p, s, []) == s
  {
  }

  lemma {:induction false} Concatenated(p: Policy, s: State, first: seq<Step>, second: seq<Step>)
    requires Possible(p, s, first) && Possible(p, After(p, s, first), second)
    ensures Possible(p, s, first + second)
    ensures After(p, s, first + second) == After(p, After(p, s, first), second)
    decreases |first|
  {
    hide Apply, Enabled, Possible, After;
    if first == [] {
      Stop(p, s);
      assert first + second == second;
    } else {
      Unroll(p, s, first);
      Concatenated(p, Apply(p, s, first[0]), first[1..], second);
      Prepend(p, s, first[0], first[1..] + second);
      assert first + second == [first[0]] + (first[1..] + second);
    }
  }
}
