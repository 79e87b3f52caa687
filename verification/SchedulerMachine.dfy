/** The scheduler's shared fields, updated in place by one atomic step at a time, and the
    life of one job as a program over them, with any other threads' steps in between. The
    ghost trace makes every state of the object a state some run reaches. */
module SchedulerMachine {
  import opened FiniteMaps
  import opened Scheduler
  import opened SchedulerSafety
  import opened SchedulerRuns
  import opened SchedulerOutcomes

  /** How the operation ends, whether a cancelled wait is abandoned although a slot is free,
      and what the other threads do at each point where they can. */
  datatype Host = Host(end: OperationEnd, abandons: bool, others: seq<seq<Step>>)

  datatype OperationEnd = ReturnsResult | ThrowsCancellation | ThrowsOther

  datatype Ending =
    | TurnedAway             // rejected for capacity
    | StillWaiting           // the other threads never freed a slot
    | Result(event: Event)   // delivered to the caller
    | Threw(state: JobState)

  lemma Extended(p: Policy, trace: seq<Step>, step: Step)
    requires Possible(p, Initial(p), trace) && Enabled(After(p, Initial(p), trace), step)
    ensures Possible(p, Initial(p), trace + [step])
    ensures After(p, Initial(p), trace + [step]) == Apply(p, After(p, Initial(p), trace), step)
  {
    hide Possible, After, Apply, Enabled;
    var s := After(p, Initial(p), trace);
    Stop(p, Apply(p, s, step));
    Prepend(p, s, step, []);
    assert [step] + [] == [step];
    Concatenated(p, Initial(p), trace, [step]);
  }

  lemma TraceInv(p: Policy, trace: seq<Step>)
    requires Possible(p, Initial(p), trace)
    ensures Inv(p, After(p, Initial(p), trace))
  {
    InitialInv(p);
    RunInv(p, Initial(p), trace);
  }

  /** Between two steps of its own a job only ever has its token cancelled. */
  predicate Undisturbed(id: nat, before: map<nat, Job>, after: map<nat, Job>) {
    id in before && id in after
    && (after[id] == before[id] || after[id] == before[id].(token := true))
  }

  function Turn(host: Host, n: nat): seq<Step> {
    if n < |host.others| then host.others[n] else []
  }

  /** On the way to a handler, with a reason. */
  predicate Throwing(host: Host, job: Job) {
    match job.phase
    case Caught =>
      if job.state == Stale then job.entered && host.end == ReturnsResult
      else (job.state == Queued || job.state == Running) && MayCancel(host, job)
    case Erring => job.entered && host.end == ThrowsOther
    case _ => false
  }

  /** The operation threw a cancellation, or the token was cancelled before an operation ran or
      after it returned. */
  predicate MayCancel(host: Host, job: Job) {
    if job.entered then host.end == ThrowsCancellation || (host.end == ReturnsResult && job.token) else job.token
  }

  /** In the finally block, with the outcome decided. */
  predicate Settling(host: Host, job: Job) {
    job.phase == Finishing && Decided(host, job)
  }

  /** A job fails exactly if its operation ran and threw something else than a cancellation;
      only a returned result can be completed or stale; and cancellation needs its reason. */
  predicate Decided(host: Host, job: Job) {
    match job.state
    case Completed => job.entered && host.end == ReturnsResult
    case Stale => job.entered && host.end == ReturnsResult
    case Failed => job.entered && host.end == ThrowsOther
    case Cancelled => MayCancel(host, job)
    case _ => false
  }

  predicate Ended(ending: Ending, host: Host, id: nat, job: Job) {
    match ending
    case TurnedAway => job.phase == Rejected && job.generation == 0
    case StillWaiting => job.phase == Waiting
    case Result(event) =>
      job.phase == Done && Decided(host, job) && job.state == Completed && event == Event(id, job.scope, job.generation)
    case Threw(state) => job.phase == Done && Decided(host, job) && job.state == state != Completed
  }

  /** A step of another thread occurs if it can; a step of the job itself is not another thread's,
      but anyone may cancel. */
  predicate Occurs(s: State, id: nat, step: Step) {
    Enabled(s, step) && (step.id != id || step.Cancel?)
  }

  /** The state after the other threads' turn. */
  function Offered(p: Policy, s: State, id: nat, steps: seq<Step>): State {
    if steps == [] then s
    else
      var before, last := Offered(p, s, id, steps[..|steps| - 1]), steps[|steps| - 1];
      if Occurs(before, id, last) then Apply(p, before, last) else before
  }

  /** The state after the turns from the third up to turn `n` of a wait. */
  function Waited(p: Policy, s: State, id: nat, host: Host, n: nat): State {
    if n <= 3 then s else Offered(p, Waited(p, s, id, host, n - 1), id, Turn(host, n - 1))
  }

  lemma OfferedMore(p: Policy, s: State, id: nat, steps: seq<Step>, i: nat)
    requires i < |steps|
    ensures var before := Offered(p, s, id, steps[..i]);
      Offered(p, s, id, steps[..i + 1]) == if Occurs(before, id, steps[i]) then Apply(p, before, steps[i]) else before
  {
    assert steps[..i + 1][..i] == steps[..i];
  }

  lemma OtherJobStays(p: Policy, s: State, step: Step, id: nat)
    requires id in s.jobs && Enabled(s, step) && (step.id != id || step.Cancel?)
    ensures Undisturbed(id, s.jobs, Apply(p, s, step).jobs)
  {
    OneJobMoves(p, s, step);
  }

  class AnalysisScheduler {
    const policy: Policy
    var queued: int
    var running: int
    var permits: int
    var completed: int
    var cancelled: int
    var stale: int
    var failed: int
    var generations: map<string, nat>
    var active: set<nat>
    var jobs: map<nat, Job>
    var passed: seq<Event>
    var counted: seq<Event>
    var delivered: seq<Event>
    ghost var trace: seq<Step>

    function View(): State
      reads this
    {
      State(queued, running, permits, completed, cancelled, stale, failed,
            generations, active, jobs, passed, counted, delivered)
    }

    /** The state is the one the trace leads to. */
    ghost predicate Valid()
      reads this
    {
      Possible(policy, Initial(policy), trace) && View() == After(policy, Initial(policy), trace)
    }

    constructor (policy: Policy)
      ensures this.policy == policy && View() == Initial(policy) && trace == [] && Valid()
    {
      this.policy := policy;
      queued, running, permits := 0, 0, policy.maximumConcurrency;
      completed, cancelled, stale, failed := 0, 0, 0, 0;
      generations, active, jobs := map[], {}, map[];
      passed, counted, delivered := [], [], [];
      trace := [];
    }

    /** `Interlocked.Increment(ref queued)` on entry. */
    method Submit(id: nat, scope: string)
      requires Valid() && id !in jobs
      modifies this
      ensures Valid() && trace == old(trace) + [Step.Submit(id, scope)]
      ensures id in jobs && jobs[id] == Job(scope, 0, Counted(old(queued) + 1), Queued, false, false)
    {
      hide Possible, After;
      Extended(policy, trace, Step.Submit(id, scope));
      queued := queued + 1;
      jobs := jobs[id := Job(scope, 0, Counted(queued), Queued, false, false)];
      trace := trace + [Step.Submit(id, scope)];
    }

    /** The capacity comparison on the value the increment returned. */
    method Decide(id: nat)
      requires Valid() && id in jobs && jobs[id].phase.Counted?
      modifies this
      ensures Valid() && trace == old(trace) + [Step.Decide(id)]
      ensures id in jobs && jobs[id] == old(jobs[id]).(phase := if old(jobs[id]).phase.seen > policy.maximumQueuedJobs then Rejecting else Admitted)
    {
      hide Possible, After;
      Extended(policy, trace, Step.Decide(id));
      jobs := jobs[id := jobs[id].(phase := if jobs[id].phase.seen > policy.maximumQueuedJobs then Rejecting else Admitted)];
      trace := trace + [Step.Decide(id)];
    }

    method Reject(id: nat)
      requires Valid() && id in jobs && jobs[id].phase == Rejecting
      modifies this
      ensures Valid() && trace == old(trace) + [Step.Reject(id)]
      ensures id in jobs && jobs[id] == old(jobs[id]).(phase := Phase.Rejected)
    {
      hide Possible, After;
      Extended(policy, trace, Step.Reject(id));
      queued := queued - 1;
      jobs := jobs[id := jobs[id].(phase := Phase.Rejected)];
      trace := trace + [Step.Reject(id)];
    }

    /** `Generations.AddOrUpdate`. */
    method Bump(id: nat)
      requires Valid() && id in jobs && jobs[id].phase == Admitted
      modifies this
      ensures Valid() && trace == old(trace) + [Step.Bump(id)]
      ensures id in jobs && jobs[id] == old(jobs[id]).(phase := Numbered, generation := (if old(jobs[id]).scope in old(generations) then old(generations)[old(jobs[id]).scope] else 0) + 1)
    {
      hide Possible, After;
      Extended(policy, trace, Step.Bump(id));
      var scope := jobs[id].scope;
      var generation := if scope in generations then generations[scope] + 1 else 1;
      generations := generations[scope := generation];
      jobs := jobs[id := jobs[id].(phase := Numbered, generation := generation)];
      trace := trace + [Step.Bump(id)];
    }

    method Register(id: nat)
      requires Valid() && id in jobs && jobs[id].phase == Numbered
      modifies this
      ensures Valid() && trace == old(trace) + [Step.Register(id)]
      ensures id in jobs && jobs[id] == old(jobs[id]).(phase := Phase.Waiting)
    {
      hide Possible, After;
      Extended(policy, trace, Step.Register(id));
      active := active + {id};
      jobs := jobs[id := jobs[id].(phase := Phase.Waiting)];
      trace := trace + [Step.Register(id)];
    }

    /** `slots.WaitAsync` succeeds. */
    method Acquire(id: nat)
      requires Valid() && id in jobs && jobs[id].phase == Phase.Waiting && permits > 0
      modifies this
      ensures Valid() && trace == old(trace) + [Step.Acquire(id)]
      ensures id in jobs && jobs[id] == old(jobs[id]).(phase := Entered, entered := true)
    {
      hide Possible, After;
      Extended(policy, trace, Step.Acquire(id));
      permits := permits - 1;
      jobs := jobs[id := jobs[id].(phase := Entered, entered := true)];
      trace := trace + [Step.Acquire(id)];
    }

    /** `slots.WaitAsync` observes the cancelled token. */
    method AbandonWait(id: nat)
      requires Valid() && id in jobs && jobs[id].phase == Phase.Waiting && jobs[id].token
      modifies this
      ensures Valid() && trace == old(trace) + [Step.AbandonWait(id)] && permits == old(permits)
      ensures id in jobs && jobs[id] == old(jobs[id]).(phase := Caught)
    {
      hide Possible, After;
      Extended(policy, trace, Step.AbandonWait(id));
      jobs := jobs[id := jobs[id].(phase := Caught)];
      trace := trace + [Step.AbandonWait(id)];
    }

    method LeaveQueue(id: nat)
      requires Valid() && id in jobs && jobs[id].phase == Entered
      modifies this
      ensures Valid() && trace == old(trace) + [Step.LeaveQueue(id)]
      ensures id in jobs && jobs[id] == old(jobs[id]).(phase := LeftQueue)
    {
      hide Possible, After;
      Extended(policy, trace, Step.LeaveQueue(id));
      queued := queued - 1;
      jobs := jobs[id := jobs[id].(phase := LeftQueue)];
      trace := trace + [Step.LeaveQueue(id)];
    }

    method EnterRunning(id: nat)
      requires Valid() && id in jobs && jobs[id].phase == LeftQueue
      modifies this
      ensures Valid() && trace == old(trace) + [Step.EnterRunning(id)]
      ensures id in jobs && jobs[id] == old(jobs[id]).(phase := Executing, state := Running)
    {
      hide Possible, After;
      Extended(policy, trace, Step.EnterRunning(id));
      running := running + 1;
      jobs := jobs[id := jobs[id].(phase := Executing, state := Running)];
      trace := trace + [Step.EnterRunning(id)];
    }

    method Return(id: nat)
      requires Valid() && id in jobs && jobs[id].phase == Executing
      modifies this
      ensures Valid() && trace == old(trace) + [Step.Return(id)]
      ensures id in jobs && jobs[id] == old(jobs[id]).(phase := Returned)
    {
      hide Possible, After;
      Extended(policy, trace, Step.Return(id));
      jobs := jobs[id := jobs[id].(phase := Returned)];
      trace := trace + [Step.Return(id)];
    }

    method ThrowCancelled(id: nat)
      requires Valid() && id in jobs && jobs[id].phase == Executing
      modifies this
      ensures Valid() && trace == old(trace) + [Step.ThrowCancelled(id)]
      ensures id in jobs && jobs[id] == old(jobs[id]).(phase := Caught)
    {
      hide Possible, After;
      Extended(policy, trace, Step.ThrowCancelled(id));
      jobs := jobs[id := jobs[id].(phase := Caught)];
      trace := trace + [Step.ThrowCancelled(id)];
    }

    method ThrowError(id: nat)
      requires Valid() && id in jobs && jobs[id].phase == Executing
      modifies this
      ensures Valid() && trace == old(trace) + [Step.ThrowError(id)]
      ensures id in jobs && jobs[id] == old(jobs[id]).(phase := Erring)
    {
      hide Possible, After;
      Extended(policy, trace, Step.ThrowError(id));
      jobs := jobs[id := jobs[id].(phase := Erring)];
      trace := trace + [Step.ThrowError(id)];
    }

    /** `ThrowIfCancellationRequested` after the operation. */
    method CheckToken(id: nat)
      requires Valid() && id in jobs && jobs[id].phase == Returned
      modifies this
      ensures Valid() && trace == old(trace) + [Step.CheckToken(id)]
      ensures id in jobs && jobs[id] == old(jobs[id]).(phase := if old(jobs[id]).token then Caught else Uncancelled)
    {
      hide Possible, After;
      Extended(policy, trace, Step.CheckToken(id));
      jobs := jobs[id := jobs[id].(phase := if jobs[id].token then Caught else Uncancelled)];
      trace := trace + [Step.CheckToken(id)];
    }

    /** The stale test. */
    method CheckGeneration(id: nat)
      requires Valid() && id in jobs && jobs[id].phase == Uncancelled
      modifies this
      ensures Valid() && trace == old(trace) + [Step.CheckGeneration(id)]
      ensures id in jobs && jobs[id] == old(jobs[id]).(phase := jobs[id].phase) && (jobs[id].phase == Fresh || jobs[id].phase == Superseded)
    {
      hide Possible, After;
      CheckIs(policy, View(), id);
      hide Apply, Enabled;
      Extended(policy, trace, Step.CheckGeneration(id));
      var job := jobs[id];
      if job.scope in generations && generations[job.scope] != job.generation {
        jobs := jobs[id := job.(phase := Superseded)];
      } else {
        passed := passed + [Event(id, job.scope, job.generation)];
        jobs := jobs[id := job.(phase := Fresh)];
      }
      trace := trace + [Step.CheckGeneration(id)];
    }

    method Complete(id: nat)
      requires Valid() && id in jobs && jobs[id].phase == Fresh
      modifies this
      ensures Valid() && trace == old(trace) + [Step.Complete(id)]
      ensures id in jobs && jobs[id] == old(jobs[id]).(phase := Finishing, state := Completed)
    {
      hide Possible, After;
      CompleteIs(policy, View(), id);
      hide Apply, Enabled;
      Extended(policy, trace, Step.Complete(id));
      completed := completed + 1;
      counted := counted + [Event(id, jobs[id].scope, jobs[id].generation)];
      jobs := jobs[id := jobs[id].(phase := Finishing, state := Completed)];
      trace := trace + [Step.Complete(id)];
    }

    method MarkStale(id: nat)
      requires Valid() && id in jobs && jobs[id].phase == Superseded
      modifies this
      ensures Valid() && trace == old(trace) + [Step.MarkStale(id)]
      ensures id in jobs && jobs[id] == old(jobs[id]).(phase := Caught, state := Stale)
    {
      hide Possible, After;
      Extended(policy, trace, Step.MarkStale(id));
      stale := stale + 1;
      jobs := jobs[id := jobs[id].(phase := Caught, state := Stale)];
      trace := trace + [Step.MarkStale(id)];
    }

    /** The cancellation handler, which a stale job reaches too. */
    method CatchCancellation(id: nat)
      requires Valid() && id in jobs && jobs[id].phase == Caught
      modifies this
      ensures Valid() && trace == old(trace) + [Step.CatchCancellation(id)]
      ensures id in jobs && jobs[id] == old(jobs[id]).(phase := Finishing, state := if old(jobs[id]).state == Stale then Stale else Cancelled)
    {
      hide Possible, After;
      Extended(policy, trace, Step.CatchCancellation(id));
      if jobs[id].state == Stale {
        jobs := jobs[id := jobs[id].(phase := Finishing)];
      } else {
        cancelled := cancelled + 1;
        jobs := jobs[id := jobs[id].(phase := Finishing, state := Cancelled)];
      }
      trace := trace + [Step.CatchCancellation(id)];
    }

    method CatchError(id: nat)
      requires Valid() && id in jobs && jobs[id].phase == Erring
      modifies this
      ensures Valid() && trace == old(trace) + [Step.CatchError(id)]
      ensures id in jobs && jobs[id] == old(jobs[id]).(phase := Finishing, state := Failed)
    {
      hide Possible, After;
      Extended(policy, trace, Step.CatchError(id));
      failed := failed + 1;
      jobs := jobs[id := jobs[id].(phase := Finishing, state := Failed)];
      trace := trace + [Step.CatchError(id)];
    }

    /** The first statement of the finally block. */
    method Finish(id: nat)
      requires Valid() && id in jobs && jobs[id].phase == Finishing
      modifies this
      ensures Valid() && trace == old(trace) + [Step.Finish(id)]
      ensures id in jobs && jobs[id] == old(jobs[id]).(phase := if old(jobs[id]).entered then Releasing else Removing)
    {
      hide Possible, After;
      FinishIs(policy, View(), id);
      hide Apply, Enabled;
      Extended(policy, trace, Step.Finish(id));
      if jobs[id].entered {
        running := running - 1;
        jobs := jobs[id := jobs[id].(phase := Releasing)];
      } else {
        queued := queued - 1;
        jobs := jobs[id := jobs[id].(phase := Removing)];
      }
      trace := trace + [Step.Finish(id)];
    }

    method Release(id: nat)
      requires Valid() && id in jobs && jobs[id].phase == Releasing
      modifies this
      ensures Valid() && trace == old(trace) + [Step.Release(id)]
      ensures id in jobs && jobs[id] == old(jobs[id]).(phase := Removing)
    {
      hide Possible, After;
      Extended(policy, trace, Step.Release(id));
      permits := permits + 1;
      jobs := jobs[id := jobs[id].(phase := Removing)];
      trace := trace + [Step.Release(id)];
    }

    method Remove(id: nat)
      requires Valid() && id in jobs && jobs[id].phase == Removing
      modifies this
      ensures Valid() && trace == old(trace) + [Step.Remove(id)]
      ensures id in jobs && jobs[id] == old(jobs[id]).(phase := Delivering)
    {
      hide Possible, After;
      Extended(policy, trace, Step.Remove(id));
      active := active - {id};
      jobs := jobs[id := jobs[id].(phase := Delivering)];
      trace := trace + [Step.Remove(id)];
    }

    /** The task completes and its caller resumes. */
    method Deliver(id: nat)
      requires Valid() && id in jobs && jobs[id].phase == Delivering
      modifies this
      ensures Valid() && trace == old(trace) + [Step.Deliver(id)]
      ensures id in jobs && jobs[id] == old(jobs[id]).(phase := Done)
      ensures jobs[id].state == Completed ==> Event(id, jobs[id].scope, jobs[id].generation) in delivered
    {
      hide Possible, After;
      DeliverIs(policy, View(), id);
      hide Apply, Enabled;
      Extended(policy, trace, Step.Deliver(id));
      if jobs[id].state == Completed {
        delivered := delivered + [Event(id, jobs[id].scope, jobs[id].generation)];
      }
      jobs := jobs[id := jobs[id].(phase := Done)];
      trace := trace + [Step.Deliver(id)];
    }

    /** Steps of other threads, in the order they happen to take: exactly those that can occur do,
        and this job's token is all they can change of it. */
    method Others(id: nat, steps: seq<Step>)
      requires Valid() && id in jobs
      modifies this
      ensures Valid() && old(trace) <= trace
      ensures Undisturbed(id, old(jobs), jobs)
      ensures View() == Offered(policy, old(View()), id, steps)
    {
      hide Possible, After, Apply, Enabled, Offered;
      NothingOffered(id, steps);
      for i := 0 to |steps|
        invariant Valid() && old(trace) <= trace
        invariant id in jobs && Undisturbed(id, old(jobs), jobs)
        invariant View() == Offered(policy, old(View()), id, steps[..i])
      {
        OfferedMore(policy, old(View()), id, steps, i);
        if Occurs(View(), id, steps[i]) {
          OtherStep(id, steps[i]);
        }
      }
      assert steps[..|steps|] == steps;
    }

    lemma NothingOffered(id: nat, steps: seq<Step>)
      ensures steps[..0] == [] && Offered(policy, View(), id, steps[..0]) == View()
    {
    }

    method OtherStep(id: nat, step: Step)
      requires Valid() && id in jobs && Occurs(View(), id, step)
      modifies this
      ensures Valid() && trace == old(trace) + [step]
      ensures id in jobs && Undisturbed(id, old(jobs), jobs)
      ensures View() == Apply(policy, old(View()), step)
    {
      hide Possible, After;
      Extended(policy, trace, step);
      OtherJobStays(policy, View(), step, id);
      hide Apply, Enabled;
      SetTo(Apply(policy, View(), step));
      trace := trace + [step];
    }

    method SetTo(next: State)
      modifies this
      ensures View() == next && trace == old(trace)
    {
      SetCounters(next);
      generations, active, jobs := next.generations, next.active, next.jobs;
      passed, counted, delivered := next.passed, next.counted, next.delivered;
    }

    method SetCounters(next: State)
      modifies `queued, `running, `permits, `completed, `cancelled, `stale, `failed
      ensures queued == next.queued && running == next.running && permits == next.permits
      ensures completed == next.completed && cancelled == next.cancelled && stale == next.stale && failed == next.failed
    {
      queued, running, permits := next.queued, next.running, next.permits;
      completed, cancelled, stale, failed := next.completed, next.cancelled, next.stale, next.failed;
    }

    /** The statistics a caller reads: the limits, and counters that are true head counts
        within them. */
    method Statistics() returns (limits: Policy, waiting: int, executing: int, outcomes: seq<int>)
      requires Valid()
      ensures limits == policy
      ensures waiting == Count(jobs, InQueue) && executing == Count(jobs, InRunning) <= policy.maximumConcurrency
      ensures outcomes == [Count(jobs, InState(Completed)), Count(jobs, InState(Cancelled)),
                           Count(jobs, InState(Stale)), Count(jobs, InState(Failed))]
    {
      TraceInv(policy, trace);
      CountersWithin(policy, View());
      limits, waiting, executing := policy, queued, running;
      outcomes := [completed, cancelled, stale, failed];
    }

    /** One call of `Schedule` and its task in program order, with the other threads' steps
        wherever they can occur. Whatever they do, the call ends in exactly one of the ways
        listed, and a finished job is no longer registered. A result the operation returned, on a
        token nobody cancelled, reaches the caller if at the generation check the job was the
        newest of its scope, and is stale otherwise. */
    method Schedule(id: nat, scope: string, host: Host) returns (ending: Ending)
      requires Valid() && id !in jobs
      modifies this
      ensures Valid() && old(trace) <= trace && id in jobs && Ended(ending, host, id, jobs[id])
      ensures ending.Result? ==> ending.event in delivered
      ensures ending.Result? || ending.Threw? ==> id !in active
      ensures ending.StillWaiting? ==> permits <= 0 && !jobs[id].token
      ensures (ending.Result? || ending.Threw?) && jobs[id].entered && host.end == ReturnsResult && !jobs[id].token
              ==> ending.Result? || ending == Threw(Stale)
      ensures ending.Result? <==> Happened(policy, Initial(policy), trace, id, PassedCheck) && jobs[id].phase == Done
      ensures ending == Threw(Stale) <==> Happened(policy, Initial(policy), trace, id, FailedCheck) && jobs[id].phase == Done
    {
      hide Valid, Happened;
      var admitted := Admit(id, scope, host);
      if !admitted {
        return TurnedAway;
      }
      ending := RunTask(id, host);
      if jobs[id].phase == Done {
        EndExplained(id);
      }
    }

    /** The task: try block, handlers, finally block. */
    method RunTask(id: nat, host: Host) returns (ending: Ending)
      requires Valid() && id in jobs && jobs[id].phase == Phase.Waiting && !jobs[id].entered && jobs[id].state == Queued
      modifies this
      ensures Valid() && old(trace) <= trace && id in jobs && Ended(ending, host, id, jobs[id])
      ensures ending.Result? ==> ending.event in delivered
      ensures ending.Result? || ending.Threw? ==> id !in active
      ensures ending.StillWaiting? ==>
        permits <= 0 && !jobs[id].token
        && exists n :: |host.others| <= n && View() == Waited(policy, old(View()), id, host, n)
    {
      hide Valid, Waited;
      var next := WaitForSlot(id, host);
      if jobs[id].phase == Phase.Waiting {
        return StillWaiting;
      }
      if jobs[id].phase == Entered {
        Enter(id, host, next);
        Operate(id, host, next + 2);
      }
      Handle(id, host, next + 5);
      ending := Finally(id, host, next + 6);
    }

    /** Admission, generation and registration. */
    method Admit(id: nat, scope: string, host: Host) returns (admitted: bool)
      requires Valid() && id !in jobs
      modifies this
      ensures Valid() && old(trace) <= trace && id in jobs
      ensures !admitted ==> jobs[id].phase == Rejected && jobs[id].generation == 0
      ensures admitted ==> jobs[id].phase == Phase.Waiting && !jobs[id].entered && jobs[id].state == Queued
    {
      hide Valid, Offered;
      Submit(id, scope);
      Others(id, Turn(host, 0));
      Decide(id);
      Others(id, Turn(host, 1));
      admitted := jobs[id].phase == Admitted;
      if admitted {
        Bump(id);
        Others(id, Turn(host, 2));
        Register(id);
      } else {
        Reject(id);
      }
    }

    /** `await slots.WaitAsync(token)`: the other threads move until a slot is free or the
        token is cancelled. */
    method WaitForSlot(id: nat, host: Host) returns (next: nat)
      requires Valid() && id in jobs && jobs[id].phase == Phase.Waiting && !jobs[id].entered && jobs[id].state == Queued
      modifies this
      ensures Valid() && old(trace) <= trace && id in jobs
      ensures jobs[id].phase == Phase.Waiting
              || (jobs[id].phase == Entered && jobs[id].entered)
              || Throwing(host, jobs[id])
      ensures jobs[id].phase == Phase.Waiting ==>
        permits <= 0 && !jobs[id].token && |host.others| <= next && View() == Waited(policy, old(View()), id, host, next)
      ensures jobs[id].phase == Caught && !host.abandons ==> permits <= 0
      ensures jobs[id].phase == Entered && host.abandons ==> !jobs[id].token
    {
      hide Valid, Offered;
      Others(id, Turn(host, 3));
      next := 4;
      while permits <= 0 && !jobs[id].token && next < |host.others|
        invariant Valid() && old(trace) <= trace && id in jobs && Undisturbed(id, old(jobs), jobs)
        invariant next >= 4 && View() == Waited(policy, old(View()), id, host, next)
        decreases |host.others| - next
      {
        Others(id, host.others[next]);
        next := next + 1;
      }
      if jobs[id].token && (host.abandons || permits <= 0) {
        AbandonWait(id);
      } else if permits > 0 {
        Acquire(id);
      }
    }

    /** From the slot to the operation. */
    method Enter(id: nat, host: Host, next: nat)
      requires Valid() && id in jobs && jobs[id].phase == Entered && jobs[id].entered
      modifies this
      ensures Valid() && old(trace) <= trace && id in jobs && jobs[id].phase == Executing && jobs[id].entered && jobs[id].state == Running
    {
      hide Valid, Offered;
      LeaveQueue(id);
      Others(id, Turn(host, next));
      EnterRunning(id);
      Others(id, Turn(host, next + 1));
    }

    /** The operation and the checks on its result. */
    method Operate(id: nat, host: Host, next: nat)
      requires Valid() && id in jobs && jobs[id].phase == Executing && jobs[id].entered && jobs[id].state == Running
      modifies this
      ensures Valid() && old(trace) <= trace && id in jobs && (Throwing(host, jobs[id]) || Settling(host, jobs[id]))
    {
      hide Valid, Offered;
      match host.end {
        case ThrowsCancellation => ThrowCancelled(id);
        case ThrowsOther => ThrowError(id);
        case ReturnsResult =>
          Return(id);
          Others(id, Turn(host, next));
          CheckToken(id);
          if jobs[id].phase == Uncancelled {
            Judge(id, host, next + 1);
          }
      }
    }

    /** The stale test and what follows from it. */
    method Judge(id: nat, host: Host, next: nat)
      requires Valid() && id in jobs && jobs[id].phase == Uncancelled && jobs[id].entered && jobs[id].state == Running
      requires host.end == ReturnsResult
      modifies this
      ensures Valid() && old(trace) <= trace && id in jobs && (Throwing(host, jobs[id]) || Settling(host, jobs[id]))
    {
      hide Valid, Offered;
      Others(id, Turn(host, next));
      CheckGeneration(id);
      Others(id, Turn(host, next + 1));
      if jobs[id].phase == Fresh {
        Complete(id);
      } else {
        MarkStale(id);
      }
    }

    /** The two handlers; a completed job passes neither. */
    method Handle(id: nat, host: Host, next: nat)
      requires Valid() && id in jobs && (Throwing(host, jobs[id]) || Settling(host, jobs[id]))
      modifies this
      ensures Valid() && old(trace) <= trace && id in jobs && Settling(host, jobs[id])
    {
      hide Valid, Offered;
      Others(id, Turn(host, next));
      if jobs[id].phase == Caught {
        CatchCancellation(id);
      } else if jobs[id].phase == Erring {
        CatchError(id);
      }
    }

    /** The finally block and the completion of the task. */
    method Finally(id: nat, host: Host, next: nat) returns (ending: Ending)
      requires Valid() && id in jobs && Settling(host, jobs[id])
      modifies this
      ensures Valid() && old(trace) <= trace && id in jobs && (ending.Result? || ending.Threw?) && Ended(ending, host, id, jobs[id])
      ensures ending.Result? ==> ending.event in delivered
      ensures id !in active
    {
      hide Valid, Offered;
      GiveBack(id, host, next);
      Others(id, Turn(host, next + 2));
      ending := Leave(id, host, next + 3);
    }

    method Leave(id: nat, host: Host, next: nat) returns (ending: Ending)
      requires Valid() && id in jobs && jobs[id].phase == Removing && Decided(host, jobs[id])
      modifies this
      ensures Valid() && old(trace) <= trace && id in jobs && (ending.Result? || ending.Threw?) && Ended(ending, host, id, jobs[id])
      ensures ending.Result? ==> ending.event in delivered
      ensures id !in active
    {
      hide Valid, Offered;
      Remove(id);
      Others(id, Turn(host, next));
      Deliver(id);
      SettledUnregistered(id);
      ending := if jobs[id].state == Completed then Result(Event(id, jobs[id].scope, jobs[id].generation))
                else Threw(jobs[id].state);
    }

    /** The slot, if one was acquired, and the count go back. */
    method GiveBack(id: nat, host: Host, next: nat)
      requires Valid() && id in jobs && Settling(host, jobs[id])
      modifies this
      ensures Valid() && old(trace) <= trace && id in jobs && jobs[id].phase == Removing && Decided(host, jobs[id])
    {
      hide Valid, Offered;
      Others(id, Turn(host, next));
      Finish(id);
      Others(id, Turn(host, next + 1));
      if jobs[id].phase == Releasing {
        Release(id);
      }
    }

    lemma EndExplained(id: nat)
      requires Valid() && id in jobs && jobs[id].phase == Done
      ensures jobs[id].state == Completed <==> Happened(policy, Initial(policy), trace, id, PassedCheck)
      ensures jobs[id].state == Stale <==> Happened(policy, Initial(policy), trace, id, FailedCheck)
    {
      hide Possible, After, Happened;
      OutcomeExplained(policy, trace, id);
    }

    lemma SettledUnregistered(id: nat)
      requires Valid() && id in jobs && jobs[id].phase == Done
      ensures id !in active
    {
      TraceInv(policy, trace);
    }
  }
}
