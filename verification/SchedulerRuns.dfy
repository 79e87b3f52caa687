/** Whole runs of the scheduler: safety in every interleaving, the order of counting as completed,
    and drain with every job counted exactly once. */
module SchedulerRuns {
  import opened FiniteMaps
  import opened Scheduler
  import opened SchedulerSafety

  ghost predicate Inv(p: Policy, s: State) {
    && Counts(p, s) && QueueBounded(p, s) && Outcomes(s) && ActiveOk(s)
    && NumbersOk(s) && PassesOk(s) && StaleOk(s)
  }

  lemma InitialInv(p: Policy)
    ensures Inv(p, Initial(p))
  {
    var none: map<nat, Job> := map[];
    assert Hits(none, InQueue) == {} && Hits(none, InRunning) == {} && Hits(none, HoldsSlot) == {};
    assert Hits(none, Accepted(p)) == {};
    assert Hits(none, InState(Completed)) == {} && Hits(none, InState(Cancelled)) == {};
    assert Hits(none, InState(Stale)) == {} && Hits(none, InState(Failed)) == {};
  }

  lemma StepInv(p: Policy, s: State, step: Step)
    requires Inv(p, s) && Enabled(s, step)
    ensures Inv(p, Apply(p, s, step))
  {
    CountsKept(p, s, step);
    QueueBoundKept(p, s, step);
    OutcomesKept(p, s, step);
    ActiveKept(p, s, step);
    NumbersKept(p, s, step);
    PassesKept(p, s, step);
    StaleKept(p, s, step);
    hide Counts, QueueBounded, Outcomes, ActiveOk, NumbersOk, PassesOk, StaleOk, Apply;
  }

  lemma {:induction false} RunInv(p: Policy, s: State, steps: seq<Step>)
    requires Inv(p, s) && Possible(p, s, steps)
    ensures Inv(p, After(p, s, steps))
    decreases |steps|
  {
    hide Inv, Apply, Enabled;
    if steps != [] {
      StepInv(p, s, steps[0]);
      RunInv(p, Apply(p, s, steps[0]), steps[1..]);
    }
  }

  lemma CountersWithin(p: Policy, s: State)
    requires Inv(p, s)
    ensures 0 <= s.running <= p.maximumConcurrency && 0 <= s.queued
  {
    CountWithin(s.jobs, InRunning, HoldsSlot);
  }

  /** Slots and queue, in every interleaving: free permits and slot holders add up to the
      concurrency limit, no more jobs run than that, the queue counter is the accepted
      waiting jobs plus submissions being turned away, and the accepted ones stay within
      capacity. */
  lemma SlotsAndQueueSafe(p: Policy, steps: seq<Step>)
    requires Possible(p, Initial(p), steps)
    ensures var s := After(p, Initial(p), steps);
      && s.permits >= 0 && s.permits + Count(s.jobs, HoldsSlot) == p.maximumConcurrency
      && 0 <= s.running <= p.maximumConcurrency
      && s.running == Count(s.jobs, InRunning)
      && s.queued == Count(s.jobs, Accepted(p)) + Count(s.jobs, Turned(p))
      && Count(s.jobs, Accepted(p)) <= p.maximumQueuedJobs
  {
    hide Inv, Possible, After, HoldsSlot, InRunning, Accepted, Turned, Count;
    InitialInv(p);
    RunInv(p, Initial(p), steps);
    CountsSafe(p, After(p, Initial(p), steps));
  }

  lemma CountsSafe(p: Policy, s: State)
    requires Inv(p, s)
    ensures s.permits >= 0 && s.permits + Count(s.jobs, HoldsSlot) == p.maximumConcurrency
    ensures 0 <= s.running <= p.maximumConcurrency && s.running == Count(s.jobs, InRunning)
    ensures s.queued == Count(s.jobs, Accepted(p)) + Count(s.jobs, Turned(p))
    ensures Count(s.jobs, Accepted(p)) <= p.maximumQueuedJobs
  {
    hide Count;
    CountersWithin(p, s);
    CountSplit(s.jobs, InQueue, Accepted(p), Turned(p));
  }

  /** Stale suppression, in every interleaving: the jobs of a scope that pass the generation
      check do so in strictly increasing generation, and a job ends stale only because a
      later submission of its scope was accepted. */
  lemma ChecksPassInOrder(p: Policy, steps: seq<Step>)
    requires Possible(p, Initial(p), steps)
    ensures var s := After(p, Initial(p), steps);
      && Increasing(s.passed)
      && forall id :: id in s.jobs && s.jobs[id].state == Stale ==> Newer(s, id)
  {
    InitialInv(p);
    RunInv(p, Initial(p), steps);
  }

  lemma {:induction false} GenerationsCount(p: Policy, s: State, steps: seq<Step>, scope: string)
    requires Inv(p, s) && Possible(p, s, steps) && GenerationCounts(s, scope)
    ensures GenerationCounts(After(p, s, steps), scope)
    decreases |steps|
  {
    if steps != [] {
      StepInv(p, s, steps[0]);
      GenerationCountKept(p, s, steps[0], scope);
      hide Inv, Apply, Enabled, GenerationCounts;
      GenerationsCount(p, Apply(p, s, steps[0]), steps[1..], scope);
    }
  }

  /** In every interleaving the generation of a scope is the number of its accepted
      submissions: a rejected submission has no generation and changes none. */
  lemma RejectionTakesNoGeneration(p: Policy, steps: seq<Step>, scope: string)
    requires Possible(p, Initial(p), steps)
    ensures var s := After(p, Initial(p), steps);
      && Current(s, scope) == Count(s.jobs, NumberedIn(scope))
      && forall id :: id in s.jobs && s.jobs[id].phase == Rejected ==> s.jobs[id].generation == 0
  {
    InitialInv(p);
    NoHits(Initial(p).jobs, NumberedIn(scope));
    GenerationsCount(p, Initial(p), steps, scope);
    RunInv(p, Initial(p), steps);
  }

  // ---- Order of counting as completed ----

  /** The counted results are those that passed, except possibly the very last one. */
  ghost predicate CountedUpTo(s: State) {
    || (s.passed == s.counted && forall id :: id in s.jobs ==> s.jobs[id].phase != Fresh)
    || (exists id :: At(s, id, Fresh) && s.passed == s.counted + [EventOf(s, id)])
  }

  lemma OneHolder(p: Policy, s: State, a: nat, b: nat)
    requires Counts(p, s) && p.maximumConcurrency == 1
    requires a in s.jobs && b in s.jobs && HoldsSlot(s.jobs[a]) && HoldsSlot(s.jobs[b])
    ensures a == b
  {
    var holders := Hits(s.jobs, HoldsSlot);
    assert {a, b} <= holders;
    SubsetSize({a, b}, holders);
  }

  /** How a step moves the two logs and the fresh job. */
  lemma LogsFollow(p: Policy, s: State, step: Step)
    requires Enabled(s, step)
    ensures var t, job := Apply(p, s, step), JobAfter(p, s, step);
      && (job.phase == Fresh <==> (step.CheckGeneration? && t.passed == s.passed + [EventOf(s, step.id)])
                                  || (step.Cancel? && At(s, step.id, Fresh)))
      && (!(step.CheckGeneration? && job.phase == Fresh) ==> t.passed == s.passed)
      && (if step.Complete? then t.counted == s.counted + [EventOf(s, step.id)] else t.counted == s.counted)
  {
    hide Current, StateAfter, QueuedAfter, RunningAfter, PermitsAfter, CompletedAfter, CancelledAfter, StaleAfter,
         FailedAfter, GenerationsAfter, ActiveAfter, DeliveredAfter;
  }

  /** What may happen to a fresh job, and only to one. */
  lemma FreshSteps(p: Policy, s: State, step: Step)
    requires Enabled(s, step)
    ensures At(s, step.id, Fresh) ==> step.Complete? || step.Cancel?
    ensures step.Complete? ==> At(s, step.id, Fresh)
    ensures step.Cancel? ==> step.id in s.jobs && JobAfter(p, s, step) == s.jobs[step.id].(token := true)
    ensures step.CheckGeneration? ==> At(s, step.id, Uncancelled)
  {
    hide IsCurrent, Current, EventOf;
  }

  lemma CountedUpToKept(p: Policy, s: State, step: Step)
    requires Inv(p, s) && CountedUpTo(s) && Enabled(s, step) && p.maximumConcurrency == 1
    ensures CountedUpTo(Apply(p, s, step))
  {
    var t := Apply(p, s, step);
    if ready :| At(s, ready, Fresh) {
      FreshRemains(p, s, step, ready);
    } else {
      NoneFresh(p, s, step);
    }
  }

  /** While one job is between its check and its count, no other job is near either. */
  lemma FreshRemains(p: Policy, s: State, step: Step, ready: nat)
    requires Counts(p, s) && CountedUpTo(s) && Enabled(s, step) && p.maximumConcurrency == 1
    requires At(s, ready, Fresh)
    ensures CountedUpTo(Apply(p, s, step))
  {
    hide Apply, JobAfter, Enabled, Counts, HoldsSlot, CountedUpTo;
    var t := Apply(p, s, step);
    OneJobMoves(p, s, step);
    LogsFollow(p, s, step);
    FreshSteps(p, s, step);
    OnlyFresh(p, s, ready);
    if step.CheckGeneration? {
      CheckingHolds(s, ready, step.id);
      OneHolder(p, s, ready, step.id);
    }
    if step.Complete? {
      OneFreshLess(p, s, step, ready);
    } else {
      assert At(t, ready, Fresh) && EventOf(t, ready) == EventOf(s, ready);
      assert t.passed == t.counted + [EventOf(t, ready)];
      StillFresh(t, ready);
    }
  }

  lemma CheckingHolds(s: State, ready: nat, checking: nat)
    requires At(s, ready, Fresh) && At(s, checking, Uncancelled)
    ensures HoldsSlot(s.jobs[ready]) && HoldsSlot(s.jobs[checking])
  {
  }

  lemma StillFresh(t: State, ready: nat)
    requires At(t, ready, Fresh) && t.passed == t.counted + [EventOf(t, ready)]
    ensures CountedUpTo(t)
  {
  }

  /** Completing the only fresh job brings the two logs together. */
  lemma OneFreshLess(p: Policy, s: State, step: Step, ready: nat)
    requires Enabled(s, step) && step.Complete? && At(s, ready, Fresh) && s.passed == s.counted + [EventOf(s, ready)]
    requires forall id :: id in s.jobs && s.jobs[id].phase == Fresh ==> id == ready
    ensures CountedUpTo(Apply(p, s, step))
  {
    OneJobMoves(p, s, step);
    LogsFollow(p, s, step);
    FreshSteps(p, s, step);
    hide Apply, JobAfter, Enabled;
  }

  lemma OnlyFresh(p: Policy, s: State, ready: nat)
    requires Counts(p, s) && CountedUpTo(s) && p.maximumConcurrency == 1 && At(s, ready, Fresh)
    ensures s.passed == s.counted + [EventOf(s, ready)]
    ensures forall id :: id in s.jobs && s.jobs[id].phase == Fresh ==> id == ready
  {
    forall id | id in s.jobs && s.jobs[id].phase == Fresh ensures id == ready {
      OneHolder(p, s, id, ready);
    }
  }

  lemma NoneFresh(p: Policy, s: State, step: Step)
    requires CountedUpTo(s) && Enabled(s, step)
    requires forall id :: !At(s, id, Fresh)
    ensures CountedUpTo(Apply(p, s, step))
  {
    hide Apply, JobAfter, Enabled;
    var t := Apply(p, s, step);
    OneJobMoves(p, s, step);
    LogsFollow(p, s, step);
    FreshSteps(p, s, step);
    assert s.passed == s.counted;
    if step.CheckGeneration? && t.jobs[step.id].phase == Fresh {
      CheckKeepsEvent(p, s, step);
      StillFresh(t, step.id);
    }
  }

  lemma CheckKeepsEvent(p: Policy, s: State, step: Step)
    requires Enabled(s, step) && step.CheckGeneration?
    ensures step.id in Apply(p, s, step).jobs && EventOf(Apply(p, s, step), step.id) == EventOf(s, step.id)
  {
    hide IsCurrent, Current, StateAfter;
  }

  lemma {:induction false} CountedUpToThroughout(p: Policy, s: State, steps: seq<Step>)
    requires Inv(p, s) && CountedUpTo(s) && Possible(p, s, steps) && p.maximumConcurrency == 1
    ensures CountedUpTo(After(p, s, steps))
    decreases |steps|
  {
    hide Inv, CountedUpTo, Apply, Enabled;
    if steps != [] {
      StepInv(p, s, steps[0]);
      CountedUpToKept(p, s, steps[0]);
      CountedUpToThroughout(p, Apply(p, s, steps[0]), steps[1..]);
    }
  }

  lemma SerialCountsInOrder(p: Policy, steps: seq<Step>)
    requires p.maximumConcurrency == 1 && Possible(p, Initial(p), steps)
    ensures Increasing(After(p, Initial(p), steps).counted)
  {
    InitialInv(p);
    RunInv(p, Initial(p), steps);
    assert CountedUpTo(Initial(p));
    CountedUpToThroughout(p, Initial(p), steps);
    hide Inv, CountedUpTo, Possible, After, Increasing;
    CountedPrefix(p, After(p, Initial(p), steps));
  }

  lemma CountedPrefix(p: Policy, s: State)
    requires Inv(p, s) && CountedUpTo(s)
    ensures Increasing(s.counted)
  {
    assert s.counted <= s.passed;
    IncreasingPrefix(s.passed, s.counted);
  }

  lemma IncreasingPrefix(events: seq<Event>, front: seq<Event>)
    requires Increasing(events) && front <= events
    ensures Increasing(front)
  {
    assert forall i :: 0 <= i < |front| ==> front[i] == events[i];
  }

  // ---- Single steps, written out ----

  lemma CompleteIs(p: Policy, s: State, id: nat)
    requires At(s, id, Fresh)
    ensures Enabled(s, Complete(id))
    ensures Apply(p, s, Complete(id))
      == s.(completed := s.completed + 1, counted := s.counted + [EventOf(s, id)],
            jobs := s.jobs[id := s.jobs[id].(phase := Finishing, state := Completed)])
  {
  }

  lemma CheckIs(p: Policy, s: State, id: nat)
    requires At(s, id, Uncancelled)
    ensures Enabled(s, CheckGeneration(id))
    ensures Apply(p, s, CheckGeneration(id))
      == s.(passed := if IsCurrent(s, s.jobs[id]) then s.passed + [EventOf(s, id)] else s.passed,
            jobs := s.jobs[id := s.jobs[id].(phase := if IsCurrent(s, s.jobs[id]) then Fresh else Superseded)])
  {
  }

  lemma FinishIs(p: Policy, s: State, id: nat)
    requires At(s, id, Finishing)
    ensures Enabled(s, Finish(id))
    ensures Apply(p, s, Finish(id))
      == if s.jobs[id].entered then s.(running := s.running - 1, jobs := s.jobs[id := s.jobs[id].(phase := Releasing)])
         else s.(queued := s.queued - 1, jobs := s.jobs[id := s.jobs[id].(phase := Removing)])
  {
  }

  lemma DeliverIs(p: Policy, s: State, id: nat)
    requires At(s, id, Delivering)
    ensures Enabled(s, Deliver(id))
    ensures Apply(p, s, Deliver(id))
      == s.(delivered := if s.jobs[id].state == Completed then s.delivered + [EventOf(s, id)] else s.delivered,
            jobs := s.jobs[id := s.jobs[id].(phase := Done)])
  {
  }

  lemma ReleaseIs(p: Policy, s: State, id: nat)
    requires At(s, id, Releasing)
    ensures Enabled(s, Release(id))
    ensures Apply(p, s, Release(id)) == s.(permits := s.permits + 1, jobs := s.jobs[id := s.jobs[id].(phase := Removing)])
  {
  }

  lemma RemoveIs(p: Policy, s: State, id: nat)
    requires At(s, id, Removing)
    ensures Enabled(s, Remove(id))
    ensures Apply(p, s, Remove(id)) == s.(active := s.active - {id}, jobs := s.jobs[id := s.jobs[id].(phase := Delivering)])
  {
  }

  lemma ReturnIs(p: Policy, s: State, id: nat)
    requires At(s, id, Executing)
    ensures Enabled(s, Return(id))
    ensures Apply(p, s, Return(id)) == s.(jobs := s.jobs[id := s.jobs[id].(phase := Returned)])
  {
  }

  lemma TokenIs(p: Policy, s: State, id: nat)
    requires At(s, id, Returned) && !s.jobs[id].token
    ensures Enabled(s, CheckToken(id))
    ensures Apply(p, s, CheckToken(id)) == s.(jobs := s.jobs[id := s.jobs[id].(phase := Uncancelled)])
  {
  }

  // ---- Runs written out ----

  /** One job from submission to a passed generation check. */
  function ToSlot(id: nat, scope: string): seq<Step> {
    [Submit(id, scope)] + ([Decide(id)] + ([Bump(id)] + ([Register(id)] + ([Acquire(id)] + []))))
  }

  function ToRun(id: nat): seq<Step> {
    [LeaveQueue(id)] + ([EnterRunning(id)] + [])
  }

  function ToCheck(id: nat): seq<Step> {
    [Return(id)] + ([CheckToken(id)] + ([CheckGeneration(id)] + []))
  }

  function ToVerdict(id: nat, scope: string): seq<Step> {
    ToSlot(id, scope) + (ToRun(id) + ToCheck(id))
  }

  lemma ToSlotRuns(p: Policy, s: State, id: nat, scope: string)
    requires id !in s.jobs && s.queued == 0 && s.permits > 0 && p.maximumQueuedJobs >= 1
    ensures Possible(p, s, ToSlot(id, scope))
    ensures var g := Current(s, scope) + 1;
      After(p, s, ToSlot(id, scope))
      == s.(queued := 1, permits := s.permits - 1, generations := s.generations[scope := g], active := s.active + {id},
            jobs := s.jobs[id := Job(scope, g, Entered, Queued, true, false)])
  {
    hide Possible, After;
    var s1 := Apply(p, s, Submit(id, scope));
    var s2 := Apply(p, s1, Decide(id));
    NumberedToSlot(p, s2, id);
    hide Apply;
    Prepend(p, s1, Decide(id), [Bump(id)] + ([Register(id)] + ([Acquire(id)] + [])));
    Prepend(p, s, Submit(id, scope), [Decide(id)] + ([Bump(id)] + ([Register(id)] + ([Acquire(id)] + []))));
  }

  lemma NumberedToSlot(p: Policy, s: State, id: nat)
    requires At(s, id, Admitted) && s.permits > 0
    ensures var steps := [Bump(id)] + ([Register(id)] + ([Acquire(id)] + []));
      var scope := s.jobs[id].scope;
      var g := Current(s, scope) + 1;
      && Possible(p, s, steps)
      && After(p, s, steps)
         == s.(permits := s.permits - 1, generations := s.generations[scope := g], active := s.active + {id},
               jobs := s.jobs[id := s.jobs[id].(phase := Entered, generation := g, entered := true)])
  {
    hide Possible, After;
    RegisteredToSlot(p, Apply(p, s, Bump(id)), id);
    Prepend(p, s, Bump(id), [Register(id)] + ([Acquire(id)] + []));
  }

  lemma RegisteredToSlot(p: Policy, s: State, id: nat)
    requires At(s, id, Numbered) && s.permits > 0
    ensures var steps := [Register(id)] + ([Acquire(id)] + []);
      && Possible(p, s, steps)
      && After(p, s, steps)
         == s.(permits := s.permits - 1, active := s.active + {id},
               jobs := s.jobs[id := s.jobs[id].(phase := Entered, entered := true)])
  {
    hide Possible, After;
    var s1 := Apply(p, s, Register(id));
    Stop(p, Apply(p, s1, Acquire(id)));
    Prepend(p, s1, Acquire(id), []);
    Prepend(p, s, Register(id), [Acquire(id)] + []);
  }

  lemma ToRunRuns(p: Policy, s: State, id: nat)
    requires At(s, id, Entered)
    ensures Possible(p, s, ToRun(id))
    ensures After(p, s, ToRun(id))
      == s.(queued := s.queued - 1, running := s.running + 1,
            jobs := s.jobs[id := s.jobs[id].(phase := Executing, state := Running)])
  {
    hide Possible, After;
    var s1 := Apply(p, s, LeaveQueue(id));
    var s2 := Apply(p, s1, EnterRunning(id));
    Stop(p, s2);
    Prepend(p, s1, EnterRunning(id), []);
    Prepend(p, s, LeaveQueue(id), [EnterRunning(id)] + []);
  }

  lemma ToCheckRuns(p: Policy, s: State, id: nat)
    requires At(s, id, Executing) && !s.jobs[id].token && IsCurrent(s, s.jobs[id])
    ensures Possible(p, s, ToCheck(id))
    ensures After(p, s, ToCheck(id))
      == s.(passed := s.passed + [EventOf(s, id)], jobs := s.jobs[id := s.jobs[id].(phase := Fresh)])
  {
    ReturnIs(p, s, id);
    var s1 := Apply(p, s, Return(id));
    TokenIs(p, s1, id);
    hide Possible, After, Apply, Enabled;
    CurrentPasses(p, Apply(p, s1, CheckToken(id)), id);
    Prepend(p, s1, CheckToken(id), [CheckGeneration(id)] + []);
    Prepend(p, s, Return(id), [CheckToken(id)] + ([CheckGeneration(id)] + []));
  }

  lemma CurrentPasses(p: Policy, s: State, id: nat)
    requires At(s, id, Uncancelled) && IsCurrent(s, s.jobs[id])
    ensures Possible(p, s, [CheckGeneration(id)] + [])
    ensures After(p, s, [CheckGeneration(id)] + [])
      == s.(passed := s.passed + [EventOf(s, id)], jobs := s.jobs[id := s.jobs[id].(phase := Fresh)])
  {
    hide Possible, After;
    Stop(p, Apply(p, s, CheckGeneration(id)));
    Prepend(p, s, CheckGeneration(id), []);
  }

  /** Job 1 passes its check, job 2 of the same scope is submitted, passes and is counted,
      and only then is job 1. */
  function Inversion(scope: string): seq<Step> {
    ToVerdict(1, scope) + (ToVerdict(2, scope) + ([Complete(2)] + ([Complete(1)] + [])))
  }

  lemma TrackRuns(p: Policy, s: State, id: nat, scope: string)
    requires id !in s.jobs && s.queued == 0 && s.permits > 0 && p.maximumQueuedJobs >= 1
    ensures Possible(p, s, ToVerdict(id, scope))
    ensures var g := Current(s, scope) + 1;
      After(p, s, ToVerdict(id, scope))
      == s.(running := s.running + 1, permits := s.permits - 1, generations := s.generations[scope := g],
            active := s.active + {id}, passed := s.passed + [Event(id, scope, g)],
            jobs := s.jobs[id := Job(scope, g, Fresh, Running, true, false)])
  {
    hide Possible, After, Apply, ToSlot, ToRun, ToCheck;
    ToSlotRuns(p, s, id, scope);
    var m := After(p, s, ToSlot(id, scope));
    ToRunRuns(p, m, id);
    var n := After(p, m, ToRun(id));
    ToCheckRuns(p, n, id);
    Concatenated(p, m, ToRun(id), ToCheck(id));
    Concatenated(p, s, ToSlot(id, scope), ToRun(id) + ToCheck(id));
  }

  /** With two slots a result can be counted after a newer one of its scope. */
  lemma ParallelCountsOutOfOrder(p: Policy, scope: string)
    requires p.maximumConcurrency >= 2 && p.maximumQueuedJobs >= 1
    ensures Possible(p, Initial(p), Inversion(scope))
    ensures After(p, Initial(p), Inversion(scope)).counted == [Event(2, scope, 2), Event(1, scope, 1)]
  {
    hide Possible, After, Apply, ToVerdict;
    var s := Initial(p);
    var first, second := ToVerdict(1, scope), ToVerdict(2, scope);
    TrackRuns(p, s, 1, scope);
    var m := After(p, s, first);
    TrackRuns(p, m, 2, scope);
    var n := After(p, m, second);
    CompleteTwo(p, n);
    Concatenated(p, m, second, [Complete(2)] + ([Complete(1)] + []));
    Concatenated(p, s, first, second + ([Complete(2)] + ([Complete(1)] + [])));
  }

  lemma CompleteTwo(p: Policy, s: State)
    requires At(s, 1, Fresh) && At(s, 2, Fresh)
    ensures Possible(p, s, [Complete(2)] + ([Complete(1)] + []))
    ensures After(p, s, [Complete(2)] + ([Complete(1)] + [])).counted == s.counted + [EventOf(s, 2), EventOf(s, 1)]
  {
    hide Possible, After;
    var s1 := Apply(p, s, Complete(2));
    var s2 := Apply(p, s1, Complete(1));
    Stop(p, s2);
    Prepend(p, s1, Complete(1), []);
    Prepend(p, s, Complete(2), [Complete(1)] + []);
  }

  /** Results of every scope are counted in generation order, in every interleaving,
      exactly when there is a single slot. */
  lemma CountingOrderIff(p: Policy)
    requires ValidPolicy(p)
    ensures (forall steps :: Possible(p, Initial(p), steps) ==> Increasing(After(p, Initial(p), steps).counted))
        <==> p.maximumConcurrency == 1
  {
    if p.maximumConcurrency == 1 {
      forall steps | Possible(p, Initial(p), steps)
        ensures Increasing(After(p, Initial(p), steps).counted)
      {
        SerialCountsInOrder(p, steps);
      }
    } else {
      ParallelCountsOutOfOrder(p, "scope");
      var events := After(p, Initial(p), Inversion("scope")).counted;
      assert events[0].generation > events[1].generation && events[0].scope == events[1].scope;
      assert !Increasing(events);
    }
  }

  // ---- Drain ----

  /** How many steps a job has left at most. */
  function Rank(phase: Phase): nat {
    match phase
    case Counted(_) => 15
    case Rejecting => 1
    case Rejected => 0
    case Admitted => 14
    case Numbered => 13
    case Waiting => 12
    case Entered => 11
    case LeftQueue => 10
    case Executing => 9
    case Returned => 8
    case Uncancelled => 7
    case Fresh => 5
    case Superseded => 6
    case Caught => 5
    case Erring => 5
    case Finishing => 4
    case Releasing => 3
    case Removing => 2
    case Delivering => 1
    case Done => 0
  }

  ghost function Ranks(jobs: map<nat, Job>): map<nat, nat> {
    map id | id in jobs :: Rank(jobs[id].phase)
  }

  ghost function Measure(s: State): nat {
    Sum(Ranks(s.jobs))
  }

  /** Progress of existing jobs, as opposed to new work and outside cancellation. */
  predicate Advances(step: Step) {
    !step.Submit? && !step.Cancel?
  }

  lemma RankFollows(p: Policy, s: State, step: Step)
    requires Enabled(s, step) && !step.Submit?
    ensures step.id in s.jobs
    ensures Advances(step) ==> Rank(JobAfter(p, s, step).phase) < Rank(s.jobs[step.id].phase)
    ensures step.Cancel? ==> Rank(JobAfter(p, s, step).phase) == Rank(s.jobs[step.id].phase)
  {
    hide IsCurrent, Current, StateAfter;
  }

  lemma StepTowardsDrain(p: Policy, s: State, step: Step)
    requires Enabled(s, step) && !step.Submit?
    ensures Advances(step) ==> Measure(Apply(p, s, step)) < Measure(s)
    ensures step.Cancel? ==> Measure(Apply(p, s, step)) == Measure(s)
  {
    RankFollows(p, s, step);
    OneJobMoves(p, s, step);
    var job := JobAfter(p, s, step);
    hide Apply, JobAfter, Enabled, Rank;
    SumSplit(Ranks(s.jobs), step.id);
    SumInsert(Ranks(s.jobs), step.id, Rank(job.phase));
    assert Ranks(Apply(p, s, step).jobs) == Ranks(s.jobs)[step.id := Rank(job.phase)];
  }

  predicate Settled(s: State) {
    forall id :: id in s.jobs ==> s.jobs[id].phase == Done || s.jobs[id].phase == Rejected
  }

  /** The step a job can take next; a waiting job needs a free slot. */
  function NextOf(s: State, id: nat): Step
    requires id in s.jobs
  {
    match s.jobs[id].phase
    case Counted(_) => Decide(id)
    case Rejecting => Reject(id)
    case Rejected => Reject(id)
    case Admitted => Bump(id)
    case Numbered => Register(id)
    case Waiting => Acquire(id)
    case Entered => LeaveQueue(id)
    case LeftQueue => EnterRunning(id)
    case Executing => Return(id)
    case Returned => CheckToken(id)
    case Uncancelled => CheckGeneration(id)
    case Fresh => Complete(id)
    case Superseded => MarkStale(id)
    case Caught => CatchCancellation(id)
    case Erring => CatchError(id)
    case Finishing => Finish(id)
    case Releasing => Release(id)
    case Removing => Remove(id)
    case Delivering => Deliver(id)
    case Done => Deliver(id)
  }

  lemma NextEnabled(s: State, id: nat)
    requires id in s.jobs && s.jobs[id].phase != Done && s.jobs[id].phase != Rejected
    requires s.jobs[id].phase == Waiting ==> s.permits > 0
    ensures Enabled(s, NextOf(s, id)) && Advances(NextOf(s, id))
  {
  }

  lemma SomeHolder(p: Policy, s: State) returns (id: nat)
    requires Counts(p, s) && s.permits == 0 && p.maximumConcurrency >= 1
    ensures id in s.jobs && HoldsSlot(s.jobs[id])
  {
    var holders := Hits(s.jobs, HoldsSlot);
    assert |holders| >= 1;
    id :| id in holders;
  }

  /** No deadlock: while any job is unsettled, some job can advance. */
  lemma SomeStepEnabled(p: Policy, s: State) returns (step: Step)
    requires Inv(p, s) && p.maximumConcurrency >= 1 && !Settled(s)
    ensures Enabled(s, step) && Advances(step)
  {
    hide QueueBounded, Outcomes, ActiveOk, NumbersOk, PassesOk, StaleOk, Count, NextOf, Enabled;
    var id :| id in s.jobs && s.jobs[id].phase != Done && s.jobs[id].phase != Rejected;
    if s.jobs[id].phase == Waiting && s.permits == 0 {
      id := SomeHolder(p, s);
    }
    assert s.permits >= 0;
    NextEnabled(s, id);
    step := NextOf(s, id);
  }

  /** Took a generation: the submission was accepted. */
  predicate WasAccepted(j: Job) {
    j.generation > 0
  }

  /** Everything is returned, and every accepted job has exactly one counted outcome. */
  ghost predicate Drained(p: Policy, s: State) {
    && s.queued == 0 && s.running == 0 && s.permits == p.maximumConcurrency && s.active == {}
    && s.completed + s.cancelled + s.stale + s.failed == Count(s.jobs, WasAccepted)
  }

  lemma NoHits(m: map<nat, Job>, p: Job -> bool)
    requires forall id :: id in m ==> !p(m[id])
    ensures Count(m, p) == 0
  {
    assert Hits(m, p) == {};
  }

  function EitherState(a: JobState, b: JobState): Job -> bool {
    (j: Job) => j.state == a || j.state == b
  }

  lemma SettledIsDrained(p: Policy, s: State)
    requires Inv(p, s) && Settled(s)
    ensures Drained(p, s)
  {
    hide QueueBounded, Outcomes, ActiveOk, NumbersOk, PassesOk, StaleOk, Count, Settled, EnteredOk;
    OutcomesAddUp(s);
    NoneRegistered(s);
    NoneCounted(s);
  }

  lemma NoneCounted(s: State)
    requires Settled(s)
    ensures Count(s.jobs, InQueue) == Count(s.jobs, InRunning) == Count(s.jobs, HoldsSlot) == 0
  {
    hide Count;
    NoHits(s.jobs, InQueue);
    NoHits(s.jobs, InRunning);
    NoHits(s.jobs, HoldsSlot);
  }

  lemma NoneRegistered(s: State)
    requires ActiveOk(s) && Settled(s)
    ensures s.active == {}
  {
    forall id ensures id !in s.active {
    }
  }

  lemma SettledJob(j: Job)
    requires StateOk(j) && (j.generation == 0 <==> BeforeNumber(j)) && (j.phase == Done || j.phase == Rejected)
    ensures WasAccepted(j) <==> EitherState(Completed, Cancelled)(j) || EitherState(Stale, Failed)(j)
  {
  }

  lemma OutcomesAddUp(s: State)
    requires Outcomes(s) && NumbersOk(s) && Settled(s)
    ensures s.completed + s.cancelled + s.stale + s.failed == Count(s.jobs, WasAccepted)
  {
    forall id | id in s.jobs
      ensures WasAccepted(s.jobs[id])
          <==> EitherState(Completed, Cancelled)(s.jobs[id]) || EitherState(Stale, Failed)(s.jobs[id])
    {
      SettledJob(s.jobs[id]);
    }
    hide NumbersOk, StateOk, WasAccepted, Count;
    CountSplit(s.jobs, EitherState(Completed, Cancelled), InState(Completed), InState(Cancelled));
    CountSplit(s.jobs, EitherState(Stale, Failed), InState(Stale), InState(Failed));
    CountSplit(s.jobs, WasAccepted, EitherState(Completed, Cancelled), EitherState(Stale, Failed));
  }

  function AdvanceCount(steps: seq<Step>): nat {
    if steps == [] then 0 else (if Advances(steps[0]) then 1 else 0) + AdvanceCount(steps[1..])
  }

  /** Once no new work arrives, a run makes at most `Measure` advances, and when none is
      possible any more the scheduler has drained. */
  lemma {:induction false} RunsDrain(p: Policy, s: State, steps: seq<Step>)
    requires Inv(p, s) && p.maximumConcurrency >= 1 && Possible(p, s, steps)
    requires forall step :: step in steps ==> !step.Submit?
    ensures AdvanceCount(steps) + Measure(After(p, s, steps)) <= Measure(s)
    ensures (forall step :: Enabled(After(p, s, steps), step) ==> !Advances(step)) ==> Drained(p, After(p, s, steps))
    decreases |steps|
  {
    if steps == [] {
      if Settled(s) {
        SettledIsDrained(p, s);
      } else {
        var step := SomeStepEnabled(p, s);
      }
    } else {
      assert steps[0] in steps;
      StepInv(p, s, steps[0]);
      StepTowardsDrain(p, s, steps[0]);
      hide Inv, Apply, Enabled, Measure, Drained;
      RunsDrain(p, Apply(p, s, steps[0]), steps[1..]);
    }
  }

  /** And such a run always exists. */
  lemma {:induction false} CanDrain(p: Policy, s: State) returns (steps: seq<Step>)
    requires Inv(p, s) && p.maximumConcurrency >= 1
    ensures Possible(p, s, steps) && (forall step :: step in steps ==> Advances(step))
    ensures Drained(p, After(p, s, steps))
    decreases Measure(s)
  {
    if Settled(s) {
      SettledIsDrained(p, s);
      Stop(p, s);
      steps := [];
    } else {
      var step := SomeStepEnabled(p, s);
      StepInv(p, s, step);
      StepTowardsDrain(p, s, step);
      hide Inv, Apply, Enabled, Measure, Drained, Possible, After;
      var rest := CanDrain(p, Apply(p, s, step));
      Prepend(p, s, step, rest);
      steps := [step] + rest;
    }
  }
}
