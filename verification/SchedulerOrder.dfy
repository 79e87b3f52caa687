/** Currency and order of results: exactly when a job that passed its generation check is
    still the newest of its scope, what no policy guarantees, and what one job at a time
    per scope restores. */
module SchedulerOrder {
  import opened FiniteMaps
  import opened Scheduler
  import opened SchedulerSafety
  import opened SchedulerRuns

  // ---- Currency ----

  predicate Numbers(s: State, step: Step, scope: string) {
    step.Bump? && step.id in s.jobs && s.jobs[step.id].scope == scope
  }

  /** Accepted submissions of a scope during a run. */
  function BumpCount(p: Policy, s: State, steps: seq<Step>, scope: string): nat
    requires Possible(p, s, steps)
    decreases |steps|
  {
    if steps == [] then 0
    else (if Numbers(s, steps[0], scope) then 1 else 0) + BumpCount(p, Apply(p, s, steps[0]), steps[1..], scope)
  }

  lemma CurrentStep(p: Policy, s: State, step: Step, scope: string)
    requires Enabled(s, step)
    ensures Current(Apply(p, s, step), scope) == Current(s, scope) + (if Numbers(s, step, scope) then 1 else 0)
  {
    NumbersFollow(p, s, step);
    hide Apply, JobAfter, BeforeNumber;
  }

  /** A numbered job keeps its scope and its generation for good. */
  lemma NumberStays(p: Policy, s: State, step: Step, id: nat)
    requires Enabled(s, step) && id in s.jobs && !BeforeNumber(s.jobs[id])
    ensures var t := Apply(p, s, step);
      && id in t.jobs && !BeforeNumber(t.jobs[id])
      && t.jobs[id].scope == s.jobs[id].scope && t.jobs[id].generation == s.jobs[id].generation
  {
    OneJobMoves(p, s, step);
    if id == step.id {
      SubmitIsNew(s, step);
      if step.Bump? { NumberedNotBumped(s, step); }
      NumbersFollow(p, s, step);
    }
    hide Apply, JobAfter, Enabled, BeforeNumber;
  }

  lemma NumberedNotBumped(s: State, step: Step)
    requires Enabled(s, step) && step.Bump?
    ensures step.id in s.jobs && BeforeNumber(s.jobs[step.id])
  {
  }

  lemma {:induction false} NumbersSince(p: Policy, s: State, steps: seq<Step>, id: nat)
    requires Possible(p, s, steps) && id in s.jobs && !BeforeNumber(s.jobs[id])
    ensures var t, scope := After(p, s, steps), s.jobs[id].scope;
      && id in t.jobs && !BeforeNumber(t.jobs[id])
      && t.jobs[id].scope == scope && t.jobs[id].generation == s.jobs[id].generation
      && Current(t, scope) == Current(s, scope) + BumpCount(p, s, steps, scope)
    decreases |steps|
  {
    if steps != [] {
      NumberStays(p, s, steps[0], id);
      CurrentStep(p, s, steps[0], s.jobs[id].scope);
      hide Apply, Enabled, BeforeNumber, Current, Numbers;
      NumbersSince(p, Apply(p, s, steps[0]), steps[1..], id);
    }
  }

  /** The state right after the generation check. */
  function Checked(p: Policy, s: State, id: nat): State
    requires At(s, id, Uncancelled)
  {
    Apply(p, s, CheckGeneration(id))
  }

  lemma CheckedIs(p: Policy, s: State, id: nat)
    requires At(s, id, Uncancelled)
    ensures var t := Checked(p, s, id);
      && id in t.jobs && t.jobs[id].scope == s.jobs[id].scope && t.generations == s.generations
      && (At(t, id, Fresh) ==> IsCurrent(t, t.jobs[id]))
  {
  }

  /** If a job passes its generation check then at any later moment, and so when it is counted
      or delivered, it is current exactly if no submission of its scope was accepted since. */
  lemma CurrentSinceCheckIff(p: Policy, s: State, id: nat, later: seq<Step>)
    requires Inv(p, s) && At(s, id, Uncancelled) && Possible(p, Checked(p, s, id), later)
    requires At(Checked(p, s, id), id, Fresh)
    ensures var t := After(p, Checked(p, s, id), later);
      && id in t.jobs
      && (IsCurrent(t, t.jobs[id]) <==> BumpCount(p, Checked(p, s, id), later, s.jobs[id].scope) == 0)
  {
    hide Inv, Possible, After, BumpCount, BeforeNumber, Apply;
    CheckedIs(p, s, id);
    StepInv(p, s, CheckGeneration(id));
    var t := Checked(p, s, id);
    FreshIsNumbered(t, id);
    NumberedIsListed(p, t, id);
    NumbersSince(p, t, later, id);
  }

  lemma FreshIsNumbered(s: State, id: nat)
    requires At(s, id, Fresh)
    ensures !BeforeNumber(s.jobs[id])
  {
  }

  lemma NumberedIsListed(p: Policy, s: State, id: nat)
    requires Inv(p, s) && id in s.jobs && !BeforeNumber(s.jobs[id])
    ensures s.jobs[id].scope in s.generations && s.jobs[id].generation > 0
  {
    assert s.jobs[id].generation <= Current(s, s.jobs[id].scope);
  }

  // ---- What no policy guarantees ----

  /** Job 1 passes its check; a second submission of its scope is accepted before job 1 is
      counted as completed. */
  function Superseding(scope: string): seq<Step> {
    ToVerdict(1, scope) + ([Submit(2, scope)] + ([Decide(2)] + ([Bump(2)] + ([Complete(1)] + []))))
  }

  /** Under every policy, one slot included, a job can be counted as completed although it
      is no longer current for its scope. */
  lemma CompletedNeedNotBeCurrent(p: Policy, scope: string)
    requires ValidPolicy(p)
    ensures Possible(p, Initial(p), Superseding(scope))
    ensures var s := After(p, Initial(p), Superseding(scope));
      1 in s.jobs && s.jobs[1].state == Completed && !IsCurrent(s, s.jobs[1])
  {
    hide Possible, After, Apply, ToVerdict;
    TrackRuns(p, Initial(p), 1, scope);
    var s := After(p, Initial(p), ToVerdict(1, scope));
    SupersedeRuns(p, s, scope);
    Concatenated(p, Initial(p), ToVerdict(1, scope), [Submit(2, scope)] + ([Decide(2)] + ([Bump(2)] + ([Complete(1)] + []))));
  }

  lemma SupersedeRuns(p: Policy, s: State, scope: string)
    requires At(s, 1, Fresh) && s.jobs[1].scope == scope && 2 !in s.jobs && s.queued == 0 && p.maximumQueuedJobs >= 1
    requires s.jobs[1].generation == Current(s, scope)
    ensures var steps := [Submit(2, scope)] + ([Decide(2)] + ([Bump(2)] + ([Complete(1)] + [])));
      && Possible(p, s, steps)
      && var t := After(p, s, steps); 1 in t.jobs && t.jobs[1].state == Completed && !IsCurrent(t, t.jobs[1])
  {
    hide Possible, After, IsCurrent, EventOf;
    var s1 := Apply(p, s, Submit(2, scope));
    AcceptedSupersedes(p, Apply(p, s1, Decide(2)), scope);
    hide Apply;
    Prepend(p, s1, Decide(2), [Bump(2)] + ([Complete(1)] + []));
    Prepend(p, s, Submit(2, scope), [Decide(2)] + ([Bump(2)] + ([Complete(1)] + [])));
  }

  lemma AcceptedSupersedes(p: Policy, s: State, scope: string)
    requires At(s, 1, Fresh) && s.jobs[1].scope == scope && s.jobs[1].generation == Current(s, scope)
    requires At(s, 2, Admitted) && s.jobs[2].scope == scope
    ensures var steps := [Bump(2)] + ([Complete(1)] + []);
      && Possible(p, s, steps)
      && var t := After(p, s, steps); 1 in t.jobs && t.jobs[1].state == Completed && !IsCurrent(t, t.jobs[1])
  {
    hide Possible, After, EventOf;
    var s1 := Apply(p, s, Bump(2));
    Stop(p, Apply(p, s1, Complete(1)));
    Prepend(p, s1, Complete(1), []);
    Prepend(p, s, Bump(2), [Complete(1)] + []);
  }

  function ToRelease(id: nat): seq<Step> {
    [Complete(id)] + ([Finish(id)] + ([Release(id)] + []))
  }

  function ToCaller(id: nat): seq<Step> {
    [Remove(id)] + ([Deliver(id)] + [])
  }

  lemma ToReleaseRuns(p: Policy, s: State, id: nat)
    requires At(s, id, Fresh) && s.jobs[id].entered
    ensures Possible(p, s, ToRelease(id))
    ensures After(p, s, ToRelease(id))
      == s.(completed := s.completed + 1, counted := s.counted + [EventOf(s, id)], running := s.running - 1,
            permits := s.permits + 1, jobs := s.jobs[id := s.jobs[id].(phase := Removing, state := Completed)])
  {
    hide Possible, After, IsCurrent, Current;
    FinishRuns(p, Apply(p, s, Complete(id)), id);
    Prepend(p, s, Complete(id), [Finish(id)] + ([Release(id)] + []));
  }

  lemma FinishRuns(p: Policy, s: State, id: nat)
    requires At(s, id, Finishing) && s.jobs[id].entered
    ensures var steps := [Finish(id)] + ([Release(id)] + []);
      && Possible(p, s, steps)
      && After(p, s, steps)
         == s.(running := s.running - 1, permits := s.permits + 1, jobs := s.jobs[id := s.jobs[id].(phase := Removing)])
  {
    FinishIs(p, s, id);
    var s1 := Apply(p, s, Finish(id));
    ReleaseIs(p, s1, id);
    hide Possible, After, Apply, Enabled;
    Stop(p, Apply(p, s1, Release(id)));
    Prepend(p, s1, Release(id), []);
    Prepend(p, s, Finish(id), [Release(id)] + []);
  }

  lemma ToCallerRuns(p: Policy, s: State, id: nat)
    requires At(s, id, Removing) && s.jobs[id].state == Completed
    ensures Possible(p, s, ToCaller(id))
    ensures After(p, s, ToCaller(id))
      == s.(active := s.active - {id}, delivered := s.delivered + [EventOf(s, id)],
            jobs := s.jobs[id := s.jobs[id].(phase := Done)])
  {
    RemoveIs(p, s, id);
    var s1 := Apply(p, s, Remove(id));
    DeliverIs(p, s1, id);
    hide Possible, After, Apply, Enabled;
    Stop(p, Apply(p, s1, Deliver(id)));
    Prepend(p, s1, Deliver(id), []);
    Prepend(p, s, Remove(id), [Deliver(id)] + []);
  }

  /** Job 1 releases its slot but its task completes last; job 2 of the same scope runs from
      start to delivery in between. */
  function LateDelivery(scope: string): seq<Step> {
    ToVerdict(1, scope) + (ToRelease(1) + (ToVerdict(2, scope) + (ToRelease(2) + (ToCaller(2) + ToCaller(1)))))
  }

  /** Under every policy, one slot included, a caller can receive an older result of a scope
      after a newer one: the slot is released before the result is delivered. */
  lemma DeliveryOrderNotGuaranteed(p: Policy, scope: string)
    requires ValidPolicy(p)
    ensures Possible(p, Initial(p), LateDelivery(scope))
    ensures After(p, Initial(p), LateDelivery(scope)).delivered == [Event(2, scope, 2), Event(1, scope, 1)]
    ensures !Increasing(After(p, Initial(p), LateDelivery(scope)).delivered)
  {
    hide Possible, After, Apply, ToVerdict, ToRelease, ToCaller;
    var s := Initial(p);
    TrackRuns(p, s, 1, scope);
    var s1 := After(p, s, ToVerdict(1, scope));
    ToReleaseRuns(p, s1, 1);
    var s2 := After(p, s1, ToRelease(1));
    OvertakenDelivery(p, s2, scope);
    var rest := ToVerdict(2, scope) + (ToRelease(2) + (ToCaller(2) + ToCaller(1)));
    Concatenated(p, s1, ToRelease(1), rest);
    Concatenated(p, s, ToVerdict(1, scope), ToRelease(1) + rest);
    var events := After(p, s, LateDelivery(scope)).delivered;
    assert events[0].scope == events[1].scope && events[0].generation > events[1].generation;
  }

  lemma OvertakenDelivery(p: Policy, s: State, scope: string)
    requires At(s, 1, Removing) && s.jobs[1].state == Completed && s.jobs[1].scope == scope
    requires 2 !in s.jobs && s.queued == 0 && s.permits > 0 && p.maximumQueuedJobs >= 1
    ensures var steps := ToVerdict(2, scope) + (ToRelease(2) + (ToCaller(2) + ToCaller(1)));
      && Possible(p, s, steps)
      && After(p, s, steps).delivered
         == s.delivered + [Event(2, scope, Current(s, scope) + 1)] + [Event(1, scope, s.jobs[1].generation)]
  {
    hide Possible, After, Apply, ToVerdict, ToRelease, ToCaller, Current;
    TrackRuns(p, s, 2, scope);
    var s1 := After(p, s, ToVerdict(2, scope));
    ToReleaseRuns(p, s1, 2);
    var s2 := After(p, s1, ToRelease(2));
    ToCallerRuns(p, s2, 2);
    var s3 := After(p, s2, ToCaller(2));
    ToCallerRuns(p, s3, 1);
    Concatenated(p, s2, ToCaller(2), ToCaller(1));
    Concatenated(p, s1, ToRelease(2), ToCaller(2) + ToCaller(1));
    Concatenated(p, s, ToVerdict(2, scope), ToRelease(2) + (ToCaller(2) + ToCaller(1)));
  }
}
