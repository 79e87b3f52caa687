/** When a submission is refused. The counter it meets includes submissions that are being
    turned away, so it can be refused although the queue has room. */
module SchedulerAdmission {
  import opened FiniteMaps
  import opened Scheduler
  import opened SchedulerSafety
  import opened SchedulerRuns

  /** The job itself does nothing; its token may be cancelled. */
  predicate Idles(steps: seq<Step>, id: nat) {
    forall i :: 0 <= i < |steps| ==> steps[i].id != id || steps[i].Cancel?
  }

  lemma IdleStep(p: Policy, s: State, step: Step, id: nat)
    requires Enabled(s, step) && id in s.jobs && (step.id != id || step.Cancel?)
    ensures var t := Apply(p, s, step);
      id in t.jobs && t.jobs[id].phase == s.jobs[id].phase && t.jobs[id].generation == s.jobs[id].generation
  {
    OneJobMoves(p, s, step);
  }

  lemma {:induction false} IdleStays(p: Policy, s: State, steps: seq<Step>, id: nat)
    requires Possible(p, s, steps) && id in s.jobs && Idles(steps, id)
    ensures var t := After(p, s, steps);
      id in t.jobs && t.jobs[id].phase == s.jobs[id].phase && t.jobs[id].generation == s.jobs[id].generation
    decreases |steps|
  {
    if steps != [] {
      IdleStep(p, s, steps[0], id);
      hide Apply, Enabled;
      IdleStays(p, Apply(p, s, steps[0]), steps[1..], id);
    }
  }

  /** The state right after a submission was counted. */
  function Submitted(p: Policy, s: State, id: nat, scope: string): State
    requires id !in s.jobs
  {
    Apply(p, s, Submit(id, scope))
  }

  lemma SubmitCounts(p: Policy, s: State, id: nat, scope: string)
    requires id !in s.jobs
    ensures id in Submitted(p, s, id, scope).jobs
    ensures Submitted(p, s, id, scope).jobs[id].phase == Counted(s.queued + 1)
  {
  }

  lemma DecideIs(p: Policy, s: State, id: nat)
    requires id in s.jobs && s.jobs[id].phase.Counted?
    ensures Enabled(s, Decide(id)) && id in Apply(p, s, Decide(id)).jobs
    ensures Apply(p, s, Decide(id)).jobs[id].phase
         == if s.jobs[id].phase.seen > p.maximumQueuedJobs then Rejecting else Admitted
  {
  }

  /** A submission is refused exactly if, when it was counted, accepted waiting jobs and
      submissions being turned away together had reached the capacity, whatever happens
      before the decision. */
  lemma RefusedIff(p: Policy, s: State, id: nat, scope: string, meanwhile: seq<Step>)
    requires Inv(p, s) && id !in s.jobs
    requires Possible(p, Submitted(p, s, id, scope), meanwhile) && Idles(meanwhile, id)
    ensures var t := After(p, Submitted(p, s, id, scope), meanwhile);
      && Enabled(t, Decide(id)) && id in Apply(p, t, Decide(id)).jobs
      && (Apply(p, t, Decide(id)).jobs[id].phase == Rejecting
          <==> Count(s.jobs, Accepted(p)) + Count(s.jobs, Turned(p)) >= p.maximumQueuedJobs)
  {
    hide Inv, Apply, Enabled, Possible, After, Submitted, Count;
    SubmitCounts(p, s, id, scope);
    IdleStays(p, Submitted(p, s, id, scope), meanwhile, id);
    DecideIs(p, After(p, Submitted(p, s, id, scope), meanwhile), id);
    CountsSafe(p, s);
  }

  /** Capacity one: job 1 is accepted and takes a slot, submission 2 is counted over capacity
      and not yet taken back, and job 1 leaves the queue. */
  function Crowding(scope: string): seq<Step> {
    ToSlot(1, scope) + ([Submit(2, scope)] + ([LeaveQueue(1)] + []))
  }

  lemma SecondCounted(p: Policy, s: State, scope: string)
    requires At(s, 1, Entered) && 2 !in s.jobs && s.queued == 1
    ensures var steps := [Submit(2, scope)] + ([LeaveQueue(1)] + []);
      && Possible(p, s, steps)
      && var t := After(p, s, steps);
         && t.queued == 1
         && t.jobs == s.jobs[2 := Job(scope, 0, Counted(2), Queued, false, false)][1 := s.jobs[1].(phase := LeftQueue)]
  {
    hide Possible, After;
    var s1 := Apply(p, s, Submit(2, scope));
    Stop(p, Apply(p, s1, LeaveQueue(1)));
    Prepend(p, s1, LeaveQueue(1), []);
    Prepend(p, s, Submit(2, scope), [LeaveQueue(1)] + []);
  }

  /** No accepted job waits, and the next submission is refused all the same. */
  lemma RefusedThoughRoom(p: Policy, scope: string)
    requires ValidPolicy(p) && p.maximumQueuedJobs == 1
    ensures Possible(p, Initial(p), Crowding(scope))
    ensures var s := After(p, Initial(p), Crowding(scope));
      && Inv(p, s) && 3 !in s.jobs && Count(s.jobs, Accepted(p)) == 0 < p.maximumQueuedJobs
      && Possible(p, Submitted(p, s, 3, scope), [])
      && After(p, Submitted(p, s, 3, scope), []) == Submitted(p, s, 3, scope)
      && Enabled(Submitted(p, s, 3, scope), Decide(3))
      && At(Apply(p, Submitted(p, s, 3, scope), Decide(3)), 3, Rejecting)
  {
    hide Possible, After, Apply, Enabled, ToSlot, Inv, Submitted, Count;
    var s0 := Initial(p);
    InitialInv(p);
    ToSlotRuns(p, s0, 1, scope);
    var s1 := After(p, s0, ToSlot(1, scope));
    SecondCounted(p, s1, scope);
    Concatenated(p, s0, ToSlot(1, scope), [Submit(2, scope)] + ([LeaveQueue(1)] + []));
    RunInv(p, s0, Crowding(scope));
    var s := After(p, s0, Crowding(scope));
    NoHits(s.jobs, Accepted(p));
    CountsSafe(p, s);
    Stop(p, Submitted(p, s, 3, scope));
    RefusedIff(p, s, 3, scope, []);
  }
}
