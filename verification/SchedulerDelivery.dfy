/** The order in which results reach their callers. A job is in transit from its passed
    generation check until its delivery. Results of a scope are delivered in generation order
    if no submission of the scope is accepted while a job of it is in transit, and exactly
    that is needed: one such submission lets a run end out of order. */
module SchedulerDelivery {
  import opened FiniteMaps
  import opened Scheduler
  import opened SchedulerSafety
  import opened SchedulerRuns
  import opened SchedulerOrder

  // ---- Accepting only when nothing is in transit ----

  predicate InTransit(j: Job) {
    j.phase == Fresh || (j.state == Completed && j.phase != Done)
  }

  predicate Clear(s: State, scope: string) {
    forall id :: id in s.jobs && s.jobs[id].scope == scope ==> !InTransit(s.jobs[id])
  }

  /** A submission takes its generation only while nothing of its scope is in transit. */
  predicate ClearStep(s: State, step: Step) {
    step.Bump? && step.id in s.jobs ==> Clear(s, s.jobs[step.id].scope)
  }

  predicate ClearThroughout(p: Policy, s: State, steps: seq<Step>)
    requires Possible(p, s, steps)
    decreases |steps|
  {
    steps != [] ==> ClearStep(s, steps[0]) && ClearThroughout(p, Apply(p, s, steps[0]), steps[1..])
  }

  /** Every job in transit is the newest of its scope. */
  ghost predicate TransitCurrent(s: State) {
    forall id :: id in s.jobs && InTransit(s.jobs[id]) ==> s.jobs[id].generation == Current(s, s.jobs[id].scope)
  }

  ghost predicate DeliveredOk(s: State) {
    && Increasing(s.delivered)
    && forall e :: e in s.delivered ==> e.id in s.jobs && s.jobs[e.id].phase == Done && EventOf(s, e.id) == e
                                        && s.jobs[e.id].generation > 0
  }

  ghost predicate InOrder(s: State) {
    TransitCurrent(s) && DeliveredOk(s)
  }

  /** Transit begins with a passed check. */
  lemma TransitFollows(p: Policy, s: State, step: Step)
    requires StateReady(s, step)
    ensures InTransit(JobAfter(p, s, step)) ==>
      step.id in s.jobs && (InTransit(s.jobs[step.id]) || (step.CheckGeneration? && IsCurrent(s, s.jobs[step.id])))
    ensures step.Bump? ==> step.id in s.jobs && !InTransit(s.jobs[step.id])
  {
    hide IsCurrent, Current, EventOf;
  }

  lemma TransitJobKept(p: Policy, s: State, step: Step)
    requires Inv(p, s) && TransitCurrent(s) && StateReady(s, step)
    requires InTransit(JobAfter(p, s, step))
    ensures var t := Apply(p, s, step);
      step.id in t.jobs && t.jobs[step.id].generation == Current(t, t.jobs[step.id].scope)
  {
    hide Apply, JobAfter, Enabled, StateOk, InTransit, IsCurrent, Inv;
    OneJobMoves(p, s, step);
    TransitFollows(p, s, step);
    NumbersFollow(p, s, step);
    SubmitIsNew(s, step);
    CurrentStep(p, s, step, s.jobs[step.id].scope);
    if !InTransit(s.jobs[step.id]) {
      CheckedIsNewest(p, s, step);
    }
  }

  lemma CheckedIsNewest(p: Policy, s: State, step: Step)
    requires Inv(p, s) && Enabled(s, step) && step.CheckGeneration? && IsCurrent(s, s.jobs[step.id])
    ensures s.jobs[step.id].generation == Current(s, s.jobs[step.id].scope)
  {
    NumberedIsListed(p, s, step.id);
  }

  lemma TransitCurrentKept(p: Policy, s: State, step: Step)
    requires Inv(p, s) && TransitCurrent(s) && StateReady(s, step) && ClearStep(s, step)
    ensures TransitCurrent(Apply(p, s, step))
  {
    hide Apply, JobAfter, Enabled, StateOk, InTransit, Inv, Current;
    var t := Apply(p, s, step);
    OneJobMoves(p, s, step);
    forall id | id in t.jobs && InTransit(t.jobs[id]) ensures t.jobs[id].generation == Current(t, t.jobs[id].scope) {
      if id == step.id {
        TransitJobKept(p, s, step);
      } else {
        CurrentStep(p, s, step, s.jobs[id].scope);
      }
    }
  }

  lemma DeliveredFollows(p: Policy, s: State, step: Step)
    requires Enabled(s, step)
    ensures var t := Apply(p, s, step);
      t.delivered == s.delivered
      || (step.Deliver? && At(s, step.id, Delivering) && s.jobs[step.id].state == Completed
          && t.delivered == s.delivered + [EventOf(s, step.id)])
  {
    hide IsCurrent, Current, PhaseAfter, StateAfter, QueuedAfter, RunningAfter, PermitsAfter, CompletedAfter,
         CancelledAfter, StaleAfter, FailedAfter, GenerationsAfter, ActiveAfter, PassedAfter, CountedAfter;
  }

  lemma DoneSteps(p: Policy, s: State, step: Step)
    requires Enabled(s, step)
    ensures At(s, step.id, Done) ==> step.Cancel? && JobAfter(p, s, step) == s.jobs[step.id].(token := true)
    ensures step.Deliver? ==> JobAfter(p, s, step) == s.jobs[step.id].(phase := Done)
  {
    hide IsCurrent, Current, EventOf;
  }

  lemma DeliveredKept(p: Policy, s: State, step: Step)
    requires Inv(p, s) && TransitCurrent(s) && DeliveredOk(s) && Enabled(s, step)
    ensures DeliveredOk(Apply(p, s, step))
  {
    hide Inv, TransitCurrent, Apply, JobAfter, Increasing;
    var t := Apply(p, s, step);
    OneJobMoves(p, s, step);
    DeliveredFollows(p, s, step);
    DoneSteps(p, s, step);
    SubmitIsNew(s, step);
    hide Enabled;
    if t.delivered != s.delivered {
      DeliveringIsNumbered(p, s, step.id);
      NewestDelivered(p, s, step.id);
    }
  }

  lemma DeliveringIsNumbered(p: Policy, s: State, id: nat)
    requires Inv(p, s) && At(s, id, Delivering)
    ensures s.jobs[id].generation > 0
  {
    NumberedIsListed(p, s, id);
  }

  /** A job about to be delivered is newer than every result delivered before. */
  lemma NewestDelivered(p: Policy, s: State, id: nat)
    requires Inv(p, s) && TransitCurrent(s) && DeliveredOk(s) && At(s, id, Delivering) && s.jobs[id].state == Completed
    ensures Increasing(s.delivered + [EventOf(s, id)])
  {
    NumberedIsListed(p, s, id);
    NoOtherGeneration(p, s, id);
    hide Inv, Increasing;
    AppendNewest(s.delivered, EventOf(s, id));
  }

  lemma NoOtherGeneration(p: Policy, s: State, id: nat)
    requires Inv(p, s) && id in s.jobs && s.jobs[id].generation > 0
    requires s.jobs[id].generation == Current(s, s.jobs[id].scope)
    ensures forall a :: a in s.jobs && a != id && s.jobs[a].scope == s.jobs[id].scope && s.jobs[a].generation > 0
                        ==> s.jobs[a].generation < s.jobs[id].generation
  {
    forall a | a in s.jobs && a != id && s.jobs[a].scope == s.jobs[id].scope && s.jobs[a].generation > 0
      ensures s.jobs[a].generation < s.jobs[id].generation
    {
      assert s.jobs[a].generation <= Current(s, s.jobs[a].scope);
    }
  }

  lemma {:induction false} ClearKeepsOrder(p: Policy, s: State, steps: seq<Step>)
    requires Inv(p, s) && InOrder(s) && Possible(p, s, steps) && ClearThroughout(p, s, steps)
    ensures Inv(p, After(p, s, steps)) && InOrder(After(p, s, steps))
    decreases |steps|
  {
    if steps != [] {
      ReadyOf(p, s, steps[0]);
      StepInv(p, s, steps[0]);
      TransitCurrentKept(p, s, steps[0]);
      DeliveredKept(p, s, steps[0]);
      hide Inv, TransitCurrent, DeliveredOk, Apply, Enabled, ClearStep;
      ClearKeepsOrder(p, Apply(p, s, steps[0]), steps[1..]);
    }
  }

  lemma ReadyOf(p: Policy, s: State, step: Step)
    requires Inv(p, s) && Enabled(s, step)
    ensures StateReady(s, step)
  {
    StateOkOf(s, step);
  }

  /** Under any policy and in every interleaving in which no submission is accepted while a job
      of its scope is in transit: results of each scope are delivered in generation order, and
      each is still current when it is delivered. */
  lemma ClearDeliversInOrder(p: Policy, steps: seq<Step>)
    requires Possible(p, Initial(p), steps) && ClearThroughout(p, Initial(p), steps)
    ensures var s := After(p, Initial(p), steps);
      && Increasing(s.delivered)
      && forall id :: id in s.jobs && InTransit(s.jobs[id]) ==> IsCurrent(s, s.jobs[id])
  {
    InitialInv(p);
    ClearKeepsOrder(p, Initial(p), steps);
  }

  // ---- One accepted submission is enough to break the order ----

  predicate NoBumps(steps: seq<Step>) {
    forall i :: 0 <= i < |steps| ==> !steps[i].Bump?
  }

  predicate Spares(steps: seq<Step>, id: nat) {
    forall i :: 0 <= i < |steps| ==> steps[i].id != id
  }

  lemma {:induction false} NoBumpsClear(p: Policy, s: State, steps: seq<Step>)
    requires Possible(p, s, steps) && NoBumps(steps)
    ensures ClearThroughout(p, s, steps)
    decreases |steps|
  {
    hide Apply, Enabled;
    if steps != [] {
      NoBumpsClear(p, Apply(p, s, steps[0]), steps[1..]);
    }
  }

  /** Without bumps no generation changes, and a job whose steps do not occur stays as it is. */
  lemma {:induction false} SparedStays(p: Policy, s: State, steps: seq<Step>, id: nat)
    requires Possible(p, s, steps) && id in s.jobs && Spares(steps, id)
    ensures id in After(p, s, steps).jobs && After(p, s, steps).jobs[id] == s.jobs[id]
    decreases |steps|
  {
    if steps != [] {
      OneJobMoves(p, s, steps[0]);
      hide Apply, Enabled;
      SparedStays(p, Apply(p, s, steps[0]), steps[1..], id);
    }
  }

  lemma {:induction false} GenerationsStay(p: Policy, s: State, steps: seq<Step>)
    requires Possible(p, s, steps) && NoBumps(steps)
    ensures After(p, s, steps).generations == s.generations
    decreases |steps|
  {
    if steps != [] {
      NoBumpStep(p, s, steps[0]);
      hide Apply, Enabled;
      GenerationsStay(p, Apply(p, s, steps[0]), steps[1..]);
    }
  }

  lemma NoBumpStep(p: Policy, s: State, step: Step)
    requires Enabled(s, step) && !step.Bump?
    ensures Apply(p, s, step).generations == s.generations
  {
  }

  lemma NoDelivery(p: Policy, s: State, step: Step)
    requires Enabled(s, step) && !step.Deliver?
    ensures Apply(p, s, step).delivered == s.delivered
  {
  }

  /** In transit with the slot given back: only removal and delivery are left. */
  predicate Late(j: Job) {
    (j.phase == Removing || j.phase == Delivering) && j.state == Completed
  }

  lemma LateStep(p: Policy, s: State, a: nat)
    requires a in s.jobs && InTransit(s.jobs[a]) && !Late(s.jobs[a]) && StateOk(s.jobs[a])
    ensures var step := NextOf(s, a);
      && Enabled(s, step) && step.id == a && !step.Bump? && !step.Deliver? && !step.Submit?
      && InTransit(JobAfter(p, s, step))
      && Rank(JobAfter(p, s, step).phase) < Rank(s.jobs[a].phase)
  {
    hide IsCurrent, Current, EventOf;
  }

  /** Only this job moves. */
  predicate OnlyMoves(steps: seq<Step>, a: nat) {
    forall i :: 0 <= i < |steps| ==> steps[i].id == a && !steps[i].Bump?
  }

  lemma OnlyMovesMore(step: Step, rest: seq<Step>, a: nat)
    requires step.id == a && !step.Bump? && OnlyMoves(rest, a)
    ensures OnlyMoves([step] + rest, a)
  {
  }

  lemma OnlyMovesMeans(steps: seq<Step>, a: nat)
    requires OnlyMoves(steps, a)
    ensures NoBumps(steps) && forall id :: id != a ==> Spares(steps, id)
  {
  }

  /** A job in transit can always give back its slot by its own steps. */
  lemma {:induction false} ToLate(p: Policy, s: State, a: nat) returns (steps: seq<Step>)
    requires Inv(p, s) && a in s.jobs && InTransit(s.jobs[a])
    ensures Possible(p, s, steps) && OnlyMoves(steps, a)
    ensures var t := After(p, s, steps); Inv(p, t) && a in t.jobs && Late(t.jobs[a]) && t.delivered == s.delivered
    decreases Rank(s.jobs[a].phase), 1
  {
    if Late(s.jobs[a]) {
      Stop(p, s);
      steps := [];
    } else {
      steps := ToLateStep(p, s, a);
    }
  }

  lemma {:induction false} ToLateStep(p: Policy, s: State, a: nat) returns (steps: seq<Step>)
    requires Inv(p, s) && a in s.jobs && InTransit(s.jobs[a]) && !Late(s.jobs[a])
    ensures Possible(p, s, steps) && OnlyMoves(steps, a)
    ensures var t := After(p, s, steps); Inv(p, t) && a in t.jobs && Late(t.jobs[a]) && t.delivered == s.delivered
    decreases Rank(s.jobs[a].phase), 0
  {
    hide Inv, Apply, Enabled, NextOf, Possible, After, Late, InTransit, OnlyMoves, Rank;
    LateStepKept(p, s, a);
    var step := NextOf(s, a);
    var rest := ToLate(p, Apply(p, s, step), a);
    Prepend(p, s, step, rest);
    OnlyMovesMore(step, rest, a);
    steps := [step] + rest;
  }

  lemma LateStepKept(p: Policy, s: State, a: nat)
    requires Inv(p, s) && a in s.jobs && InTransit(s.jobs[a]) && !Late(s.jobs[a])
    ensures var step := NextOf(s, a);
      && Enabled(s, step) && step.id == a && !step.Bump?
      && var t := Apply(p, s, step);
         && Inv(p, t) && a in t.jobs && InTransit(t.jobs[a]) && t.delivered == s.delivered
         && Rank(t.jobs[a].phase) < Rank(s.jobs[a].phase)
  {
    hide Inv, Apply, Enabled, NextOf, JobAfter, Late, InTransit, Rank;
    StateOkAt(p, s, a);
    LateStep(p, s, a);
    var step := NextOf(s, a);
    StepInv(p, s, step);
    OneJobMoves(p, s, step);
    NoDelivery(p, s, step);
  }

  lemma StateOkAt(p: Policy, s: State, id: nat)
    requires Inv(p, s) && id in s.jobs
    ensures StateOk(s.jobs[id])
  {
  }

  lemma HolderStep(s: State, holder: nat)
    requires holder in s.jobs && HoldsSlot(s.jobs[holder])
    ensures var step := NextOf(s, holder);
      Enabled(s, step) && step.id == holder && Advances(step) && !step.Bump? && !step.Deliver?
  {
    hide IsCurrent, Current, EventOf;
  }

  /** Only jobs that hold a slot at the start move. */
  predicate OnlyHoldersMove(s: State, steps: seq<Step>) {
    NoBumps(steps) && forall id :: id in s.jobs && !HoldsSlot(s.jobs[id]) ==> Spares(steps, id)
  }

  /** The jobs that hold slots can always finish, with no one else moving, until a slot is free. */
  lemma {:induction false} FreeSlot(p: Policy, s: State) returns (steps: seq<Step>)
    requires Inv(p, s) && p.maximumConcurrency >= 1
    ensures Possible(p, s, steps) && OnlyHoldersMove(s, steps)
    ensures var t := After(p, s, steps); Inv(p, t) && t.permits > 0 && t.delivered == s.delivered
    decreases Measure(s), 1
  {
    if s.permits > 0 {
      Stop(p, s);
      steps := [];
    } else {
      steps := FreeSlotStep(p, s);
    }
  }

  lemma {:induction false} FreeSlotStep(p: Policy, s: State) returns (steps: seq<Step>)
    requires Inv(p, s) && p.maximumConcurrency >= 1 && s.permits <= 0
    ensures Possible(p, s, steps) && OnlyHoldersMove(s, steps)
    ensures var t := After(p, s, steps); Inv(p, t) && t.permits > 0 && t.delivered == s.delivered
    decreases Measure(s), 0
  {
    hide Inv, Apply, Enabled, NextOf, Possible, After, Measure, HoldsSlot, OnlyHoldersMove;
    var holder := FindHolder(p, s);
    HolderStepKept(p, s, holder);
    var step := NextOf(s, holder);
    var rest := FreeSlot(p, Apply(p, s, step));
    Prepend(p, s, step, rest);
    HoldersMoveMore(s, Apply(p, s, step), step, rest);
    steps := [step] + rest;
  }

  lemma HoldersMoveMore(s: State, t: State, step: Step, rest: seq<Step>)
    requires step.id in s.jobs && HoldsSlot(s.jobs[step.id]) && !step.Bump? && OnlyHoldersMove(t, rest)
    requires forall id :: id in s.jobs && id != step.id ==> id in t.jobs && t.jobs[id] == s.jobs[id]
    ensures OnlyHoldersMove(s, [step] + rest)
  {
  }

  lemma HolderStepKept(p: Policy, s: State, holder: nat)
    requires Inv(p, s) && holder in s.jobs && HoldsSlot(s.jobs[holder])
    ensures var step := NextOf(s, holder);
      && Enabled(s, step) && step.id == holder && !step.Bump?
      && var t := Apply(p, s, step);
         && Inv(p, t) && t.delivered == s.delivered && Measure(t) < Measure(s)
         && forall id :: id in s.jobs && id != holder ==> id in t.jobs && t.jobs[id] == s.jobs[id]
  {
    hide Inv, Apply, Enabled, NextOf, JobAfter, HoldsSlot, Measure;
    HolderStep(s, holder);
    var step := NextOf(s, holder);
    StepInv(p, s, step);
    StepTowardsDrain(p, s, step);
    OneJobMoves(p, s, step);
    NoDelivery(p, s, step);
  }

  lemma FindHolder(p: Policy, s: State) returns (id: nat)
    requires Inv(p, s) && s.permits <= 0 && p.maximumConcurrency >= 1
    ensures id in s.jobs && HoldsSlot(s.jobs[id])
  {
    assert s.permits >= 0;
    id := SomeHolder(p, s);
  }

  /** From its number to its delivery, with a free slot and nobody else moving. */
  function Straight(id: nat): seq<Step> {
    ([Register(id)] + ([Acquire(id)] + [])) + (ToRun(id) + (ToCheck(id) + (ToRelease(id) + ToCaller(id))))
  }

  lemma StraightRuns(p: Policy, s: State, id: nat)
    requires At(s, id, Numbered) && s.permits > 0 && !s.jobs[id].token
    requires s.jobs[id].generation == Current(s, s.jobs[id].scope) && s.jobs[id].scope in s.generations
    ensures Possible(p, s, Straight(id)) && NoBumps(Straight(id))
    ensures var t := After(p, s, Straight(id));
      && t.delivered == s.delivered + [EventOf(s, id)]
      && forall other :: other in s.jobs && other != id ==> other in t.jobs && t.jobs[other] == s.jobs[other]
  {
    hide Possible, After, Apply, ToRun, ToCheck, ToRelease, ToCaller;
    var slot := [Register(id)] + ([Acquire(id)] + []);
    RegisteredToSlot(p, s, id);
    var s1 := After(p, s, slot);
    ToRunRuns(p, s1, id);
    var s2 := After(p, s1, ToRun(id));
    ToCheckRuns(p, s2, id);
    var s3 := After(p, s2, ToCheck(id));
    ToReleaseRuns(p, s3, id);
    var s4 := After(p, s3, ToRelease(id));
    ToCallerRuns(p, s4, id);
    Concatenated(p, s3, ToRelease(id), ToCaller(id));
    Concatenated(p, s2, ToCheck(id), ToRelease(id) + ToCaller(id));
    Concatenated(p, s1, ToRun(id), ToCheck(id) + (ToRelease(id) + ToCaller(id)));
    Concatenated(p, s, slot, ToRun(id) + (ToCheck(id) + (ToRelease(id) + ToCaller(id))));
    StraightHasNoBumps(id);
  }

  lemma StraightHasNoBumps(id: nat)
    ensures NoBumps(Straight(id))
  {
  }

  lemma LateDelivers(p: Policy, s: State, a: nat) returns (steps: seq<Step>)
    requires a in s.jobs && Late(s.jobs[a])
    ensures Possible(p, s, steps) && NoBumps(steps)
    ensures After(p, s, steps).delivered == s.delivered + [EventOf(s, a)]
  {
    if s.jobs[a].phase == Removing {
      ToCallerRuns(p, s, a);
      steps := ToCaller(a);
    } else {
      DeliverIs(p, s, a);
      Stop(p, Apply(p, s, Deliver(a)));
      Prepend(p, s, Deliver(a), []);
      steps := [Deliver(a)] + [];
    }
  }

  lemma NoBumpsTogether(first: seq<Step>, second: seq<Step>)
    requires NoBumps(first) && NoBumps(second)
    ensures NoBumps(first + second)
  {
  }

  /** A numbered job and an older one of its scope in transit: the newer can be delivered first,
      without another submission being accepted. */
  lemma Overtake(p: Policy, s: State, a: nat, z: nat) returns (steps: seq<Step>)
    requires Inv(p, s) && p.maximumConcurrency >= 1
    requires a in s.jobs && InTransit(s.jobs[a]) && At(s, z, Numbered) && !s.jobs[z].token
    requires s.jobs[a].scope == s.jobs[z].scope && s.jobs[a].generation < s.jobs[z].generation == Current(s, s.jobs[z].scope)
    ensures Possible(p, s, steps) && NoBumps(steps) && !Increasing(After(p, s, steps).delivered)
  {
    hide Inv, Possible, After, Apply, Enabled, Increasing, InTransit, Late, HoldsSlot;
    var first := ToLate(p, s, a);
    OnlyMovesMeans(first, a);
    var s1 := After(p, s, first);
    SparedStays(p, s, first, z);
    GenerationsStay(p, s, first);
    NumberStaysThroughout(p, s, first, a);
    RestingHoldNothing(s1, a, z);
    var second := FreeSlot(p, s1);
    var s2 := After(p, s1, second);
    SparedStays(p, s1, second, a);
    SparedStays(p, s1, second, z);
    GenerationsStay(p, s1, second);
    NumberedIsListedAt(p, s2, z);
    StraightRuns(p, s2, z);
    var s3 := After(p, s2, Straight(z));
    var last := LateDelivers(p, s3, a);
    Concatenated(p, s2, Straight(z), last);
    Concatenated(p, s1, second, Straight(z) + last);
    Concatenated(p, s, first, second + (Straight(z) + last));
    NoBumpsTogether(Straight(z), last);
    NoBumpsTogether(second, Straight(z) + last);
    NoBumpsTogether(first, second + (Straight(z) + last));
    steps := first + (second + (Straight(z) + last));
    Inverted(s2.delivered, EventOf(s2, z), EventOf(s3, a));
  }

  lemma NumberedIsListedAt(p: Policy, s: State, z: nat)
    requires Inv(p, s) && At(s, z, Numbered)
    ensures s.jobs[z].scope in s.generations
  {
    NumberedIsListed(p, s, z);
  }

  lemma NumberStaysThroughout(p: Policy, s: State, steps: seq<Step>, a: nat)
    requires Possible(p, s, steps) && a in s.jobs && InTransit(s.jobs[a]) && Inv(p, s)
    ensures var t := After(p, s, steps);
      a in t.jobs && t.jobs[a].scope == s.jobs[a].scope && t.jobs[a].generation == s.jobs[a].generation
  {
    StateOkAt(p, s, a);
    assert !BeforeNumber(s.jobs[a]);
    hide Inv, Possible, After;
    NumbersSince(p, s, steps, a);
  }

  lemma RestingHoldNothing(s: State, a: nat, z: nat)
    requires a in s.jobs && Late(s.jobs[a]) && At(s, z, Numbered)
    ensures !HoldsSlot(s.jobs[a]) && !HoldsSlot(s.jobs[z])
  {
  }

  lemma Inverted(before: seq<Event>, newer: Event, older: Event)
    requires newer.scope == older.scope && older.generation < newer.generation
    ensures !Increasing(before + [newer] + [older])
  {
    var events := before + [newer] + [older];
    assert events[|before|] == newer && events[|before| + 1] == older;
  }

  /** A submission that finds room, up to its generation. */
  function Accepting(z: nat, scope: string): seq<Step> {
    [Submit(z, scope)] + ([Decide(z)] + ([Bump(z)] + []))
  }

  lemma AcceptingRuns(p: Policy, s: State, z: nat, scope: string)
    requires z !in s.jobs && s.queued + 1 <= p.maximumQueuedJobs
    ensures Possible(p, s, Accepting(z, scope))
    ensures var g := Current(s, scope) + 1;
      After(p, s, Accepting(z, scope))
      == s.(queued := s.queued + 1, generations := s.generations[scope := g],
            jobs := s.jobs[z := Job(scope, g, Numbered, Queued, false, false)])
  {
    hide Possible, After, IsCurrent, EventOf;
    var s1 := Apply(p, s, Submit(z, scope));
    var s2 := Apply(p, s1, Decide(z));
    Stop(p, Apply(p, s2, Bump(z)));
    Prepend(p, s2, Bump(z), []);
    Prepend(p, s1, Decide(z), [Bump(z)] + []);
    Prepend(p, s, Submit(z, scope), [Decide(z)] + ([Bump(z)] + []));
  }

  /** Clear submissions leave the state in order. */
  lemma AcceptingClear(p: Policy, s: State, z: nat, scope: string)
    requires z !in s.jobs && s.queued + 1 <= p.maximumQueuedJobs && InOrder(s) && Clear(s, scope)
    ensures Possible(p, s, Accepting(z, scope)) && InOrder(After(p, s, Accepting(z, scope)))
  {
    hide Possible, After, Increasing;
    AcceptingRuns(p, s, z, scope);
    var t := After(p, s, Accepting(z, scope));
    assert forall e :: e in s.delivered ==> EventOf(t, e.id) == EventOf(s, e.id);
  }

  /** All continuations that keep to the discipline from here on deliver in order. */
  ghost predicate OrderSafe(p: Policy, s: State) {
    forall steps :: Possible(p, s, steps) && ClearThroughout(p, s, steps) ==> Increasing(After(p, s, steps).delivered)
  }

  /** The discipline is exact. Wherever a submission finds room, accepting it leaves every
      disciplined continuation in order if and only if no job of its scope is in transit. */
  lemma AcceptanceSafeIff(p: Policy, s: State, z: nat, scope: string)
    requires ValidPolicy(p) && Inv(p, s) && InOrder(s) && z !in s.jobs && s.queued + 1 <= p.maximumQueuedJobs
    ensures Possible(p, s, Accepting(z, scope))
    ensures OrderSafe(p, After(p, s, Accepting(z, scope))) <==> Clear(s, scope)
  {
    hide Inv, InOrder, Possible, After, InTransit, Clear, Increasing;
    AcceptingRuns(p, s, z, scope);
    RunInv(p, s, Accepting(z, scope));
    var t := After(p, s, Accepting(z, scope));
    if Clear(s, scope) {
      AcceptingClear(p, s, z, scope);
      InOrderIsSafe(p, t);
    } else {
      var a := SomeInTransit(s, scope);
      NotNewer(p, s, a);
      var steps := Overtake(p, t, a, z);
      NoBumpsClear(p, t, steps);
    }
  }

  lemma SomeInTransit(s: State, scope: string) returns (a: nat)
    requires !Clear(s, scope)
    ensures a in s.jobs && s.jobs[a].scope == scope && InTransit(s.jobs[a])
  {
    a :| a in s.jobs && s.jobs[a].scope == scope && InTransit(s.jobs[a]);
  }

  lemma NotNewer(p: Policy, s: State, a: nat)
    requires Inv(p, s) && a in s.jobs
    ensures s.jobs[a].generation <= Current(s, s.jobs[a].scope)
  {
    assert SchedulerSafety.Numbered(s, a);
  }

  lemma InOrderIsSafe(p: Policy, s: State)
    requires Inv(p, s) && InOrder(s)
    ensures OrderSafe(p, s)
  {
    forall steps | Possible(p, s, steps) && ClearThroughout(p, s, steps) ensures Increasing(After(p, s, steps).delivered) {
      ClearKeepsOrder(p, s, steps);
    }
  }

  lemma FreshId(s: State) returns (z: nat)
    ensures z !in s.jobs
  {
    var ids := s.jobs.Keys;
    z := Above(ids);
  }

  lemma {:induction false} Above(ids: set<nat>) returns (z: nat)
    ensures forall id :: id in ids ==> id < z
    decreases |ids|
  {
    if ids == {} {
      z := 0;
    } else {
      var id :| id in ids;
      var rest := Above(ids - {id});
      z := if id < rest then rest else id + 1;
      forall other | other in ids ensures other < z {
        assert other == id || other in ids - {id};
      }
    }
  }

  // ---- From anywhere ----

  /** Every job but one settled. */
  predicate SettledBut(s: State, a: nat) {
    forall id :: id in s.jobs && id != a ==> s.jobs[id].phase == Done || s.jobs[id].phase == Rejected
  }

  lemma OtherStepEnabled(p: Policy, s: State, a: nat) returns (step: Step)
    requires Inv(p, s) && p.maximumConcurrency >= 1 && a in s.jobs && Late(s.jobs[a]) && !SettledBut(s, a)
    ensures Enabled(s, step) && Advances(step) && step.id != a
  {
    hide Inv, NextOf, Enabled;
    var id :| id in s.jobs && id != a && s.jobs[id].phase != Done && s.jobs[id].phase != Rejected;
    if s.jobs[id].phase == Waiting && s.permits <= 0 {
      id := FindHolder(p, s);
    }
    NextEnabled(s, id);
    NextIsOwn(s, id);
    step := NextOf(s, id);
  }

  lemma NextIsOwn(s: State, id: nat)
    requires id in s.jobs
    ensures NextOf(s, id).id == id
  {
  }

  /** All others can drain while one job waits for its delivery. */
  lemma {:induction false} DrainOthers(p: Policy, s: State, a: nat) returns (steps: seq<Step>)
    requires Inv(p, s) && p.maximumConcurrency >= 1 && a in s.jobs && Late(s.jobs[a])
    ensures Possible(p, s, steps)
    ensures var t := After(p, s, steps); Inv(p, t) && a in t.jobs && t.jobs[a] == s.jobs[a] && SettledBut(t, a)
    decreases Measure(s), 1
  {
    if SettledBut(s, a) {
      Stop(p, s);
      steps := [];
    } else {
      steps := DrainOthersStep(p, s, a);
    }
  }

  lemma {:induction false} DrainOthersStep(p: Policy, s: State, a: nat) returns (steps: seq<Step>)
    requires Inv(p, s) && p.maximumConcurrency >= 1 && a in s.jobs && Late(s.jobs[a]) && !SettledBut(s, a)
    ensures Possible(p, s, steps)
    ensures var t := After(p, s, steps); Inv(p, t) && a in t.jobs && t.jobs[a] == s.jobs[a] && SettledBut(t, a)
    decreases Measure(s), 0
  {
    hide Inv, Apply, Enabled, Possible, After, JobAfter, Measure, SettledBut, Late;
    var step := OtherStepEnabled(p, s, a);
    StepInv(p, s, step);
    StepTowardsDrain(p, s, step);
    OneJobMoves(p, s, step);
    var rest := DrainOthers(p, Apply(p, s, step), a);
    Prepend(p, s, step, rest);
    steps := [step] + rest;
  }

  lemma EmptyQueue(p: Policy, s: State, a: nat)
    requires Inv(p, s) && a in s.jobs && Late(s.jobs[a]) && SettledBut(s, a)
    ensures s.queued == 0
  {
    hide Count;
    NoHits(s.jobs, InQueue);
  }

  /** From every reachable state with a job in transit, under every policy, some continuation
      delivers out of order. */
  lemma TransitCanBeOvertaken(p: Policy, s: State, a: nat) returns (steps: seq<Step>)
    requires ValidPolicy(p) && Inv(p, s) && a in s.jobs && InTransit(s.jobs[a])
    ensures Possible(p, s, steps) && !Increasing(After(p, s, steps).delivered)
  {
    hide Inv, Possible, After, Apply, Increasing, InTransit, Late, SettledBut;
    var first := ToLate(p, s, a);
    var s1 := After(p, s, first);
    var second := DrainOthers(p, s1, a);
    var s2 := After(p, s1, second);
    EmptyQueue(p, s2, a);
    var z := FreshId(s2);
    var scope := s2.jobs[a].scope;
    AcceptingRuns(p, s2, z, scope);
    RunInv(p, s2, Accepting(z, scope));
    var s3 := After(p, s2, Accepting(z, scope));
    NotNewer(p, s2, a);
    LateIsInTransit(s3, a);
    var last := Overtake(p, s3, a, z);
    Concatenated(p, s2, Accepting(z, scope), last);
    Concatenated(p, s1, second, Accepting(z, scope) + last);
    Concatenated(p, s, first, second + (Accepting(z, scope) + last));
    steps := first + (second + (Accepting(z, scope) + last));
  }

  lemma LateIsInTransit(s: State, a: nat)
    requires a in s.jobs && Late(s.jobs[a])
    ensures InTransit(s.jobs[a])
  {
  }

  // ---- One job at a time per scope ----

  predicate Unsettled(j: Job) {
    j.phase != Done && j.phase != Rejected
  }

  /** A caller submits to a scope only when its previous job of that scope is settled. */
  predicate TakesTurns(s: State, step: Step) {
    step.Submit? ==> forall id :: id in s.jobs && s.jobs[id].scope == step.scope ==> !Unsettled(s.jobs[id])
  }

  predicate TurnsTaken(p: Policy, s: State, steps: seq<Step>)
    requires Possible(p, s, steps)
    decreases |steps|
  {
    steps != [] ==> TakesTurns(s, steps[0]) && TurnsTaken(p, Apply(p, s, steps[0]), steps[1..])
  }

  ghost predicate OnePerScope(s: State) {
    forall a, b :: a in s.jobs && b in s.jobs && Unsettled(s.jobs[a]) && Unsettled(s.jobs[b])
                   && s.jobs[a].scope == s.jobs[b].scope
                   ==> a == b
  }

  /** Every numbered job that is not settled is the newest of its scope. */
  ghost predicate UnsettledCurrent(s: State) {
    forall id :: id in s.jobs && Unsettled(s.jobs[id]) && s.jobs[id].generation > 0
                 ==> s.jobs[id].generation == Current(s, s.jobs[id].scope)
  }

  ghost predicate Orderly(s: State) {
    OnePerScope(s) && UnsettledCurrent(s) && NoneStale(s)
  }

  predicate NoneStale(s: State) {
    forall id :: id in s.jobs ==> s.jobs[id].state != Stale && s.jobs[id].phase != Superseded
  }

  lemma NoneStaleKept(p: Policy, s: State, step: Step)
    requires UnsettledCurrent(s) && NoneStale(s) && Enabled(s, step)
    requires step.CheckGeneration? ==> s.jobs[step.id].generation > 0
    ensures NoneStale(Apply(p, s, step))
  {
    OneJobMoves(p, s, step);
    StaleFollows(p, s, step);
    assert step.CheckGeneration? ==> Unsettled(s.jobs[step.id]);
    hide Apply, JobAfter, Enabled, Unsettled;
  }

  lemma CheckedIsNumbered(p: Policy, s: State, step: Step)
    requires Inv(p, s) && Enabled(s, step) && step.CheckGeneration?
    ensures s.jobs[step.id].generation > 0
  {
    NumberedIsListed(p, s, step.id);
  }

  lemma UnsettledFollows(p: Policy, s: State, step: Step)
    requires Enabled(s, step)
    ensures !step.Submit? && Unsettled(JobAfter(p, s, step)) ==> step.id in s.jobs && Unsettled(s.jobs[step.id])
    ensures !step.Submit? ==> JobAfter(p, s, step).scope == s.jobs[step.id].scope
    ensures step.Cancel? ==> JobAfter(p, s, step).phase == s.jobs[step.id].phase
    ensures step.Submit? ==> JobAfter(p, s, step).scope == step.scope && JobAfter(p, s, step).generation == 0
  {
    hide IsCurrent, EventOf, Current, StateAfter;
  }

  lemma OnePerScopeKept(p: Policy, s: State, step: Step)
    requires OnePerScope(s) && Enabled(s, step) && TakesTurns(s, step)
    ensures OnePerScope(Apply(p, s, step))
  {
    OneJobMoves(p, s, step);
    UnsettledFollows(p, s, step);
    hide Apply, JobAfter, Enabled, Unsettled;
  }

  lemma UnsettledCurrentKept(p: Policy, s: State, step: Step)
    requires OnePerScope(s) && UnsettledCurrent(s) && Enabled(s, step) && TakesTurns(s, step)
    ensures UnsettledCurrent(Apply(p, s, step))
  {
    var t := Apply(p, s, step);
    OneJobMoves(p, s, step);
    UnsettledFollows(p, s, step);
    NumbersFollow(p, s, step);
    hide Apply, JobAfter, Enabled, Unsettled, BeforeNumber, Current;
    forall id | id in t.jobs && Unsettled(t.jobs[id]) && t.jobs[id].generation > 0
      ensures t.jobs[id].generation == Current(t, t.jobs[id].scope)
    {
      CurrentStep(p, s, step, t.jobs[id].scope);
    }
  }

  /** Whoever takes turns accepts only when nothing of the scope is in transit. */
  lemma TurnsAreClear(p: Policy, s: State, step: Step)
    requires Inv(p, s) && OnePerScope(s) && Enabled(s, step)
    ensures ClearStep(s, step)
  {
    if step.Bump? {
      AdmittedJob(p, s, step);
      forall id | id in s.jobs && s.jobs[id].scope == s.jobs[step.id].scope ensures !InTransit(s.jobs[id]) {
        TransitIsUnsettled(p, s, id);
      }
    }
  }

  lemma AdmittedJob(p: Policy, s: State, step: Step)
    requires Inv(p, s) && Enabled(s, step) && step.Bump?
    ensures step.id in s.jobs && Unsettled(s.jobs[step.id]) && !InTransit(s.jobs[step.id])
  {
    StateOkAt(p, s, step.id);
  }

  lemma TransitIsUnsettled(p: Policy, s: State, id: nat)
    requires Inv(p, s) && id in s.jobs
    ensures InTransit(s.jobs[id]) ==> Unsettled(s.jobs[id])
  {
    StateOkAt(p, s, id);
  }

  lemma {:induction false} TurnsKeepOrder(p: Policy, s: State, steps: seq<Step>)
    requires Inv(p, s) && Orderly(s) && Possible(p, s, steps) && TurnsTaken(p, s, steps)
    ensures Orderly(After(p, s, steps)) && ClearThroughout(p, s, steps)
    decreases |steps|
  {
    if steps != [] {
      StepInv(p, s, steps[0]);
      TurnsAreClear(p, s, steps[0]);
      OnePerScopeKept(p, s, steps[0]);
      UnsettledCurrentKept(p, s, steps[0]);
      if steps[0].CheckGeneration? { CheckedIsNumbered(p, s, steps[0]); }
      NoneStaleKept(p, s, steps[0]);
      hide Inv, OnePerScope, UnsettledCurrent, NoneStale, Apply, Enabled, TakesTurns, ClearStep;
      TurnsKeepOrder(p, Apply(p, s, steps[0]), steps[1..]);
    }
  }

  /** In particular callers can take turns: one unsettled job per scope. Then results are
      delivered in order, every job that has not yet delivered is current, and none is ever
      stale. */
  lemma TakingTurnsDeliversInOrder(p: Policy, steps: seq<Step>)
    requires Possible(p, Initial(p), steps) && TurnsTaken(p, Initial(p), steps)
    ensures var s := After(p, Initial(p), steps);
      && Increasing(s.delivered)
      && (forall id :: id in s.jobs && Unsettled(s.jobs[id]) && s.jobs[id].generation > 0 ==> IsCurrent(s, s.jobs[id]))
      && (forall id :: id in s.jobs ==> s.jobs[id].state != Stale)
  {
    InitialInv(p);
    TurnsKeepOrder(p, Initial(p), steps);
    ClearDeliversInOrder(p, steps);
  }
}
