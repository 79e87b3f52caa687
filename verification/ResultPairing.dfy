/** The two-phase solve of a scheduled component: tasks are queued for every iteration before
    the solve, and results are collected, retained and emitted afterwards. A result carries
    the iteration and the work that really produced it, so pairing can be stated. */
module ResultPairing {
  import opened Wrappers

  /** Captured inputs of one iteration; only their identity matters. */
  type Work = nat

  datatype Outcome = Outcome(id: nat, iteration: nat, work: Work)

  /** How one execution of the analysis ends. */
  datatype Run =
    | Produces(id: nat)
    | ProducesNothing
    | IsCancelled
    | Reports(message: string)   // an exception the component turns into an error
    | Escapes                    // any other exception, or a task that faulted

  datatype Output = Output(result: Option<Outcome>, error: Option<string>, cancelled: bool)

  datatype Entry = Entry(work: Work, result: Outcome, runGeneration: int)

  datatype Mode = Live | Manual

  datatype Quality = Quality(execution: Mode, runGeneration: int, retainStaleResult: bool)

  /** What the host and the outside world contribute to one iteration: the inputs, if they
      are valid, how the queued task ends, and how an inline execution would end. */
  datatype Item = Item(input: Option<Work>, queued: Run, direct: Run)

  datatype Task = Task(iteration: nat, work: Work, run: Run)

  datatype Emission = Emission(iteration: nat, work: Work, result: Outcome)

  datatype Start = Start(iteration: nat, work: Work)

  /** How the host hands queued tasks back: in the order in which they are asked for, or by
      the number of the iteration that asks. */
  datatype Lookup = InOrder | ByIteration

  datatype State = State(results: map<nat, Entry>, tasks: seq<Task>, fetched: nat,
                         started: seq<Start>, emitted: seq<Emission>)

  predicate Waiting(s: State, iteration: nat, quality: Quality) {
    quality.execution == Manual && iteration in s.results && quality.runGeneration == s.results[iteration].runGeneration
  }

  /** The iteration needs a run of its own. */
  predicate Runs(s: State, iteration: nat, item: Item, quality: Quality) {
    item.input.Some? && !Waiting(s, iteration, quality)
  }

  /** An execution as the component sees it; `None` when an exception escapes. */
  function Executed(iteration: nat, work: Work, run: Run): Option<Output> {
    match run
    case Produces(id) => Some(Output(Some(Outcome(id, iteration, work)), None, false))
    case ProducesNothing => Some(Output(None, None, false))
    case IsCancelled => Some(Output(None, None, true))
    case Reports(message) => Some(Output(None, Some(message), false))
    case Escapes => None
  }

  function Slot(lookup: Lookup, s: State, iteration: nat): nat {
    if lookup == InOrder then s.fetched else iteration
  }

  /** First phase. */
  function PreStep(s: State, iteration: nat, item: Item, quality: Quality): State {
    if Runs(s, iteration, item, quality) then
      s.(tasks := s.tasks + [Task(iteration, item.input.value, item.queued)],
         started := s.started + [Start(iteration, item.input.value)])
    else s
  }

  function Emitted(s: State, iteration: nat, work: Work, result: Outcome): State {
    s.(emitted := s.emitted + [Emission(iteration, work, result)])
  }

  /** A failed or cancelled run falls back on the stored result, if the quality allows it. */
  function Retained(s: State, iteration: nat, quality: Quality): State {
    if quality.retainStaleResult && iteration in s.results then
      Emitted(s, iteration, s.results[iteration].work, s.results[iteration].result)
    else s
  }

  function Published(s: State, iteration: nat, work: Work, output: Option<Output>, quality: Quality): State {
    if output == None then s
    else if output.value.cancelled || output.value.error.Some? || output.value.result == None then Retained(s, iteration, quality)
    else
      var result := output.value.result.value;
      Emitted(s.(results := s.results[iteration := Entry(work, result, quality.runGeneration)]), iteration, work, result)
  }

  /** Second phase. */
  function PostStep(lookup: Lookup, s: State, iteration: nat, item: Item, quality: Quality): State {
    if item.input == None then s
    else if Waiting(s, iteration, quality) then
      Emitted(s, iteration, s.results[iteration].work, s.results[iteration].result)
    else
      var work, slot := item.input.value, Slot(lookup, s, iteration);
      if slot < |s.tasks| then
        var task := s.tasks[slot];
        Published(s.(fetched := s.fetched + 1), iteration, work, Executed(task.iteration, task.work, task.run), quality)
      else
        Published(s.(started := s.started + [Start(iteration, work)]), iteration, work,
                  Executed(iteration, work, item.direct), quality)
  }

  // ---- The component, updated in place ----

  datatype Stored = Stored(iteration: nat, entry: Entry)

  /** The dictionary that a history of stores leaves behind. */
  function Replay(history: seq<Stored>): map<nat, Entry> {
    if history == [] then map[]
    else
      var last := history[|history| - 1];
      Replay(history[..|history| - 1])[last.iteration := last.entry]
  }

  predicate IsLatest(history: seq<Stored>, k: int, iteration: nat) {
    && 0 <= k < |history| && history[k].iteration == iteration
    && forall j :: k < j < |history| ==> history[j].iteration != iteration
  }

  /** The last store of this iteration, whatever was stored for others; none if there was none. */
  predicate Latest(history: seq<Stored>, iteration: nat, entry: Option<Entry>) {
    && (entry == None <==> forall k :: 0 <= k < |history| ==> history[k].iteration != iteration)
    && (entry.Some? ==> exists k :: 0 <= k < |history| && IsLatest(history, k, iteration) && history[k].entry == entry.value)
  }

  lemma {:induction false} ReplayIsLatest(history: seq<Stored>, iteration: nat)
    ensures Latest(history, iteration, if iteration in Replay(history) then Some(Replay(history)[iteration]) else None)
  {
    if history != [] {
      var front, n := history[..|history| - 1], |history| - 1;
      ReplayIsLatest(front, iteration);
      if history[n].iteration == iteration {
        assert IsLatest(history, n, iteration);
      } else if iteration in Replay(front) {
        var k :| 0 <= k < |front| && IsLatest(front, k, iteration) && front[k].entry == Replay(front)[iteration];
        assert history[k] == front[k];
        assert IsLatest(history, k, iteration);
      }
    }
  }

  /** The history determines the answer. */
  lemma LatestUnique(history: seq<Stored>, iteration: nat, a: Option<Entry>, b: Option<Entry>)
    requires Latest(history, iteration, a) && Latest(history, iteration, b)
    ensures a == b
  {
    if a.Some? && b.Some? {
      var i :| 0 <= i < |history| && IsLatest(history, i, iteration) && history[i].entry == a.value;
      var j :| 0 <= j < |history| && IsLatest(history, j, iteration) && history[j].entry == b.value;
      assert i == j;
    }
  }

  class AnalysisResultCache {
    var entries: map<nat, Entry>
    ghost var history: seq<Stored>

    ghost predicate Valid()
      reads this
    {
      entries == Replay(history)
    }

    constructor ()
      ensures Valid() && entries == map[] && history == []
    {
      entries, history := map[], [];
    }

    method TryGet(iteration: nat) returns (entry: Option<Entry>)
      requires Valid()
      ensures Latest(history, iteration, entry)
    {
      ReplayIsLatest(history, iteration);
      entry := if iteration in entries then Some(entries[iteration]) else None;
    }

    method Store(iteration: nat, work: Work, result: Outcome, generation: int)
      requires Valid()
      modifies this
      ensures Valid() && history == old(history) + [Stored(iteration, Entry(work, result, generation))]
      ensures entries == old(entries)[iteration := Entry(work, result, generation)]
    {
      var entry := Entry(work, result, generation);
      assert (history + [Stored(iteration, entry)])[..|history|] == history;
      entries := entries[iteration := entry];
      history := history + [Stored(iteration, entry)];
    }
  }

  class ScheduledComponent {
    const results: AnalysisResultCache
    var taskList: seq<Task>
    var fetched: nat
    var started: seq<Start>
    var emitted: seq<Emission>

    ghost function View(): State
      reads this, results
    {
      State(results.entries, taskList, fetched, started, emitted)
    }

    constructor ()
      ensures fresh(results) && results.Valid() && View() == State(map[], [], 0, [], [])
    {
      results := new AnalysisResultCache();
      taskList, fetched, started, emitted := [], 0, [], [];
    }

    method Emit(iteration: nat, work: Work, result: Outcome)
      modifies `emitted
      ensures emitted == old(emitted) + [Emission(iteration, work, result)]
    {
      emitted := emitted + [Emission(iteration, work, result)];
    }

    method Previous(iteration: nat) returns (entry: Option<Entry>)
      requires results.Valid()
      ensures entry == if iteration in results.entries then Some(results.entries[iteration]) else None
    {
      entry := results.TryGet(iteration);
      ReplayIsLatest(results.history, iteration);
      LatestUnique(results.history, iteration, entry,
                   if iteration in results.entries then Some(results.entries[iteration]) else None);
    }

    /** The host's lookup of a queued task. */
    method GetSolveResults(iteration: nat, lookup: Lookup) returns (found: bool, output: Option<Output>)
      modifies `fetched
      ensures found <==> Slot(lookup, old(View()), iteration) < |taskList|
      ensures found ==>
        && fetched == old(fetched) + 1
        && var task := taskList[Slot(lookup, old(View()), iteration)];
           output == Executed(task.iteration, task.work, task.run)
      ensures !found ==> fetched == old(fetched)
    {
      var slot := if lookup == InOrder then fetched else iteration;
      found, output := slot < |taskList|, None;
      if found {
        fetched := fetched + 1;
        output := Executed(taskList[slot].iteration, taskList[slot].work, taskList[slot].run);
      }
    }

    method SolveInstance(inPreSolve: bool, iteration: nat, item: Item, quality: Quality, lookup: Lookup)
      requires results.Valid()
      modifies this, results
      ensures results.Valid()
      ensures View() == if inPreSolve then PreStep(old(View()), iteration, item, quality)
                        else PostStep(lookup, old(View()), iteration, item, quality)
    {
      hide Published;
      if item.input == None {
        return;
      }
      var work := item.input.value;
      var previous := Previous(iteration);
      var waitingForManualRun := quality.execution == Manual && previous.Some?
                                 && quality.runGeneration == previous.value.runGeneration;
      if waitingForManualRun {
        if !inPreSolve {
          Emit(iteration, previous.value.work, previous.value.result);
        }
        return;
      }
      if inPreSolve {
        taskList := taskList + [Task(iteration, work, item.queued)];
        started := started + [Start(iteration, work)];
        return;
      }
      var found, output := GetSolveResults(iteration, lookup);
      if !found {
        started := started + [Start(iteration, work)];
        output := Executed(iteration, work, item.direct);
      }
      Conclude(iteration, work, output, previous, quality);
    }

    /** Cancelled, failed or done: what is stored and emitted. */
    method Conclude(iteration: nat, work: Work, output: Option<Output>, previous: Option<Entry>, quality: Quality)
      requires results.Valid()
      requires previous == if iteration in results.entries then Some(results.entries[iteration]) else None
      modifies this, results
      ensures results.Valid()
      ensures View() == Published(old(View()), iteration, work, output, quality)
    {
      if output == None {
        return;
      }
      if output.value.cancelled || output.value.error.Some? || output.value.result == None {
        if quality.retainStaleResult && previous.Some? {
          Emit(iteration, previous.value.work, previous.value.result);
        }
        return;
      }
      results.Store(iteration, work, output.value.result.value, quality.runGeneration);
      Emit(iteration, work, output.value.result.value);
    }
  }

  // ---- Whole solves ----

  function Begin(s: State): State {
    s.(tasks := [], fetched := 0)
  }

  function PreAll(s: State, items: seq<Item>, quality: Quality, n: nat): State
    requires n <= |items|
  {
    if n == 0 then Begin(s) else PreStep(PreAll(s, items, quality, n - 1), n - 1, items[n - 1], quality)
  }

  /** The state the second phase starts from; a host without tasks skips the first phase. */
  function Queued(s: State, items: seq<Item>, quality: Quality, tasks: bool): State {
    if tasks then PreAll(s, items, quality, |items|) else Begin(s)
  }

  function PostAll(lookup: Lookup, s: State, items: seq<Item>, quality: Quality, tasks: bool, n: nat): State
    requires n <= |items|
  {
    if n == 0 then Queued(s, items, quality, tasks)
    else PostStep(lookup, PostAll(lookup, s, items, quality, tasks, n - 1), n - 1, items[n - 1], quality)
  }

  function Solve(lookup: Lookup, s: State, items: seq<Item>, quality: Quality, tasks: bool): State {
    PostAll(lookup, s, items, quality, tasks, |items|)
  }

  datatype Request = Request(items: seq<Item>, quality: Quality, tasks: bool)

  function SolveAll(lookup: Lookup, s: State, requests: seq<Request>): State {
    if requests == [] then s
    else
      var last := requests[|requests| - 1];
      Solve(lookup, SolveAll(lookup, s, requests[..|requests| - 1]), last.items, last.quality, last.tasks)
  }

  const Idle := State(map[], [], 0, [], [])

  // ---- Pairing ----

  predicate Paired(iteration: nat, work: Work, result: Outcome) {
    result.iteration == iteration && result.work == work
  }

  /** Every stored and every emitted result belongs to its work and its iteration. */
  predicate AllPaired(s: State) {
    && (forall i :: i in s.results ==> Paired(i, s.results[i].work, s.results[i].result))
    && (forall k :: 0 <= k < |s.emitted| ==> Paired(s.emitted[k].iteration, s.emitted[k].work, s.emitted[k].result))
  }

  /** Iterations below `n` that need a run. */
  function Demand(s: State, items: seq<Item>, quality: Quality, n: nat): nat
    requires n <= |items|
  {
    if n == 0 then 0
    else Demand(s, items, quality, n - 1) + (if Runs(s, n - 1, items[n - 1], quality) then 1 else 0)
  }

  /** The first phase leaves the results alone and queues, in order, one task for each
      iteration that needs a run. */
  lemma {:induction false} QueuedTasks(s: State, items: seq<Item>, quality: Quality, n: nat)
    requires n <= |items|
    ensures var t := PreAll(s, items, quality, n);
      && t.results == s.results && t.fetched == 0 && t.emitted == s.emitted
      && |t.tasks| == Demand(s, items, quality, n)
      && (forall i :: 0 <= i < n && Runs(s, i, items[i], quality) ==>
            Demand(s, items, quality, i) < |t.tasks| && OwnTask(t, Demand(s, items, quality, i), i, items[i]))
  {
    if n > 0 {
      QueuedTasks(s, items, quality, n - 1);
    }
  }

  predicate OwnTask(t: State, slot: nat, iteration: nat, item: Item) {
    slot < |t.tasks| && item.input.Some? && t.tasks[slot] == Task(iteration, item.input.value, item.queued)
  }

  /** The host hands this iteration its own task, or none. */
  predicate Handed(lookup: Lookup, s: State, iteration: nat, item: Item) {
    var slot := Slot(lookup, s, iteration);
    slot < |s.tasks| ==> OwnTask(s, slot, iteration, item)
  }

  lemma PostStepPaired(lookup: Lookup, s: State, iteration: nat, item: Item, quality: Quality)
    requires AllPaired(s)
    requires Runs(s, iteration, item, quality) ==> Handed(lookup, s, iteration, item)
    ensures AllPaired(PostStep(lookup, s, iteration, item, quality))
  {
  }

  /** What one iteration of the second phase may touch. */
  lemma PostStepFrame(lookup: Lookup, s: State, iteration: nat, item: Item, quality: Quality)
    ensures var t := PostStep(lookup, s, iteration, item, quality);
      var taken := Runs(s, iteration, item, quality) && Slot(lookup, s, iteration) < |s.tasks|;
      && t.tasks == s.tasks
      && t.fetched == s.fetched + (if taken then 1 else 0)
      && SameElsewhere(s, t, iteration)
      && s.emitted <= t.emitted
      && t.started == s.started + (if Runs(s, iteration, item, quality) && !taken
                                   then [Start(iteration, item.input.value)] else [])
      && (Waiting(s, iteration, quality) ==> t.results == s.results)
  {
    hide Executed;
  }

  ghost predicate SameElsewhere(s: State, t: State, iteration: nat) {
    forall i: nat :: i != iteration ==> SameEntry(s, t, i)
  }

  predicate SameEntry(s: State, t: State, i: nat) {
    (i in t.results <==> i in s.results) && (i in t.results ==> t.results[i] == s.results[i])
  }

  /** What the second phase has kept and consumed after `n` iterations. */
  lemma {:induction false} SecondPhase(lookup: Lookup, s: State, items: seq<Item>, quality: Quality, tasks: bool, n: nat)
    requires n <= |items|
    ensures var q, t := Queued(s, items, quality, tasks), PostAll(lookup, s, items, quality, tasks, n);
      && t.tasks == q.tasks
      && (lookup == InOrder ==> t.fetched == if tasks then Demand(s, items, quality, n) else 0)
      && (forall i: nat :: i >= n ==> SameEntry(s, t, i))
  {
    hide PostStep;
    QueuedTasks(s, items, quality, |items|);
    if n > 0 {
      SecondPhase(lookup, s, items, quality, tasks, n - 1);
      var t := PostAll(lookup, s, items, quality, tasks, n - 1);
      PostStepFrame(lookup, t, n - 1, items[n - 1], quality);
      assert SameEntry(s, t, n - 1);
      var next := PostAll(lookup, s, items, quality, tasks, n);
      forall i: nat | i >= n ensures SameEntry(s, next, i) {
        assert SameEntry(s, t, i) && SameEntry(t, next, i);
      }
      if tasks && Runs(s, n - 1, items[n - 1], quality) {
        assert Demand(s, items, quality, n - 1) < |t.tasks|;
      }
    }
  }

  /** Every iteration that would find a task under its own number has its own task there:
      all iterations before it run too. */
  predicate NoGap(s: State, items: seq<Item>, quality: Quality) {
    forall i :: 0 <= i < |items| && Runs(s, i, items[i], quality) && i < Demand(s, items, quality, |items|)
                ==> Demand(s, items, quality, i) == i
  }

  predicate HandsOwn(lookup: Lookup, s: State, items: seq<Item>, quality: Quality, tasks: bool) {
    lookup == InOrder || !tasks || NoGap(s, items, quality)
  }

  lemma {:induction false} PhasesPaired(lookup: Lookup, s: State, items: seq<Item>, quality: Quality, tasks: bool, n: nat)
    requires n <= |items| && AllPaired(s) && HandsOwn(lookup, s, items, quality, tasks)
    ensures AllPaired(PostAll(lookup, s, items, quality, tasks, n))
  {
    QueuedTasks(s, items, quality, |items|);
    if n > 0 {
      PhasesPaired(lookup, s, items, quality, tasks, n - 1);
      SecondPhase(lookup, s, items, quality, tasks, n - 1);
      var t := PostAll(lookup, s, items, quality, tasks, n - 1);
      assert SameEntry(s, t, n - 1);
      PostStepPaired(lookup, t, n - 1, items[n - 1], quality);
    }
  }

  /** With a host that hands tasks back in order, over all solves, whatever is read,
      cancelled, failed or retained: every emitted result was produced by the emitted work in
      that same iteration. */
  lemma {:induction false} EveryEmissionPaired(requests: seq<Request>)
    ensures AllPaired(SolveAll(InOrder, Idle, requests))
  {
    if requests != [] {
      var front, last := requests[..|requests| - 1], requests[|requests| - 1];
      EveryEmissionPaired(front);
      PhasesPaired(InOrder, SolveAll(InOrder, Idle, front), last.items, last.quality, last.tasks, |last.items|);
    }
  }

  // ---- A host that looks tasks up by iteration number ----

  lemma {:induction false} TaskPositions(s: State, items: seq<Item>, quality: Quality, n: nat)
    requires n <= |items|
    ensures var t := PreAll(s, items, quality, n);
      forall k :: 0 <= k < |t.tasks| ==>
        && t.tasks[k].iteration < n
        && Demand(s, items, quality, t.tasks[k].iteration) == k
        && t.tasks[k].run == items[t.tasks[k].iteration].queued
        && OwnTask(t, k, t.tasks[k].iteration, items[t.tasks[k].iteration])
  {
    QueuedTasks(s, items, quality, n);
    if n > 0 {
      TaskPositions(s, items, quality, n - 1);
      QueuedTasks(s, items, quality, n - 1);
    }
  }

  lemma {:induction false} EmissionsStay(lookup: Lookup, s: State, items: seq<Item>, quality: Quality, tasks: bool, m: nat, n: nat)
    requires m <= n <= |items|
    ensures PostAll(lookup, s, items, quality, tasks, m).emitted <= PostAll(lookup, s, items, quality, tasks, n).emitted
  {
    hide PostStep;
    if m < n {
      EmissionsStay(lookup, s, items, quality, tasks, m, n - 1);
      PostStepFrame(lookup, PostAll(lookup, s, items, quality, tasks, n - 1), n - 1, items[n - 1], quality);
    }
  }

  /** Each running iteration that finds a task under its own number finds its own, or one
      that produces nothing. */
  predicate MispairsNothing(s: State, items: seq<Item>, quality: Quality) {
    var tasks := PreAll(s, items, quality, |items|).tasks;
    forall i :: 0 <= i < |items| && Runs(s, i, items[i], quality) && i < |tasks| && tasks[i].run.Produces?
                ==> tasks[i].iteration == i
  }

  lemma GapMispairs(s: State, items: seq<Item>, quality: Quality, i: nat)
    requires i < |items| && Runs(s, i, items[i], quality)
    requires i < |PreAll(s, items, quality, |items|).tasks|
    requires PreAll(s, items, quality, |items|).tasks[i].run.Produces?
    requires PreAll(s, items, quality, |items|).tasks[i].iteration != i
    ensures !AllPaired(Solve(ByIteration, s, items, quality, true))
  {
    hide PostStep, PreStep, PreAll, AllPaired, Runs;
    MeetsTasks(s, items, quality, i);
    MispairedStep(PostAll(ByIteration, s, items, quality, true, i), i, items[i], quality);
    EmissionsStay(ByIteration, s, items, quality, true, i + 1, |items|);
    LastMispaired(PostAll(ByIteration, s, items, quality, true, i + 1), Solve(ByIteration, s, items, quality, true));
  }

  /** The second phase meets each iteration as the solve found it. */
  lemma MeetsTasks(s: State, items: seq<Item>, quality: Quality, i: nat)
    requires i < |items|
    ensures var t := PostAll(ByIteration, s, items, quality, true, i);
      && (Runs(t, i, items[i], quality) <==> Runs(s, i, items[i], quality))
      && t.tasks == PreAll(s, items, quality, |items|).tasks
  {
    hide PostStep, PreStep, PreAll, Demand;
    SecondPhase(ByIteration, s, items, quality, true, i);
    assert SameEntry(s, PostAll(ByIteration, s, items, quality, true, i), i);
  }

  lemma LastMispaired(u: State, t: State)
    requires u.emitted != [] && u.emitted <= t.emitted
    requires var last := u.emitted[|u.emitted| - 1]; !Paired(last.iteration, last.work, last.result)
    ensures !AllPaired(t)
  {
    assert t.emitted[|u.emitted| - 1] == u.emitted[|u.emitted| - 1];
  }

  lemma MispairedStep(t: State, i: nat, item: Item, quality: Quality)
    requires Runs(t, i, item, quality) && i < |t.tasks| && t.tasks[i].run.Produces? && t.tasks[i].iteration != i
    ensures var u := PostStep(ByIteration, t, i, item, quality);
      u.emitted != [] && !Paired(u.emitted[|u.emitted| - 1].iteration, u.emitted[|u.emitted| - 1].work,
                                 u.emitted[|u.emitted| - 1].result)
  {
  }

  /** A task that produces nothing cannot be mispaired. */
  lemma HarmlessStep(s: State, iteration: nat, item: Item, quality: Quality)
    requires AllPaired(s)
    requires Runs(s, iteration, item, quality) && iteration < |s.tasks| && s.tasks[iteration].run.Produces?
             ==> OwnTask(s, iteration, iteration, item)
    ensures AllPaired(PostStep(ByIteration, s, iteration, item, quality))
  {
  }

  lemma {:induction false} HarmlessPhases(s: State, items: seq<Item>, quality: Quality, n: nat)
    requires n <= |items| && AllPaired(s) && MispairsNothing(s, items, quality)
    ensures AllPaired(PostAll(ByIteration, s, items, quality, true, n))
  {
    QueuedTasks(s, items, quality, |items|);
    hide PostStep, PreStep, PreAll, AllPaired, Runs, Demand;
    if n > 0 {
      HarmlessPhases(s, items, quality, n - 1);
      MeetsTasks(s, items, quality, n - 1);
      TaskPositions(s, items, quality, |items|);
      HarmlessStep(PostAll(ByIteration, s, items, quality, true, n - 1), n - 1, items[n - 1], quality);
    }
  }

  /** A host that indexes tasks by iteration number keeps results paired exactly when no
      running iteration finds another iteration's producing task under its number. */
  lemma ByIterationPairsIff(s: State, items: seq<Item>, quality: Quality)
    requires AllPaired(s)
    ensures AllPaired(Solve(ByIteration, s, items, quality, true)) <==> MispairsNothing(s, items, quality)
  {
    if MispairsNothing(s, items, quality) {
      HarmlessPhases(s, items, quality, |items|);
    } else {
      var i :| 0 <= i < |items| && Runs(s, i, items[i], quality)
               && i < |PreAll(s, items, quality, |items|).tasks|
               && PreAll(s, items, quality, |items|).tasks[i].run.Produces?
               && PreAll(s, items, quality, |items|).tasks[i].iteration != i;
      GapMispairs(s, items, quality, i);
    }
  }

  /** What a caller can see before any task has ended: without a gap nothing is mispaired
      whatever the tasks do, and across a gap a producing task is. */
  lemma GapsMispair(s: State, items: seq<Item>, quality: Quality)
    ensures NoGap(s, items, quality) ==> MispairsNothing(s, items, quality)
    ensures MispairsNothing(s, items, quality) && (forall i :: 0 <= i < |items| ==> items[i].queued.Produces?)
            ==> NoGap(s, items, quality)
  {
    QueuedTasks(s, items, quality, |items|);
    TaskPositions(s, items, quality, |items|);
    hide PreAll, Demand;
    var t := PreAll(s, items, quality, |items|);
    if NoGap(s, items, quality) {
      forall i | 0 <= i < |items| && Runs(s, i, items[i], quality) && i < |t.tasks| ensures t.tasks[i].iteration == i {
        assert OwnTask(t, Demand(s, items, quality, i), i, items[i]);
      }
    }
    if MispairsNothing(s, items, quality) && (forall i :: 0 <= i < |items| ==> items[i].queued.Produces?) {
      forall i | 0 <= i < |items| && Runs(s, i, items[i], quality) && i < Demand(s, items, quality, |items|)
        ensures Demand(s, items, quality, i) == i
      {
        assert t.tasks[i].run == items[t.tasks[i].iteration].queued;
      }
    }
  }

  /** Such a gap is ordinary: one iteration shows its stored manual result, the two after it
      have none yet. */
  lemma StoredResultMakesGap(work: Work, queued: Run)
    ensures var s := State(map[0 := Entry(work, Outcome(0, 0, work), 1)], [], 0, [], []);
      var item := Item(Some(work), queued, Escapes);
      AllPaired(s) && !NoGap(s, [item, item, item], Quality(Manual, 1, true))
  {
    var s := State(map[0 := Entry(work, Outcome(0, 0, work), 1)], [], 0, [], []);
    var item := Item(Some(work), queued, Escapes);
    var items, quality := [item, item, item], Quality(Manual, 1, true);
    assert Demand(s, items, quality, 1) == 0;
    assert Demand(s, items, quality, 2) == 1;
    assert Demand(s, items, quality, 3) == 2;
    assert Runs(s, 1, items[1], quality);
  }

  // ---- Which executions start ----

  predicate StartedSince(s: State, from: nat, iteration: nat) {
    exists k :: from <= k < |s.started| && s.started[k].iteration == iteration
  }

  lemma StartedAppend(s: State, t: State, from: nat, extra: seq<Start>)
    requires from <= |s.started| && t.started == s.started + extra && |extra| <= 1
    ensures forall i: nat :: StartedSince(t, from, i) <==> StartedSince(s, from, i) || (extra != [] && extra[0].iteration == i)
  {
    forall i: nat ensures StartedSince(t, from, i) <==> StartedSince(s, from, i) || (extra != [] && extra[0].iteration == i) {
      if StartedSince(s, from, i) {
        var k :| from <= k < |s.started| && s.started[k].iteration == i;
        assert t.started[k] == s.started[k];
      }
      if extra != [] {
        assert t.started[|s.started|] == extra[0];
      }
    }
  }

  lemma {:induction false} QueuedStarts(s: State, items: seq<Item>, quality: Quality, n: nat)
    requires n <= |items|
    ensures var t := PreAll(s, items, quality, n);
      && |t.started| == |s.started| + Demand(s, items, quality, n)
      && forall i: nat :: StartedSince(t, |s.started|, i) <==> i < n && Runs(s, i, items[i], quality)
  {
    hide StartedSince;
    if n > 0 {
      QueuedStarts(s, items, quality, n - 1);
      QueuedTasks(s, items, quality, n - 1);
      var t := PreAll(s, items, quality, n - 1);
      StartedAppend(t, PreAll(s, items, quality, n), |s.started|,
                    if Runs(t, n - 1, items[n - 1], quality) then [Start(n - 1, items[n - 1].input.value)] else []);
    } else {
      NoneSince(s, Begin(s));
    }
  }

  lemma NoneSince(s: State, t: State)
    requires t.started == s.started
    ensures forall i: nat :: !StartedSince(t, |s.started|, i)
  {
  }

  lemma {:induction false} SolveStarts(lookup: Lookup, s: State, items: seq<Item>, quality: Quality, tasks: bool, n: nat)
    requires n <= |items|
    ensures var t := PostAll(lookup, s, items, quality, tasks, n);
      && |s.started| <= |t.started|
      && (forall i: nat :: StartedSince(t, |s.started|, i)
                      <==> i < (if tasks then |items| else n) && Runs(s, i, items[i], quality))
      && (lookup == InOrder ==>
            |t.started| == |s.started| + Demand(s, items, quality, if tasks then |items| else n))
  {
    hide StartedSince, PostStep;
    if n == 0 {
      QueuedStarts(s, items, quality, |items|);
      NoneSince(s, Begin(s));
    } else {
      SolveStarts(lookup, s, items, quality, tasks, n - 1);
      SecondPhase(lookup, s, items, quality, tasks, n - 1);
      QueuedTasks(s, items, quality, |items|);
      var t := PostAll(lookup, s, items, quality, tasks, n - 1);
      var item := items[n - 1];
      assert SameEntry(s, t, n - 1);
      PostStepFrame(lookup, t, n - 1, item, quality);
      var taken := Slot(lookup, t, n - 1) < |t.tasks|;
      if tasks && Runs(s, n - 1, item, quality) {
        assert Demand(s, items, quality, n - 1) < |t.tasks|;
      }
      StartedAppend(t, PostAll(lookup, s, items, quality, tasks, n), |s.started|,
                    if Runs(t, n - 1, item, quality) && !taken then [Start(n - 1, item.input.value)] else []);
    }
  }

  /** A solve starts an execution for exactly the iterations whose inputs are valid and which
      are not waiting for a manual run, and with an ordered host exactly one for each. In
      manual mode an iteration without a stored result does run at once. */
  lemma StartsExactlyWhatRuns(lookup: Lookup, s: State, items: seq<Item>, quality: Quality, tasks: bool)
    ensures var t := Solve(lookup, s, items, quality, tasks);
      && (forall i: nat :: StartedSince(t, |s.started|, i) <==> i < |items| && Runs(s, i, items[i], quality))
      && (lookup == InOrder ==> |t.started| == |s.started| + Demand(s, items, quality, |items|))
  {
    SolveStarts(lookup, s, items, quality, tasks, |items|);
  }

  predicate ManualAt(requests: seq<Request>, generation: int) {
    forall k :: 0 <= k < |requests| ==> requests[k].quality.execution == Manual && requests[k].quality.runGeneration == generation
  }

  lemma {:induction false} WaitingEntryStays(lookup: Lookup, s: State, items: seq<Item>, quality: Quality, tasks: bool, n: nat, i: nat)
    requires n <= |items| && Waiting(s, i, quality)
    ensures SameEntry(s, PostAll(lookup, s, items, quality, tasks, n), i)
  {
    hide PostStep;
    QueuedTasks(s, items, quality, |items|);
    if n > 0 {
      WaitingEntryStays(lookup, s, items, quality, tasks, n - 1, i);
      var t := PostAll(lookup, s, items, quality, tasks, n - 1);
      assert n - 1 != i ==> SameEntry(t, PostAll(lookup, s, items, quality, tasks, n), i) by {
        PostStepFrame(lookup, t, n - 1, items[n - 1], quality);
      }
      PostStepFrame(lookup, PostAll(lookup, s, items, quality, tasks, n - 1), n - 1, items[n - 1], quality);
    }
  }

  /** In manual mode a stored result stays as it is, through any number of solves with any
      inputs, until the run generation changes; and its iteration is never executed. */
  lemma {:induction false} ManualResultStands(lookup: Lookup, s: State, requests: seq<Request>, generation: int, i: nat)
    requires ManualAt(requests, generation) && i in s.results && s.results[i].runGeneration == generation
    ensures var t := SolveAll(lookup, s, requests);
      && SameEntry(s, t, i)
      && |s.started| <= |t.started| && !StartedSince(t, |s.started|, i)
  {
    hide StartedSince, PostAll;
    if requests == [] {
      NoneSince(s, s);
    } else {
      var front, last := requests[..|requests| - 1], requests[|requests| - 1];
      ManualResultStands(lookup, s, front, generation, i);
      var m := SolveAll(lookup, s, front);
      WaitingEntryStays(lookup, m, last.items, last.quality, last.tasks, |last.items|, i);
      StartsExactlyWhatRuns(lookup, m, last.items, last.quality, last.tasks);
      SolveKeepsStarts(lookup, m, last);
      SinceSplits(s, m, SolveAll(lookup, s, requests), i);
    }
  }

  lemma {:induction false} StartsStay(lookup: Lookup, s: State, items: seq<Item>, quality: Quality, tasks: bool, n: nat)
    requires n <= |items|
    ensures s.started <= PostAll(lookup, s, items, quality, tasks, n).started
  {
    hide PostStep;
    if n == 0 {
      PreStartsStay(s, items, quality, |items|);
    } else {
      StartsStay(lookup, s, items, quality, tasks, n - 1);
      PostStepFrame(lookup, PostAll(lookup, s, items, quality, tasks, n - 1), n - 1, items[n - 1], quality);
    }
  }

  lemma {:induction false} PreStartsStay(s: State, items: seq<Item>, quality: Quality, n: nat)
    requires n <= |items|
    ensures s.started <= PreAll(s, items, quality, n).started
  {
    if n > 0 {
      PreStartsStay(s, items, quality, n - 1);
    }
  }

  lemma SolveKeepsStarts(lookup: Lookup, s: State, request: Request)
    ensures s.started <= Solve(lookup, s, request.items, request.quality, request.tasks).started
  {
    StartsStay(lookup, s, request.items, request.quality, request.tasks, |request.items|);
  }

  lemma SinceSplits(s: State, m: State, t: State, i: nat)
    requires |s.started| <= |m.started| && m.started <= t.started
    requires !StartedSince(m, |s.started|, i) && !StartedSince(t, |m.started|, i)
    ensures |s.started| <= |t.started| && !StartedSince(t, |s.started|, i)
  {
  }
}
