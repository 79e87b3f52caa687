/** The ask/tell protocol end to end: the managed batch and the optimizer's own pending batch
    stay the same over every run, and every candidate ever asked is allowed by its variables,
    so an accepted `Tell` is refused natively for one reason only. */
module StudyProtocol {
  import opened Wrappers
  import opened StudyBatch
  import opened StudyBoundary
  import opened StudyVariables

  /** The optimizer's own state, as far as the protocol goes. */
  datatype Native = Native(pending: seq<Candidate>, population: seq<Candidate>, nextId: nat, generation: nat,
                           evaluationCount: nat)

  datatype System = System(managed: seq<Candidate>, disposed: bool, native: Native)

  /** The problem: dimensions and buffers, and one variable per parameter. */
  datatype Study = Study(config: Config, variables: seq<Variable>)

  predicate ValidStudy(d: Study) {
    Creatable(d.config) && |d.variables| == d.config.problem.variableCount && ValidVariables(d.variables)
  }

  /** Content that only the search itself decides: who survives, and how the answer reads. */
  datatype Choice = Choice(survivors: seq<nat>, ranked: seq<Ranked>, archive: seq<nat>, meanCrowding: Double, hash: nat)

  datatype Step =
    | Ask(proposals: seq<seq<Component>>)
    | Tell(evaluations: seq<Evaluation>, choice: Choice)
    | Dispose

  const Matching := Abi(true, true)

  // ---- The optimizer ----

  /** A first batch has the population's size, every later one the offspring's. */
  function BatchSize(d: Study, n: Native): nat {
    if n.population == [] then d.config.populationSize else d.config.offspringSize
  }

  predicate Proposes(d: Study, n: Native, proposals: seq<seq<Component>>) {
    && |proposals| == BatchSize(d, n)
    && AllowedBatch(d.variables, n.population)
    && forall i :: 0 <= i < |proposals| ==> ProposableRow(d.variables, n.population, proposals[i])
  }

  /** Fresh candidates with consecutive identifiers. */
  function Generated(d: Study, n: Native, proposals: seq<seq<Component>>): (batch: seq<Candidate>)
    requires Proposes(d, n, proposals)
    ensures |batch| == |proposals|
    ensures forall i :: 0 <= i < |proposals| ==>
      batch[i] == Candidate(n.nextId + i, n.generation, ProposedRow(d.variables, n.population, proposals[i]))
  {
    seq(|proposals|, i requires 0 <= i < |proposals| =>
      Candidate(n.nextId + i, n.generation, ProposedRow(d.variables, n.population, proposals[i])))
  }

  /** A second request before the batch is answered is refused. */
  function AskCore(d: Study, n: Native, proposals: seq<seq<Component>>): Option<seq<Candidate>>
    requires Proposes(d, n, proposals)
  {
    if n.pending != [] then None else Some(Generated(d, n, proposals))
  }

  function AfterAsk(d: Study, n: Native, proposals: seq<seq<Component>>): Native
    requires Proposes(d, n, proposals)
  {
    if n.pending != [] then n
    else n.(pending := Generated(d, n, proposals), nextId := n.nextId + |proposals|)
  }

  predicate AllFinite(values: seq<Double>) {
    forall j :: 0 <= j < |values| ==> values[j].Finite?
  }

  predicate ValidEvaluation(c: Config, e: Evaluation) {
    Fits(c.problem, e) && AllFinite(e.objectives) && AllFinite(e.residuals)
  }

  predicate AllValid(c: Config, evaluations: seq<Evaluation>) {
    forall e :: e in evaluations ==> ValidEvaluation(c, e)
  }

  /** Whether the evaluations can be bound to the optimizer's own pending candidates. */
  predicate Binds(d: Study, pending: seq<Candidate>, evaluations: seq<Evaluation>) {
    && pending != [] && |pending| <= MaximumSolutions && |evaluations| == |pending|
    && AllowedBatch(d.variables, pending)
    && DistinctCandidates(pending)
    && AllValid(d.config, evaluations)
    && DistinctIds(evaluations)
    && (forall i :: 0 <= i < |pending| ==> pending[i].candidateId in EvaluatedIds(evaluations))
  }

  /** The snapshot of a completed generation: population and archive are truncated to their
      configured sizes. */
  function Answer(c: Config, n: Native, evaluated: nat, choice: Choice): NativeSnapshot {
    NativeSnapshot(n.generation + 1, n.evaluationCount + evaluated, Taken(choice.ranked, c.populationSize),
                   Taken(choice.archive, c.archiveCapacity), choice.meanCrowding, choice.hash)
  }

  function TellCore(d: Study, n: Native, choice: Choice): seq<Evaluation> -> Option<NativeSnapshot> {
    evaluations => if Binds(d, n.pending, evaluations) then Some(Answer(d.config, n, |evaluations|, choice)) else None
  }

  /** Survivors are some of the old population and the evaluated batch, at least one. */
  predicate Chooses(d: Study, n: Native, choice: Choice) {
    && |choice.survivors| <= d.config.populationSize
    && (n.pending != [] ==> choice.survivors != [])
    && forall i :: 0 <= i < |choice.survivors| ==> choice.survivors[i] < |n.population + n.pending|
  }

  function Survivors(n: Native, survivors: seq<nat>): (population: seq<Candidate>)
    requires forall i :: 0 <= i < |survivors| ==> survivors[i] < |n.population + n.pending|
    ensures |population| == |survivors|
    ensures forall i :: 0 <= i < |survivors| ==> population[i] == (n.population + n.pending)[survivors[i]]
  {
    seq(|survivors|, i requires 0 <= i < |survivors| => (n.population + n.pending)[survivors[i]])
  }

  function AfterTell(d: Study, n: Native, evaluations: seq<Evaluation>, choice: Choice): Native
    requires Chooses(d, n, choice)
  {
    if Binds(d, n.pending, evaluations) then
      Native([], Survivors(n, choice.survivors), n.nextId, n.generation + 1, n.evaluationCount + |evaluations|)
    else n
  }

  // ---- Both sides ----

  predicate Enabled(d: Study, s: System, step: Step) {
    match step
    case Ask(proposals) => Proposes(d, s.native, proposals)
    case Tell(_, choice) => Chooses(d, s.native, choice)
    case Dispose => true
  }

  function Next(d: Study, s: System, step: Step): System
    requires Enabled(d, s, step)
  {
    var c := d.config;
    match step
    case Ask(proposals) =>
      var outcome := AskOutcome(c.problem, s.disposed, NativeAsk(c, Matching, AskCore(d, s.native, proposals)));
      s.(managed := if outcome.Success? then outcome.value else s.managed,
         native := if s.disposed then s.native else AfterAsk(d, s.native, proposals))
    case Tell(evaluations, choice) =>
      var outcome := Told(c, Matching, TellCore(d, s.native, choice), s.disposed, s.managed, evaluations);
      s.(managed := outcome.pending,
         native := if Refusal(c.problem, s.disposed, s.managed, evaluations) == None
                   then AfterTell(d, s.native, Decoded(c.problem, Submitted(s.managed, evaluations)), choice)
                   else s.native)
    case Dispose => s.(disposed := true)
  }

  const Created := System([], false, Native([], [], 1, 0, 0))

  predicate Possible(d: Study, s: System, steps: seq<Step>)
    decreases |steps|
  {
    steps == [] || (Enabled(d, s, steps[0]) && Possible(d, Next(d, s, steps[0]), steps[1..]))
  }

  function After(d: Study, s: System, steps: seq<Step>): System
    requires Possible(d, s, steps)
    decreases |steps|
  {
    if steps == [] then s else After(d, Next(d, s, steps[0]), steps[1..])
  }

  /** Both sides hold the same batch: distinct fresh identifiers, one allowed value per
      variable, and no more candidates than the buffers take. */
  predicate InSync(d: Study, s: System) {
    && s.managed == s.native.pending
    && |s.managed| <= Capacity(d.config) <= MaximumSolutions
    && AllowedBatch(d.variables, s.managed) && AllowedBatch(d.variables, s.native.population)
    && DistinctCandidates(s.managed)
    && (forall i :: 0 <= i < |s.managed| ==> s.managed[i].candidateId < s.native.nextId)
  }

  lemma AllowedIsShaped(d: Study, batch: seq<Candidate>)
    requires ValidStudy(d) && AllowedBatch(d.variables, batch)
    ensures WellShaped(d.config.problem, batch)
  {
    forall i | 0 <= i < |batch| ensures |batch[i].parameters| == d.config.problem.variableCount {
      assert AllowedRow(d.variables, batch[i].parameters);
    }
  }

  /** Every generated candidate is allowed: validation never rejects what the search proposes. */
  lemma GeneratedAllowed(d: Study, n: Native, proposals: seq<seq<Component>>)
    requires ValidStudy(d) && Proposes(d, n, proposals)
    ensures AllowedBatch(d.variables, Generated(d, n, proposals))
  {
    forall i | 0 <= i < |proposals| ensures AllowedRow(d.variables, Generated(d, n, proposals)[i].parameters) {
      ProposedAllowed(d.variables, n.population, proposals[i]);
    }
  }

  lemma AskInSync(d: Study, s: System, proposals: seq<seq<Component>>)
    requires ValidStudy(d) && InSync(d, s) && Enabled(d, s, Ask(proposals))
    ensures InSync(d, Next(d, s, Ask(proposals)))
  {
    hide Concat, AskOutcome, NativeAsk, AllowedBatch, ValidVariables;
    var batch := Generated(d, s.native, proposals);
    RefusedAsk(d.config, s.disposed, batch);
    if s.native.pending == [] && !s.disposed {
      GeneratedAllowed(d, s.native, proposals);
      AllowedIsShaped(d, batch);
      AskDelivers(d.config, batch);
    }
  }

  lemma RefusedAsk(c: Config, disposed: bool, batch: seq<Candidate>)
    ensures AskOutcome(c.problem, disposed, NativeAsk(c, Matching, None)).Failure?
    ensures disposed ==> AskOutcome(c.problem, disposed, NativeAsk(c, Matching, Some(batch))).Failure?
  {
  }

  /** Every number of every evaluation is finite. */
  ghost predicate FiniteThroughout(evaluations: seq<Evaluation>) {
    forall e, d :: e in evaluations && (d in e.objectives || d in e.residuals) ==> d.Finite?
  }

  lemma AllValidIff(c: Config, evaluations: seq<Evaluation>)
    ensures AllValid(c, evaluations)
      <==> FiniteThroughout(evaluations) && forall e :: e in evaluations ==> Fits(c.problem, e)
  {
    if FiniteThroughout(evaluations) {
      forall e | e in evaluations ensures AllFinite(e.objectives) && AllFinite(e.residuals) {
        assert forall j :: 0 <= j < |e.objectives| ==> e.objectives[j] in e.objectives;
        assert forall j :: 0 <= j < |e.residuals| ==> e.residuals[j] in e.residuals;
      }
    }
  }

  /** With both sides in step an accepted batch binds natively exactly if its values are
      finite: no length, identity, dimension or candidate check can fail. */
  lemma AcceptedBinds(d: Study, s: System, evaluations: seq<Evaluation>)
    requires InSync(d, s) && Refusal(d.config.problem, s.disposed, s.managed, evaluations) == None
    ensures Binds(d, s.native.pending, Decoded(d.config.problem, Submitted(s.managed, evaluations)))
      <==> FiniteThroughout(evaluations)
  {
    hide AllValid, AllowedBatch, Decoded, Submitted, ById, DistinctIds, DistinctCandidates, EvaluatedIds, Fits;
    var problem := d.config.problem;
    var received := Decoded(problem, Submitted(s.managed, evaluations));
    NativeReceivesEvaluations(problem, s.managed, evaluations);
    ReceivedDistinct(problem, s.managed, evaluations);
    EveryoneReceived(problem, s.managed, evaluations);
    SameValid(d.config, received, evaluations);
    AllValidIff(d.config, evaluations);
    AcceptedFit(problem, s.managed, evaluations);
  }

  lemma AcceptedFit(problem: Problem, pending: seq<Candidate>, evaluations: seq<Evaluation>)
    requires Refusal(problem, false, pending, evaluations) == None && DistinctCandidates(pending)
    ensures forall e :: e in evaluations ==> Fits(problem, e)
  {
    AnsweredIff(problem, pending, evaluations);
  }

  lemma SameValid(c: Config, received: seq<Evaluation>, evaluations: seq<Evaluation>)
    requires forall e :: e in received <==> e in evaluations
    ensures AllValid(c, received) <==> AllValid(c, evaluations)
  {
  }

  lemma ReceivedDistinct(problem: Problem, pending: seq<Candidate>, evaluations: seq<Evaluation>)
    requires Refusal(problem, false, pending, evaluations) == None && DistinctCandidates(pending)
    ensures var received := Decoded(problem, Submitted(pending, evaluations));
      && |received| == |pending| && DistinctIds(received)
      && forall i :: 0 <= i < |pending| ==> pending[i].candidateId in EvaluatedIds(received)
  {
    NativeReceivesEvaluations(problem, pending, evaluations);
    ByIdMembers(evaluations);
    var received := Ordered(pending, ById(evaluations));
    forall i | 0 <= i < |pending| ensures received[i].candidateId == pending[i].candidateId {
    }
    forall i | 0 <= i < |pending| ensures pending[i].candidateId in EvaluatedIds(received) {
      assert received[i] in received;
    }
  }

  /** A batch of distinct candidates uses up every evaluation. */
  lemma EveryoneReceived(problem: Problem, pending: seq<Candidate>, evaluations: seq<Evaluation>)
    requires Refusal(problem, false, pending, evaluations) == None && DistinctCandidates(pending)
    ensures forall e :: e in evaluations ==> e in Decoded(problem, Submitted(pending, evaluations))
  {
    NativeReceivesEvaluations(problem, pending, evaluations);
    AnsweredIff(problem, pending, evaluations);
    ByIdMembers(evaluations);
    var received := Ordered(pending, ById(evaluations));
    forall e | e in evaluations ensures e in received {
      assert e.candidateId in PendingIds(pending);
      var candidate :| candidate in pending && candidate.candidateId == e.candidateId;
      var i :| 0 <= i < |pending| && pending[i] == candidate;
      assert received[i] == e;
    }
  }

  lemma AnswerFits(c: Config, n: Native, evaluated: nat, choice: Choice)
    ensures |Answer(c, n, evaluated, choice).solutions| <= c.populationSize
    ensures |Answer(c, n, evaluated, choice).archive| <= c.archiveCapacity
  {
  }

  /** A `Tell` succeeds on both sides or on neither. */
  lemma TellTogether(d: Study, s: System, evaluations: seq<Evaluation>, choice: Choice)
    requires Creatable(d.config) && Refusal(d.config.problem, s.disposed, s.managed, evaluations) == None
    ensures var outcome := Told(d.config, Matching, TellCore(d, s.native, choice), s.disposed, s.managed, evaluations);
      outcome.result.Success? <==> Binds(d, s.native.pending, Decoded(d.config.problem, Submitted(s.managed, evaluations)))
  {
    hide Binds, Decoded, Submitted, SnapshotOf;
    var received := Decoded(d.config.problem, Submitted(s.managed, evaluations));
    AnswerFits(d.config, s.native, |received|, choice);
  }

  lemma SurvivorsAllowed(d: Study, n: Native, choice: Choice)
    requires Chooses(d, n, choice) && AllowedBatch(d.variables, n.population) && AllowedBatch(d.variables, n.pending)
    ensures AllowedBatch(d.variables, Survivors(n, choice.survivors))
  {
  }

  lemma TellInSync(d: Study, s: System, evaluations: seq<Evaluation>, choice: Choice)
    requires ValidStudy(d) && InSync(d, s) && Enabled(d, s, Tell(evaluations, choice))
    ensures InSync(d, Next(d, s, Tell(evaluations, choice)))
  {
    FailedTellKeepsBatch(d.config, Matching, TellCore(d, s.native, choice), s.disposed, s.managed, evaluations);
    SurvivorsAllowed(d, s.native, choice);
    if Refusal(d.config.problem, s.disposed, s.managed, evaluations) == None {
      TellTogether(d, s, evaluations, choice);
    }
    hide Told, Binds, Decoded, Submitted, Refusal, TellCore, ById, AllowedBatch, Survivors;
  }

  /** Over every run of asks, tells and disposal, accepted or refused on either side, the
      managed object and the optimizer hold the same pending batch, of allowed candidates. */
  lemma {:induction false} StaysInSync(d: Study, s: System, steps: seq<Step>)
    requires ValidStudy(d) && InSync(d, s) && Possible(d, s, steps)
    ensures InSync(d, After(d, s, steps))
    decreases |steps|
  {
    if steps != [] {
      match steps[0] {
        case Ask(proposals) => AskInSync(d, s, proposals);
        case Tell(evaluations, choice) => TellInSync(d, s, evaluations, choice);
        case Dispose =>
      }
      hide InSync, Next, Enabled, ValidStudy;
      StaysInSync(d, Next(d, s, steps[0]), steps[1..]);
    }
  }

  lemma BatchesStayInSync(d: Study, steps: seq<Step>)
    requires ValidStudy(d) && Possible(d, Created, steps)
    ensures InSync(d, After(d, Created, steps))
  {
    StaysInSync(d, Created, steps);
  }

  /** What a caller can rely on at any point of any run: `Tell` succeeds exactly if the object
      is live, every pending candidate has its one well-dimensioned evaluation and there are
      no others, and all values are finite. */
  lemma TellSucceedsIff(d: Study, steps: seq<Step>, evaluations: seq<Evaluation>, choice: Choice)
    requires ValidStudy(d) && Possible(d, Created, steps)
    ensures var s := After(d, Created, steps);
      Told(d.config, Matching, TellCore(d, s.native, choice), s.disposed, s.managed, evaluations).result.Success?
      <==> && !s.disposed && s.managed != [] && |evaluations| == |s.managed|
           && EvaluatedIds(evaluations) == PendingIds(s.managed)
           && (forall e :: e in evaluations ==> Fits(d.config.problem, e)) && FiniteThroughout(evaluations)
  {
    BatchesStayInSync(d, steps);
    var s := After(d, Created, steps);
    hide After, Possible, ById, Submitted, Decoded, Told, Binds, AllowedBatch;
    if !s.disposed && s.managed != [] {
      AnsweredIff(d.config.problem, s.managed, evaluations);
    }
    if Refusal(d.config.problem, s.disposed, s.managed, evaluations) == None {
      AcceptedBinds(d, s, evaluations);
      TellTogether(d, s, evaluations, choice);
    } else {
      RefusedTell(d.config, TellCore(d, s.native, choice), s.disposed, s.managed, evaluations);
    }
  }

  lemma RefusedTell(c: Config, core: seq<Evaluation> -> Option<NativeSnapshot>, disposed: bool, pending: seq<Candidate>,
                    evaluations: seq<Evaluation>)
    requires Refusal(c.problem, disposed, pending, evaluations).Some?
    ensures Told(c, Matching, core, disposed, pending, evaluations).result.Failure?
  {
  }
}
