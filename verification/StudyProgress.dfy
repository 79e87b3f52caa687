/** What the optimizer's counters count over whole runs, and what each batch it hands out looks
    like. */
module StudyProgress {
  import opened Wrappers
  import opened StudyBatch
  import opened StudyBoundary
  import opened StudyVariables
  import opened StudyProtocol

  /** Batches answered, evaluations accepted and candidates handed out, as the caller saw them. */
  datatype Progress = Progress(batches: nat, evaluations: nat, candidates: nat)

  function StepProgress(d: Study, s: System, step: Step): Progress
    requires Enabled(d, s, step)
  {
    match step
    case Ask(proposals) =>
      var r := AskOutcome(d.config.problem, s.disposed, NativeAsk(d.config, Matching, AskCore(d, s.native, proposals)));
      Progress(0, 0, if r.Success? then |r.value| else 0)
    case Tell(evaluations, choice) =>
      var r := Told(d.config, Matching, TellCore(d, s.native, choice), s.disposed, s.managed, evaluations).result;
      if r.Success? then Progress(1, |evaluations|, 0) else Progress(0, 0, 0)
    case Dispose => Progress(0, 0, 0)
  }

  function RunProgress(d: Study, s: System, steps: seq<Step>): Progress
    requires Possible(d, s, steps)
    decreases |steps|
  {
    if steps == [] then Progress(0, 0, 0)
    else
      var first, rest := StepProgress(d, s, steps[0]), RunProgress(d, Next(d, s, steps[0]), steps[1..]);
      Progress(first.batches + rest.batches, first.evaluations + rest.evaluations, first.candidates + rest.candidates)
  }

  predicate Advanced(n: Native, m: Native, gained: Progress) {
    && m.generation == n.generation + gained.batches
    && m.evaluationCount == n.evaluationCount + gained.evaluations
    && m.nextId == n.nextId + gained.candidates
  }

  lemma AskAdvances(d: Study, s: System, proposals: seq<seq<Component>>)
    requires ValidStudy(d) && InSync(d, s) && Enabled(d, s, Ask(proposals))
    ensures Advanced(s.native, Next(d, s, Ask(proposals)).native, StepProgress(d, s, Ask(proposals)))
  {
    hide Concat, AskOutcome, NativeAsk, AllowedBatch, ValidVariables;
    var batch := Generated(d, s.native, proposals);
    RefusedAsk(d.config, s.disposed, batch);
    if s.native.pending == [] && !s.disposed {
      GeneratedAllowed(d, s.native, proposals);
      AllowedIsShaped(d, batch);
      AskDelivers(d.config, batch);
    }
  }

  lemma ReceivedCount(problem: Problem, pending: seq<Candidate>, evaluations: seq<Evaluation>)
    requires Refusal(problem, false, pending, evaluations) == None
    ensures |Decoded(problem, Submitted(pending, evaluations))| == |evaluations|
  {
  }

  lemma TellAdvances(d: Study, s: System, evaluations: seq<Evaluation>, choice: Choice)
    requires ValidStudy(d) && InSync(d, s) && Enabled(d, s, Tell(evaluations, choice))
    ensures Advanced(s.native, Next(d, s, Tell(evaluations, choice)).native, StepProgress(d, s, Tell(evaluations, choice)))
  {
    hide Told, Decoded, Submitted, Survivors, TellCore, ById, AllowedBatch, AllValid, DistinctIds, DistinctCandidates, Refusal;
    if Refusal(d.config.problem, s.disposed, s.managed, evaluations) == None {
      TellTogether(d, s, evaluations, choice);
      RefusalMeans(d.config.problem, s.disposed, s.managed, evaluations);
      hide Binds;
      ReceivedCount(d.config.problem, s.managed, evaluations);
    } else {
      RefusedTell(d.config, TellCore(d, s.native, choice), s.disposed, s.managed, evaluations);
    }
  }

  lemma {:induction false} RunAdvances(d: Study, s: System, steps: seq<Step>)
    requires ValidStudy(d) && InSync(d, s) && Possible(d, s, steps)
    ensures Advanced(s.native, After(d, s, steps).native, RunProgress(d, s, steps))
    decreases |steps|
  {
    if steps != [] {
      match steps[0] {
        case Ask(proposals) => AskAdvances(d, s, proposals); AskInSync(d, s, proposals);
        case Tell(evaluations, choice) => TellAdvances(d, s, evaluations, choice); TellInSync(d, s, evaluations, choice);
        case Dispose =>
      }
      hide InSync, Next, Enabled, ValidStudy, StepProgress;
      RunAdvances(d, Next(d, s, steps[0]), steps[1..]);
    }
  }

  /** Over every run the generation is the number of batches answered, the evaluation count the
      number of evaluations accepted, and identifiers are never handed out twice: the next one is
      one more than the candidates handed out. A successful `Tell` returns both counts with its own
      batch included. */
  lemma CountersCount(d: Study, steps: seq<Step>, evaluations: seq<Evaluation>, choice: Choice)
    requires ValidStudy(d) && Possible(d, Created, steps)
    ensures var s, seen := After(d, Created, steps), RunProgress(d, Created, steps);
      && s.native.generation == seen.batches
      && s.native.evaluationCount == seen.evaluations
      && s.native.nextId == 1 + seen.candidates
      && var r := Told(d.config, Matching, TellCore(d, s.native, choice), s.disposed, s.managed, evaluations).result;
         r.Success? ==> r.value.generation == seen.batches + 1
                        && r.value.evaluationCount == seen.evaluations + |evaluations|
  {
    RunAdvances(d, Created, steps);
    var s := After(d, Created, steps);
    hide After, RunProgress, Possible, InSync;
    AnswerCounts(d, s, evaluations, choice);
  }

  lemma AnswerCounts(d: Study, s: System, evaluations: seq<Evaluation>, choice: Choice)
    requires ValidStudy(d)
    ensures var r := Told(d.config, Matching, TellCore(d, s.native, choice), s.disposed, s.managed, evaluations).result;
      r.Success? ==> r.value.generation == s.native.generation + 1
                     && r.value.evaluationCount == s.native.evaluationCount + |evaluations|
  {
    hide Binds, AllowedBatch, ById, IsFrontCount;
    RefusalMeans(d.config.problem, s.disposed, s.managed, evaluations);
    if !s.disposed {
      SnapshotIsAnswer(d.config, Matching, TellCore(d, s.native, choice), s.managed, evaluations);
      hide SnapshotOf;
    }
  }

  /** A population is kept exactly from the first answered batch on. */
  predicate Populated(n: Native) {
    n.population == [] <==> n.generation == 0
  }

  lemma TellPopulates(d: Study, s: System, evaluations: seq<Evaluation>, choice: Choice)
    requires Populated(s.native) && Enabled(d, s, Tell(evaluations, choice))
    ensures Populated(Next(d, s, Tell(evaluations, choice)).native)
  {
    hide Told, Decoded, Submitted, TellCore, ById, AllowedBatch, AllValid, DistinctIds, DistinctCandidates, Refusal;
  }

  lemma {:induction false} StaysPopulated(d: Study, s: System, steps: seq<Step>)
    requires Possible(d, s, steps) && Populated(s.native)
    ensures Populated(After(d, s, steps).native)
    decreases |steps|
  {
    if steps != [] {
      match steps[0] {
        case Ask(proposals) =>
        case Tell(evaluations, choice) => TellPopulates(d, s, evaluations, choice);
        case Dispose =>
      }
      hide Next, Enabled, Populated;
      StaysPopulated(d, Next(d, s, steps[0]), steps[1..]);
    }
  }

  /** At any point of any run an `Ask` succeeds exactly if the object is live and no batch is open. The
      first batches have the population's size until one is answered, later ones the
      offspring's; identifiers continue without a gap, and all candidates carry the number of
      batches answered so far. */
  lemma AskedBatch(d: Study, steps: seq<Step>, proposals: seq<seq<Component>>)
    requires ValidStudy(d) && Possible(d, Created, steps) && Proposes(d, After(d, Created, steps).native, proposals)
    ensures var s, seen := After(d, Created, steps), RunProgress(d, Created, steps);
      var r := AskOutcome(d.config.problem, s.disposed, NativeAsk(d.config, Matching, AskCore(d, s.native, proposals)));
      && (r.Success? <==> !s.disposed && s.managed == [])
      && (r.Success? ==>
            && |r.value| == (if seen.batches == 0 then d.config.populationSize else d.config.offspringSize)
            && forall i :: 0 <= i < |r.value| ==> r.value[i].candidateId == 1 + seen.candidates + i
                                                  && r.value[i].generation == seen.batches)
  {
    RunAdvances(d, Created, steps);
    BatchesStayInSync(d, steps);
    StaysPopulated(d, Created, steps);
    var s := After(d, Created, steps);
    hide After, RunProgress, Possible, AskOutcome, NativeAsk, AllowedBatch, ValidVariables;
    var batch := Generated(d, s.native, proposals);
    RefusedAsk(d.config, s.disposed, batch);
    if s.native.pending == [] && !s.disposed {
      GeneratedAllowed(d, s.native, proposals);
      AllowedIsShaped(d, batch);
      AskDelivers(d.config, batch);
    }
  }
}
