/** The managed optimizer and the native functions it calls: arrays are laid out on one side
    and read back on the other, counts are checked against the caller's buffers, and a call
    takes effect as a whole or not at all. */
module StudyBoundary {
  import opened Wrappers
  import opened Arithmetic
  import opened Sorting
  import opened StudyBatch

  /** Table dimensions and buffer sizes, as accepted when the optimizer is created. */
  datatype Config = Config(problem: Problem, populationSize: nat, offspringSize: nat, archiveCapacity: nat)

  const MaximumSolutions: nat := 4096

  predicate Creatable(c: Config) {
    && c.problem.variableCount >= 1 && c.problem.objectiveCount >= 1
    && 4 <= c.populationSize <= MaximumSolutions
    && 1 <= c.offspringSize <= MaximumSolutions
    && 1 <= c.archiveCapacity <= MaximumSolutions
  }

  function Capacity(c: Config): nat {
    if c.populationSize < c.offspringSize then c.offspringSize else c.populationSize
  }

  /** Whether both sides agree on the layout of the metadata and of a ranked row. */
  datatype Abi = Abi(metadata: bool, ranked: bool)

  datatype Ranked = Ranked(candidateId: nat, rank: nat, feasible: bool, violation: Double, crowding: Double, dominated: nat)

  /** What the optimizer itself answers. */
  datatype NativeSnapshot = NativeSnapshot(generation: nat, evaluationCount: nat, solutions: seq<Ranked>,
                                           archive: seq<nat>, meanCrowding: Double, hash: nat)

  // ---- The native side of a tell ----

  /** Row `i` of the submitted arrays, read back. */
  function DecodedRow(problem: Problem, s: Submission, i: nat): Evaluation
    requires i < |s.ids|
  {
    Evaluation(s.ids[i], SkipTake(s.objectives, Cell(i, problem.objectiveCount, 0), problem.objectiveCount),
               SkipTake(s.constraints, Cell(i, problem.constraintCount, 0), problem.constraintCount))
  }

  function Decoded(problem: Problem, s: Submission): (evaluations: seq<Evaluation>)
    ensures |evaluations| == |s.ids|
    ensures forall i :: 0 <= i < |s.ids| ==> evaluations[i] == DecodedRow(problem, s, i)
  {
    seq(|s.ids|, i requires 0 <= i < |s.ids| => DecodedRow(problem, s, i))
  }

  datatype Metadata = Metadata(layoutOk: bool, generation: nat, evaluationCount: nat, populationCount: nat,
                               archiveCount: nat, meanCrowding: Double, hash: nat)

  datatype RankedCell = RankedCell(layoutOk: bool, value: Ranked)

  /** Status, metadata and the caller's two buffers after the call. */
  datatype NativeReply = NativeReply(succeeded: bool, metadata: Metadata, population: seq<RankedCell>, archive: seq<nat>)

  const NoRank := Ranked(0, 0, false, Zero, Zero, 0)

  /** A buffer of `capacity` cells whose front has been overwritten. */
  function Overwritten<T>(capacity: nat, blank: T, values: seq<T>): (buffer: seq<T>)
    requires |values| <= capacity
    ensures |buffer| == capacity && values <= buffer
  {
    values + seq(capacity - |values|, _ => blank)
  }

  function Rows(abi: Abi, solutions: seq<Ranked>): (rows: seq<RankedCell>)
    ensures |rows| == |solutions| && forall i :: 0 <= i < |rows| ==> rows[i] == RankedCell(abi.ranked, solutions[i])
  {
    seq(|solutions|, i requires 0 <= i < |solutions| => RankedCell(abi.ranked, solutions[i]))
  }

  const Failed := NativeReply(false, Metadata(false, 0, 0, 0, 0, Zero, 0), [], [])

  /** The exported function: decode, let the optimizer answer, refuse what exceeds the
      caller's buffers, copy out. */
  function NativeTell(c: Config, abi: Abi, core: seq<Evaluation> -> Option<NativeSnapshot>, s: Submission): NativeReply {
    match core(Decoded(c.problem, s))
    case None => Failed
    case Some(answer) =>
      if c.populationSize < |answer.solutions| || c.archiveCapacity < |answer.archive| then Failed
      else
        NativeReply(true,
                    Metadata(abi.metadata, answer.generation, answer.evaluationCount, |answer.solutions|,
                             |answer.archive|, answer.meanCrowding, answer.hash),
                    Overwritten(c.populationSize, RankedCell(false, NoRank), Rows(abi, answer.solutions)),
                    Overwritten(c.archiveCapacity, 0, answer.archive))
  }

  /** The native side reads back exactly the caller's evaluations, in batch order. */
  lemma NativeReceivesEvaluations(problem: Problem, pending: seq<Candidate>, evaluations: seq<Evaluation>)
    requires Refusal(problem, false, pending, evaluations) == None
    ensures Decoded(problem, Submitted(pending, evaluations)) == Ordered(pending, ById(evaluations))
    ensures forall e :: e in Decoded(problem, Submitted(pending, evaluations)) ==> e in evaluations && Fits(problem, e)
  {
    hide Cell, Concat, SkipTake;
    ByIdMembers(evaluations);
    hide ById, DistinctIds;
    var ordered := Ordered(pending, ById(evaluations));
    var s := Submitted(pending, evaluations);
    assert forall i :: 0 <= i < |pending| ==> Fits(problem, ordered[i]);
    ConcatRowMajor(Objectives(ordered), problem.objectiveCount);
    ConcatRowMajor(Residuals(ordered), problem.constraintCount);
    forall i | 0 <= i < |pending| ensures DecodedRow(problem, s, i) == ordered[i] {
      SliceOfRowMajor(s.objectives, [], Objectives(ordered), problem.objectiveCount, i);
      SliceOfRowMajor(s.constraints, [], Residuals(ordered), problem.constraintCount, i);
      assert s.objectives + [] == s.objectives && s.constraints + [] == s.constraints;
    }
    assert Decoded(problem, s) == ordered;
  }

  // ---- The managed side of a tell ----

  datatype Snapshot = Snapshot(generation: nat, evaluationCount: nat, solutions: seq<Ranked>, paretoIds: seq<nat>,
                               frontCount: nat, archiveIds: seq<nat>, meanCrowding: Double, hash: nat)

  function Taken<T>(s: seq<T>, count: nat): seq<T> {
    if count < |s| then s[..count] else s
  }

  function Values(cells: seq<RankedCell>): (values: seq<Ranked>)
    ensures |values| == |cells| && forall i :: 0 <= i < |values| ==> values[i] == cells[i].value
  {
    seq(|cells|, i requires 0 <= i < |cells| => cells[i].value)
  }

  /** The checks after the native call that come before the batch is closed. */
  function ReplyRefusal(reply: NativeReply): Option<TellError> {
    if !reply.succeeded then Some(NativeFailure)
    else if !reply.metadata.layoutOk then Some(LayoutMismatch)
    else if reply.metadata.populationCount > IntMax then Some(PopulationCountOverflow)
    else if exists i :: 0 <= i < |Taken(reply.population, reply.metadata.populationCount)|
                        && !Taken(reply.population, reply.metadata.populationCount)[i].layoutOk then Some(RankLayoutMismatch)
    else None
  }

  function IdOrder(): nat -> real {
    (id: nat) => id as real
  }

  /** Feasible rank-zero identifiers, in ascending order. */
  function ParetoIds(solutions: seq<Ranked>): seq<nat> {
    SortBy(FirstFront(solutions), IdOrder())
  }

  function FirstFront(solutions: seq<Ranked>): seq<nat> {
    if solutions == [] then []
    else
      var last := solutions[|solutions| - 1];
      FirstFront(solutions[..|solutions| - 1]) + (if last.feasible && last.rank == 0 then [last.candidateId] else [])
  }

  function FrontCount(solutions: seq<Ranked>): nat {
    if solutions == [] then 0
    else
      var last := solutions[|solutions| - 1].rank + 1;
      var front := FrontCount(solutions[..|solutions| - 1]);
      if front < last then last else front
  }

  function SnapshotOf(reply: NativeReply): Snapshot {
    var m := reply.metadata;
    var solutions := Values(Taken(reply.population, m.populationCount));
    Snapshot(m.generation, m.evaluationCount, solutions, ParetoIds(solutions), FrontCount(solutions),
             Taken(reply.archive, m.archiveCount), m.meanCrowding, m.hash)
  }

  datatype TellOutcome = TellOutcome(result: Result<Snapshot, TellError>, pending: seq<Candidate>)

  /** The whole effect of a `Tell`: its answer and the batch it leaves. The archive count is
      narrowed only after the batch has been closed. */
  function Told(c: Config, abi: Abi, core: seq<Evaluation> -> Option<NativeSnapshot>, disposed: bool,
                pending: seq<Candidate>, evaluations: seq<Evaluation>): TellOutcome
  {
    var refusal := Refusal(c.problem, disposed, pending, evaluations);
    if refusal.Some? then TellOutcome(Failure(refusal.value), pending)
    else
      var reply := NativeTell(c, abi, core, Submitted(pending, evaluations));
      if ReplyRefusal(reply).Some? then TellOutcome(Failure(ReplyRefusal(reply).value), pending)
      else if reply.metadata.archiveCount > IntMax then TellOutcome(Failure(ArchiveCountOverflow), [])
      else TellOutcome(Success(SnapshotOf(reply)), [])
  }

  /** A `Tell` that throws leaves the pending batch as it was, one that returns closes it;
      and neither count can overflow. */
  lemma FailedTellKeepsBatch(c: Config, abi: Abi, core: seq<Evaluation> -> Option<NativeSnapshot>, disposed: bool,
                             pending: seq<Candidate>, evaluations: seq<Evaluation>)
    requires Creatable(c)
    ensures var t := Told(c, abi, core, disposed, pending, evaluations);
      && (t.result.Failure? ==> t.pending == pending && t.result.error != ArchiveCountOverflow
                                && t.result.error != PopulationCountOverflow)
      && (t.result.Success? ==> t.pending == [] && pending != [])
  {
    CountsWithinBuffers(c, abi, core, if Refusal(c.problem, disposed, pending, evaluations) == None
                                      then Submitted(pending, evaluations) else Submission([], [], []));
  }

  lemma CountsWithinBuffers(c: Config, abi: Abi, core: seq<Evaluation> -> Option<NativeSnapshot>, s: Submission)
    ensures var r := NativeTell(c, abi, core, s);
      && r.metadata.populationCount <= |r.population| <= c.populationSize
      && r.metadata.archiveCount <= |r.archive| <= c.archiveCapacity
  {
  }

  /** The number of fronts: one more than the largest rank, none for no solutions. */
  ghost predicate IsFrontCount(solutions: seq<Ranked>, count: nat) {
    && (forall i :: 0 <= i < |solutions| ==> solutions[i].rank < count)
    && (count > 0 ==> exists i :: 0 <= i < |solutions| && solutions[i].rank == count - 1)
  }

  lemma {:induction false} FrontCountExact(solutions: seq<Ranked>)
    ensures IsFrontCount(solutions, FrontCount(solutions))
  {
    if solutions != [] {
      var front, last := solutions[..|solutions| - 1], |solutions| - 1;
      FrontCountExact(front);
      if FrontCount(front) > solutions[last].rank {
        var i :| 0 <= i < |front| && front[i].rank == FrontCount(front) - 1;
        assert solutions[i] == front[i];
      } else {
        assert solutions[last].rank == FrontCount(solutions) - 1;
      }
    }
  }

  /** What a successful `Tell` returns is exactly what the optimizer answered, with its fronts
      counted. */
  lemma SnapshotIsAnswer(c: Config, abi: Abi, core: seq<Evaluation> -> Option<NativeSnapshot>,
                         pending: seq<Candidate>, evaluations: seq<Evaluation>)
    requires Creatable(c)
    ensures var t := Told(c, abi, core, false, pending, evaluations);
      t.result.Success? ==>
        var answer := core(Ordered(pending, ById(evaluations)));
        && answer.Some?
        && t.result.value.solutions == answer.value.solutions
        && t.result.value.archiveIds == answer.value.archive
        && t.result.value.generation == answer.value.generation
        && t.result.value.evaluationCount == answer.value.evaluationCount
        && t.result.value.hash == answer.value.hash
        && t.result.value.meanCrowding == answer.value.meanCrowding
        && IsFrontCount(answer.value.solutions, t.result.value.frontCount)
  {
    hide IsFrontCount, FrontCount;
    if Refusal(c.problem, false, pending, evaluations) == None {
      NativeReceivesEvaluations(c.problem, pending, evaluations);
      var s := Submitted(pending, evaluations);
      var answer := core(Decoded(c.problem, s));
      if answer.Some? && |answer.value.solutions| <= c.populationSize && |answer.value.archive| <= c.archiveCapacity {
        CopiedOut(c, abi, answer.value.solutions, answer.value.archive);
        FrontCountExact(answer.value.solutions);
      }
    }
  }

  /** When an accepted batch is answered, and why not otherwise: the optimizer refuses it or its answer
      exceeds the buffers, or the two sides disagree on a layout. */
  lemma AnswerArrivesIff(c: Config, abi: Abi, core: seq<Evaluation> -> Option<NativeSnapshot>,
                         pending: seq<Candidate>, evaluations: seq<Evaluation>)
    requires Creatable(c) && Refusal(c.problem, false, pending, evaluations) == None
    ensures var answer := core(Ordered(pending, ById(evaluations)));
      var fits := answer.Some? && |answer.value.solutions| <= c.populationSize && |answer.value.archive| <= c.archiveCapacity;
      var r := Told(c, abi, core, false, pending, evaluations).result;
      && (r == Failure(NativeFailure) <==> !fits)
      && (r == Failure(LayoutMismatch) <==> fits && !abi.metadata)
      && (r == Failure(RankLayoutMismatch) <==> fits && abi.metadata && !abi.ranked && answer.value.solutions != [])
      && (r.Success? <==> fits && abi.metadata && (abi.ranked || answer.value.solutions == []))
  {
    hide SnapshotOf, Submitted, Decoded;
    NativeReceivesEvaluations(c.problem, pending, evaluations);
    var answer := core(Ordered(pending, ById(evaluations)));
    if answer.Some? && |answer.value.solutions| <= c.populationSize && |answer.value.archive| <= c.archiveCapacity {
      RowsTaken(c, abi, answer.value.solutions);
      if answer.value.solutions != [] {
        assert !Rows(abi, answer.value.solutions)[0].layoutOk <==> !abi.ranked;
      }
    }
  }

  lemma RowsTaken(c: Config, abi: Abi, solutions: seq<Ranked>)
    requires |solutions| <= c.populationSize
    ensures Taken(Overwritten(c.populationSize, RankedCell(false, NoRank), Rows(abi, solutions)), |solutions|) == Rows(abi, solutions)
  {
  }

  lemma CopiedOut(c: Config, abi: Abi, solutions: seq<Ranked>, archive: seq<nat>)
    requires |solutions| <= c.populationSize && |archive| <= c.archiveCapacity
    ensures Values(Taken(Overwritten(c.populationSize, RankedCell(false, NoRank), Rows(abi, solutions)), |solutions|)) == solutions
    ensures Taken(Overwritten(c.archiveCapacity, 0, archive), |archive|) == archive
  {
    var buffer := Overwritten(c.populationSize, RankedCell(false, NoRank), Rows(abi, solutions));
    assert Taken(buffer, |solutions|) == Rows(abi, solutions);
    assert Values(Rows(abi, solutions)) == solutions;
    assert Taken(Overwritten(c.archiveCapacity, 0, archive), |archive|) == archive;
  }

  predicate OnFirstFront(solutions: seq<Ranked>, id: nat) {
    exists i :: 0 <= i < |solutions| && solutions[i].feasible && solutions[i].rank == 0 && solutions[i].candidateId == id
  }

  /** The listed front: exactly the feasible rank-zero solutions, in ascending order. */
  lemma ParetoIdsExact(solutions: seq<Ranked>)
    ensures forall id :: id in ParetoIds(solutions) <==> OnFirstFront(solutions, id)
    ensures forall i, j :: 0 <= i < j < |ParetoIds(solutions)| ==> ParetoIds(solutions)[i] <= ParetoIds(solutions)[j]
  {
    SortBySorts(FirstFront(solutions), IdOrder());
    forall id ensures id in ParetoIds(solutions) <==> OnFirstFront(solutions, id) {
      SortByMembers(FirstFront(solutions), IdOrder(), id);
      FirstFrontExact(solutions, id);
    }
    var ids := ParetoIds(solutions);
    forall i, j | 0 <= i < j < |ids| ensures ids[i] <= ids[j] {
      assert IdOrder()(ids[i]) <= IdOrder()(ids[j]);
    }
  }

  lemma {:induction false} FirstFrontExact(solutions: seq<Ranked>, id: nat)
    ensures id in FirstFront(solutions) <==> OnFirstFront(solutions, id)
  {
    if solutions != [] {
      var front := solutions[..|solutions| - 1];
      FirstFrontExact(front, id);
      if i :| 0 <= i < |solutions| && solutions[i].feasible && solutions[i].rank == 0 && solutions[i].candidateId == id {
        if i < |front| { assert front[i] == solutions[i]; }
      }
    }
  }

  /** Whatever order the evaluations come in, the whole effect is the same. */
  lemma ToldOrderIrrelevant(c: Config, abi: Abi, core: seq<Evaluation> -> Option<NativeSnapshot>, disposed: bool,
                            pending: seq<Candidate>, a: seq<Evaluation>, b: seq<Evaluation>)
    requires multiset(a) == multiset(b)
    ensures Told(c, abi, core, disposed, pending, a) == Told(c, abi, core, disposed, pending, b)
  {
    TellOrderIrrelevant(c.problem, disposed, pending, a, b);
  }

  // ---- Ask ----

  function IdBuffer(capacity: nat, candidates: seq<Candidate>): seq<nat>
    requires |candidates| <= capacity
  {
    Overwritten(capacity, 0, Ids(candidates))
  }

  function Generations(candidates: seq<Candidate>): (generations: seq<nat>)
    ensures |generations| == |candidates| && forall i :: 0 <= i < |generations| ==> generations[i] == candidates[i].generation
  {
    seq(|candidates|, i requires 0 <= i < |candidates| => candidates[i].generation)
  }

  predicate WellShaped(problem: Problem, candidates: seq<Candidate>) {
    forall i :: 0 <= i < |candidates| ==> |candidates[i].parameters| == problem.variableCount
  }

  const AskFailed := NativeBatch(false, false, 0, [], [], [])

  /** The exported function: refuse what exceeds the caller's buffers or is ill-shaped, write
      identifiers, generations and row-major parameters. */
  function NativeAsk(c: Config, abi: Abi, candidates: Option<seq<Candidate>>): NativeBatch {
    if candidates == None || Capacity(c) < |candidates.value| || !WellShaped(c.problem, candidates.value) then AskFailed
    else
      var batch := candidates.value;
      NativeBatch(true, abi.metadata, |batch|, IdBuffer(Capacity(c), batch),
                  Overwritten(Capacity(c), 0, Generations(batch)),
                  Concat(Parameters(batch)) + seq((Capacity(c) - |batch|) * c.problem.variableCount, _ => Zero))
  }

  /** A batch that fits is received exactly as the optimizer produced it. */
  lemma AskDelivers(c: Config, batch: seq<Candidate>)
    requires |batch| <= Capacity(c) && WellShaped(c.problem, batch)
    ensures AskOutcome(c.problem, false, NativeAsk(c, Abi(true, true), Some(batch))) == Success(batch)
  {
    var native := NativeAsk(c, Abi(true, true), Some(batch));
    AskInvertsLayout(c.problem, native, Parameters(batch), seq((Capacity(c) - |batch|) * c.problem.variableCount, _ => Zero));
    hide Concat;
    var got := AskOutcome(c.problem, false, native).value;
    forall i | 0 <= i < |batch| ensures got[i] == batch[i] {
      assert native.ids[i] == Ids(batch)[i] && native.generations[i] == Generations(batch)[i];
      assert Parameters(got)[i] == Parameters(batch)[i];
    }
    assert got == batch;
  }

  /** A batch arrives exactly if the object is live, there is one, it fits the buffers, every row
      has the problem's width, and both sides agree on the layout; otherwise the caller learns
      why. */
  lemma AskDeliversIff(c: Config, abi: Abi, disposed: bool, produced: Option<seq<Candidate>>)
    ensures var r := AskOutcome(c.problem, disposed, NativeAsk(c, abi, produced));
      var fits := produced.Some? && |produced.value| <= Capacity(c) && WellShaped(c.problem, produced.value);
      && (r.Success? <==> !disposed && fits && abi.metadata)
      && (r.Success? ==> r.value == produced.value)
      && (r == Failure(AskDisposed) <==> disposed)
      && (r == Failure(AskNativeFailure) <==> !disposed && !fits)
      && (r == Failure(AskLayoutMismatch) <==> !disposed && fits && !abi.metadata)
  {
    hide Concat;
    if produced.Some? && |produced.value| <= Capacity(c) && WellShaped(c.problem, produced.value) && abi.metadata && !disposed {
      AskDelivers(c, produced.value);
      assert NativeAsk(c, abi, produced) == NativeAsk(c, Abi(true, true), produced);
    }
  }

  // ---- The managed object ----

  class Optimizer {
    const config: Config
    var pending: seq<Candidate>
    var disposed: bool

    constructor (config: Config)
      requires Creatable(config)
      ensures this.config == config && pending == [] && !disposed
    {
      this.config := config;
      pending, disposed := [], false;
    }

    method Ask(produced: Option<seq<Candidate>>, abi: Abi) returns (r: Result<Batch, AskError>)
      modifies `pending
      ensures var outcome := AskOutcome(config.problem, disposed, NativeAsk(config, abi, produced));
        if outcome.Failure? then r == Failure(outcome.error) && pending == old(pending)
        else
          && pending == outcome.value
          && r == Success(Batch(if pending == [] then 0 else pending[0].generation, pending))
    {
      if disposed {
        return Failure(AskDisposed);
      }
      var native := NativeAsk(config, abi, produced);
      if !native.succeeded {
        return Failure(AskNativeFailure);
      }
      if !native.layoutMatches {
        return Failure(AskLayoutMismatch);
      }
      var count := native.pendingCount;
      if count > |native.ids| || count > |native.generations| {
        return Failure(CountOutOfRange);
      }
      pending := Sliced(config.problem, native, count);
      return Success(Batch(if pending == [] then 0 else pending[0].generation, pending));
    }

    method Tell(evaluations: seq<Evaluation>, core: seq<Evaluation> -> Option<NativeSnapshot>, abi: Abi)
      returns (r: Result<Snapshot, TellError>)
      requires Creatable(config)
      modifies `pending
      ensures TellOutcome(r, pending) == Told(config, abi, core, disposed, old(pending), evaluations)
      ensures r.Failure? ==> pending == old(pending)
      ensures r.Success? ==> pending == []
    {
      FailedTellKeepsBatch(config, abi, core, disposed, pending, evaluations);
      if disposed {
        return Failure(TellDisposed);
      }
      if pending == [] || |evaluations| != |pending| {
        return Failure(CountMismatch);
      }
      if !DistinctIds(evaluations) {
        return Failure(DuplicateId);
      }
      var byId := ById(evaluations);
      if exists i :: 0 <= i < |pending| && pending[i].candidateId !in byId {
        return Failure(UnknownCandidate);
      }
      var ordered := Ordered(pending, byId);
      if exists i :: 0 <= i < |ordered| && !Fits(config.problem, ordered[i]) {
        return Failure(DimensionMismatch);
      }
      var submission := Submission(Ids(pending), Concat(Objectives(ordered)), Concat(Residuals(ordered)));
      var reply := NativeTell(config, abi, core, submission);
      var refused := ReplyRefusal(reply);
      if refused.Some? {
        return Failure(refused.value);
      }
      pending := [];
      if reply.metadata.archiveCount > IntMax {
        return Failure(ArchiveCountOverflow);
      }
      return Success(SnapshotOf(reply));
    }

    method Dispose()
      modifies `disposed
      ensures disposed
    {
      disposed := true;
    }
  }
}
