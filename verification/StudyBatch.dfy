/** Ask/tell batches: evaluations are matched to candidates by identifier, laid out row by
    row for the native optimizer, and accepted or refused as a whole. */
module StudyBatch {
  import opened Wrappers
  import opened Arithmetic

  /** A finite double is an exact real; any other is known by its bits. */
  datatype Double = Finite(value: real) | NonFinite(bits: nat)

  const Zero := Finite(0.0)

  const IntMax: nat := 2_147_483_647

  datatype Problem = Problem(variableCount: nat, objectiveCount: nat, constraintCount: nat)

  datatype Candidate = Candidate(candidateId: nat, generation: nat, parameters: seq<Double>)

  datatype Evaluation = Evaluation(candidateId: nat, objectives: seq<Double>, residuals: seq<Double>)

  /** What is handed to the native side. */
  datatype Submission = Submission(ids: seq<nat>, objectives: seq<Double>, constraints: seq<Double>)

  // ---- Row-major tables ----

  function Concat(rows: seq<seq<Double>>): seq<Double> {
    if rows == [] then [] else Concat(rows[..|rows| - 1]) + rows[|rows| - 1]
  }

  predicate Wide(rows: seq<seq<Double>>, width: nat) {
    forall i :: 0 <= i < |rows| ==> |rows[i]| == width
  }

  /** The index of component `j` of row `i`. */
  function Cell(i: nat, width: nat, j: nat): nat {
    i * width + j
  }

  /** Component `j` of row `i` sits at its own place, and nothing else is in the table. */
  predicate RowMajor(flat: seq<Double>, rows: seq<seq<Double>>, width: nat) {
    && |flat| == Cell(|rows|, width, 0)
    && forall i, j :: 0 <= i < |rows| && 0 <= j < width && j < |rows[i]|
                      ==> Cell(i, width, j) < |flat| && flat[Cell(i, width, j)] == rows[i][j]
  }

  lemma NextRow(n: nat, width: nat)
    ensures Cell(n + 1, width, 0) == Cell(n, width, 0) + width
    ensures forall j :: 0 <= j ==> Cell(n, width, j) == Cell(n, width, 0) + j
  {
  }

  lemma CellBelow(i: nat, n: nat, width: nat, j: nat)
    requires i < n && j < width
    ensures Cell(i, width, j) < Cell(n, width, 0)
  {
    MulMonotone(i, n, width);
  }

  lemma {:induction false} ConcatRowMajor(rows: seq<seq<Double>>, width: nat)
    requires Wide(rows, width)
    ensures RowMajor(Concat(rows), rows, width)
  {
    hide Cell;
    if rows == [] {
      NoRows(width);
    } else {
      var n := |rows| - 1;
      var front, flat := rows[..n], Concat(rows);
      ConcatRowMajor(front, width);
      NextRow(n, width);
      forall i, j | 0 <= i < |rows| && 0 <= j < width && j < |rows[i]|
        ensures Cell(i, width, j) < |flat| && flat[Cell(i, width, j)] == rows[i][j]
      {
        if i < n {
          CellBelow(i, n, width, j);
          assert front[i] == rows[i];
        }
      }
    }
  }

  lemma NoRows(width: nat)
    ensures Cell(0, width, 0) == 0
  {
  }

  /** `Skip(start).Take(count)`. */
  function SkipTake(s: seq<Double>, start: nat, count: nat): seq<Double> {
    if start >= |s| then [] else if start + count >= |s| then s[start..] else s[start..start + count]
  }

  /** Reading a row out of a row-major table, whatever follows it. */
  lemma SliceOfRowMajor(flat: seq<Double>, rest: seq<Double>, rows: seq<seq<Double>>, width: nat, i: nat)
    requires RowMajor(flat, rows, width) && Wide(rows, width) && i < |rows|
    ensures SkipTake(flat + rest, Cell(i, width, 0), width) == rows[i]
  {
    NextRow(i, width);
    if width > 0 {
      CellBelow(i, |rows|, width, width - 1);
      hide Cell;
      var slice := SkipTake(flat + rest, Cell(i, width, 0), width);
      assert |slice| == width;
      forall j | 0 <= j < width ensures slice[j] == rows[i][j] {
        assert slice[j] == flat[Cell(i, width, j)];
      }
      assert slice == rows[i];
    } else {
      assert rows[i] == [];
    }
  }

  // ---- Ask ----

  /** The buffers after a native call: sized by the caller, filled by the callee. */
  datatype NativeBatch = NativeBatch(succeeded: bool, layoutMatches: bool, pendingCount: nat,
                                     ids: seq<nat>, generations: seq<nat>, parameters: seq<Double>)

  datatype AskError = AskDisposed | AskNativeFailure | AskLayoutMismatch | CountOutOfRange

  datatype Batch = Batch(generation: nat, candidates: seq<Candidate>)

  function CandidateAt(problem: Problem, native: NativeBatch, index: nat): Candidate
    requires index < |native.ids| && index < |native.generations|
  {
    Candidate(native.ids[index], native.generations[index],
              SkipTake(native.parameters, Cell(index, problem.variableCount, 0), problem.variableCount))
  }

  function Sliced(problem: Problem, native: NativeBatch, count: nat): (candidates: seq<Candidate>)
    requires count <= |native.ids| && count <= |native.generations|
    ensures |candidates| == count
    ensures forall i :: 0 <= i < count ==> candidates[i] == CandidateAt(problem, native, i)
  {
    seq(count, i requires 0 <= i < count => CandidateAt(problem, native, i))
  }

  function AskOutcome(problem: Problem, disposed: bool, native: NativeBatch): Result<seq<Candidate>, AskError> {
    if disposed then Failure(AskDisposed)
    else if !native.succeeded then Failure(AskNativeFailure)
    else if !native.layoutMatches then Failure(AskLayoutMismatch)
    else if native.pendingCount > |native.ids| || native.pendingCount > |native.generations| then Failure(CountOutOfRange)
    else Success(Sliced(problem, native, native.pendingCount))
  }

  function Parameters(candidates: seq<Candidate>): (rows: seq<seq<Double>>)
    ensures |rows| == |candidates| && forall i :: 0 <= i < |rows| ==> rows[i] == candidates[i].parameters
  {
    seq(|candidates|, i requires 0 <= i < |candidates| => candidates[i].parameters)
  }

  /** `Ask` inverts the row-major layout: candidate `i` gets exactly row `i` of the table the
      native side wrote. */
  lemma AskInvertsLayout(problem: Problem, native: NativeBatch, rows: seq<seq<Double>>, spare: seq<Double>)
    requires Wide(rows, problem.variableCount) && native.parameters == Concat(rows) + spare
    requires native.succeeded && native.layoutMatches
    requires native.pendingCount == |rows| <= |native.ids| && |rows| <= |native.generations|
    ensures var r := AskOutcome(problem, false, native);
      && r.Success? && Parameters(r.value) == rows
      && forall i :: 0 <= i < |rows| ==> r.value[i].candidateId == native.ids[i] && r.value[i].generation == native.generations[i]
  {
    ConcatRowMajor(rows, problem.variableCount);
    var candidates := Sliced(problem, native, native.pendingCount);
    forall i | 0 <= i < |rows| ensures candidates[i].parameters == rows[i] {
      SliceOfRowMajor(Concat(rows), spare, rows, problem.variableCount, i);
    }
    assert Parameters(candidates) == rows;
  }

  // ---- Matching evaluations to candidates ----

  predicate DistinctIds(evaluations: seq<Evaluation>) {
    forall i, j :: 0 <= i < j < |evaluations| ==> evaluations[i].candidateId != evaluations[j].candidateId
  }

  function EvaluatedIds(evaluations: seq<Evaluation>): set<nat> {
    set e | e in evaluations :: e.candidateId
  }

  /** The dictionary over the evaluations, which are distinct when it is built. */
  function ById(evaluations: seq<Evaluation>): map<nat, Evaluation> {
    if evaluations == [] then map[]
    else
      var last := evaluations[|evaluations| - 1];
      ById(evaluations[..|evaluations| - 1])[last.candidateId := last]
  }

  lemma {:induction false} ByIdMembers(evaluations: seq<Evaluation>)
    requires DistinctIds(evaluations)
    ensures ById(evaluations).Keys == EvaluatedIds(evaluations)
    ensures forall e :: e in evaluations ==> e.candidateId in ById(evaluations) && ById(evaluations)[e.candidateId] == e
    ensures forall id :: id in ById(evaluations) ==> ById(evaluations)[id] in evaluations && ById(evaluations)[id].candidateId == id
  {
    if evaluations != [] {
      var front, last := evaluations[..|evaluations| - 1], evaluations[|evaluations| - 1];
      assert evaluations == front + [last];
      ByIdMembers(front);
      assert EvaluatedIds(evaluations) == EvaluatedIds(front) + {last.candidateId};
    }
  }

  /** Distinctness does not depend on the order: it is a count of identifiers. */
  lemma {:induction false} DistinctByCount(evaluations: seq<Evaluation>)
    ensures |EvaluatedIds(evaluations)| <= |evaluations|
    ensures DistinctIds(evaluations) <==> |EvaluatedIds(evaluations)| == |evaluations|
  {
    if evaluations != [] {
      var front, last := evaluations[..|evaluations| - 1], evaluations[|evaluations| - 1];
      assert evaluations == front + [last];
      DistinctByCount(front);
      assert EvaluatedIds(evaluations) == EvaluatedIds(front) + {last.candidateId};
      if last.candidateId in EvaluatedIds(front) {
        var e :| e in front && e.candidateId == last.candidateId;
        var i :| 0 <= i < |front| && front[i] == e;
        assert evaluations[i].candidateId == evaluations[|evaluations| - 1].candidateId;
      } else {
        FreshLast(front, last);
      }
    }
  }

  lemma FreshLast(front: seq<Evaluation>, last: Evaluation)
    requires last.candidateId !in EvaluatedIds(front)
    ensures DistinctIds(front + [last]) <==> DistinctIds(front)
  {
    var all := front + [last];
    if DistinctIds(front) {
      forall i, j | 0 <= i < j < |all| ensures all[i].candidateId != all[j].candidateId {
        assert all[i] in front;
      }
    }
    if DistinctIds(all) {
      forall i, j | 0 <= i < j < |front| ensures front[i].candidateId != front[j].candidateId {
        assert all[i] == front[i] && all[j] == front[j];
      }
    }
  }

  datatype TellError =
    | TellDisposed
    | CountMismatch
    | DuplicateId
    | UnknownCandidate
    | DimensionMismatch
    | NativeFailure
    | LayoutMismatch
    | PopulationCountOverflow
    | RankLayoutMismatch
    | ArchiveCountOverflow

  predicate Fits(problem: Problem, e: Evaluation) {
    |e.objectives| == problem.objectiveCount && |e.residuals| == problem.constraintCount
  }

  /** The checks before the native call, in order. */
  function Refusal(problem: Problem, disposed: bool, pending: seq<Candidate>, evaluations: seq<Evaluation>): Option<TellError> {
    if disposed then Some(TellDisposed)
    else if pending == [] || |evaluations| != |pending| then Some(CountMismatch)
    else if !DistinctIds(evaluations) then Some(DuplicateId)
    else if exists i :: 0 <= i < |pending| && pending[i].candidateId !in ById(evaluations) then Some(UnknownCandidate)
    else if exists i :: 0 <= i < |pending| && !Fits(problem, ById(evaluations)[pending[i].candidateId]) then Some(DimensionMismatch)
    else None
  }

  function Ordered(pending: seq<Candidate>, byId: map<nat, Evaluation>): (ordered: seq<Evaluation>)
    requires forall i :: 0 <= i < |pending| ==> pending[i].candidateId in byId
    ensures |ordered| == |pending|
    ensures forall i :: 0 <= i < |pending| ==> ordered[i] == byId[pending[i].candidateId]
  {
    seq(|pending|, i requires 0 <= i < |pending| => byId[pending[i].candidateId])
  }

  function Objectives(evaluations: seq<Evaluation>): (rows: seq<seq<Double>>)
    ensures |rows| == |evaluations| && forall i :: 0 <= i < |rows| ==> rows[i] == evaluations[i].objectives
  {
    seq(|evaluations|, i requires 0 <= i < |evaluations| => evaluations[i].objectives)
  }

  function Residuals(evaluations: seq<Evaluation>): (rows: seq<seq<Double>>)
    ensures |rows| == |evaluations| && forall i :: 0 <= i < |rows| ==> rows[i] == evaluations[i].residuals
  {
    seq(|evaluations|, i requires 0 <= i < |evaluations| => evaluations[i].residuals)
  }

  function Ids(candidates: seq<Candidate>): (ids: seq<nat>)
    ensures |ids| == |candidates| && forall i :: 0 <= i < |ids| ==> ids[i] == candidates[i].candidateId
  {
    seq(|candidates|, i requires 0 <= i < |candidates| => candidates[i].candidateId)
  }

  /** The arrays the native call receives. */
  function Submitted(pending: seq<Candidate>, evaluations: seq<Evaluation>): Submission
    requires forall i :: 0 <= i < |pending| ==> pending[i].candidateId in ById(evaluations)
  {
    var ordered := Ordered(pending, ById(evaluations));
    Submission(Ids(pending), Concat(Objectives(ordered)), Concat(Residuals(ordered)))
  }

  /** Row `i` of every table belongs to candidate `i`'s own evaluation. */
  ghost predicate Aligned(problem: Problem, pending: seq<Candidate>, evaluations: seq<Evaluation>, s: Submission) {
    && |s.ids| == |pending|
    && |s.objectives| == Cell(|pending|, problem.objectiveCount, 0)
    && |s.constraints| == Cell(|pending|, problem.constraintCount, 0)
    && forall i :: 0 <= i < |pending| ==> exists e :: e in evaluations && OwnRow(problem, pending[i], e, s, i)
  }

  predicate OwnRow(problem: Problem, candidate: Candidate, e: Evaluation, s: Submission, i: nat) {
    && e.candidateId == candidate.candidateId && Fits(problem, e)
    && i < |s.ids| && s.ids[i] == candidate.candidateId
    && (forall j :: 0 <= j < problem.objectiveCount ==>
          Cell(i, problem.objectiveCount, j) < |s.objectives| && s.objectives[Cell(i, problem.objectiveCount, j)] == e.objectives[j])
    && (forall j :: 0 <= j < problem.constraintCount ==>
          Cell(i, problem.constraintCount, j) < |s.constraints| && s.constraints[Cell(i, problem.constraintCount, j)] == e.residuals[j])
  }

  lemma SubmissionAligned(problem: Problem, pending: seq<Candidate>, evaluations: seq<Evaluation>)
    requires Refusal(problem, false, pending, evaluations) == None
    ensures Aligned(problem, pending, evaluations, Submitted(pending, evaluations))
  {
    hide Cell, Concat;
    var ordered := Ordered(pending, ById(evaluations));
    var s := Submitted(pending, evaluations);
    ByIdMembers(evaluations);
    assert forall i :: 0 <= i < |pending| ==> Fits(problem, ordered[i]);
    ConcatRowMajor(Objectives(ordered), problem.objectiveCount);
    ConcatRowMajor(Residuals(ordered), problem.constraintCount);
    forall i | 0 <= i < |pending| ensures exists e :: e in evaluations && OwnRow(problem, pending[i], e, s, i) {
      var e := ordered[i];
      assert Objectives(ordered)[i] == e.objectives && Residuals(ordered)[i] == e.residuals;
      assert OwnRow(problem, pending[i], e, s, i);
    }
  }

  lemma SameMembers(a: seq<Evaluation>, b: seq<Evaluation>)
    requires multiset(a) == multiset(b)
    ensures |a| == |b| && forall e :: e in a <==> e in b
  {
    assert |a| == |multiset(a)| == |multiset(b)| == |b|;
    forall e ensures e in a <==> e in b {
      assert e in a <==> e in multiset(a);
      assert e in b <==> e in multiset(b);
    }
  }

  /** The order in which evaluations are returned is irrelevant: the same answer, the same
      arrays. */
  lemma TellOrderIrrelevant(problem: Problem, disposed: bool, pending: seq<Candidate>, a: seq<Evaluation>, b: seq<Evaluation>)
    requires multiset(a) == multiset(b)
    ensures Refusal(problem, disposed, pending, a) == Refusal(problem, disposed, pending, b)
    ensures Refusal(problem, disposed, pending, a) == None ==> Submitted(pending, a) == Submitted(pending, b)
  {
    SameMembers(a, b);
    DistinctByCount(a);
    DistinctByCount(b);
    assert EvaluatedIds(a) == EvaluatedIds(b);
    if DistinctIds(a) {
      SameDictionary(a, b);
    }
  }

  lemma SameDictionary(a: seq<Evaluation>, b: seq<Evaluation>)
    requires DistinctIds(a) && DistinctIds(b) && forall e :: e in a <==> e in b
    ensures ById(a) == ById(b)
  {
    ByIdMembers(a);
    ByIdMembers(b);
    assert EvaluatedIds(a) == EvaluatedIds(b);
    forall id | id in ById(a) ensures ById(a)[id] == ById(b)[id] {
      assert ById(a)[id] in b;
    }
  }

  function PendingIds(pending: seq<Candidate>): set<nat> {
    set c | c in pending :: c.candidateId
  }

  predicate DistinctCandidates(pending: seq<Candidate>) {
    forall i, j :: 0 <= i < j < |pending| ==> pending[i].candidateId != pending[j].candidateId
  }

  lemma {:induction false} PendingCount(pending: seq<Candidate>)
    requires DistinctCandidates(pending)
    ensures |PendingIds(pending)| == |pending|
  {
    if pending != [] {
      var front, last := pending[..|pending| - 1], pending[|pending| - 1];
      assert pending == front + [last];
      PendingCount(front);
      assert PendingIds(pending) == PendingIds(front) + {last.candidateId};
    }
  }

  /** A batch of distinct candidates is answered exactly by one well-dimensioned evaluation
      per candidate and none besides. */
  lemma AnsweredIff(problem: Problem, pending: seq<Candidate>, evaluations: seq<Evaluation>)
    requires DistinctCandidates(pending) && pending != []
    ensures Refusal(problem, false, pending, evaluations) == None
      <==> |evaluations| == |pending| && EvaluatedIds(evaluations) == PendingIds(pending)
           && forall e :: e in evaluations ==> Fits(problem, e)
  {
    PendingCount(pending);
    DistinctByCount(evaluations);
    if DistinctIds(evaluations) {
      ByIdMembers(evaluations);
    }
    hide DistinctIds, ById, DistinctCandidates;
    if Refusal(problem, false, pending, evaluations) == None {
      forall id | id in PendingIds(pending) ensures id in EvaluatedIds(evaluations) {
        var c :| c in pending && c.candidateId == id;
        var i :| 0 <= i < |pending| && pending[i] == c;
      }
      SubsetOfSameSize(PendingIds(pending), EvaluatedIds(evaluations));
      forall e | e in evaluations ensures Fits(problem, e) {
        assert e.candidateId in EvaluatedIds(evaluations);
        var c :| c in pending && c.candidateId == e.candidateId;
        var i :| 0 <= i < |pending| && pending[i] == c;
        assert Fits(problem, ById(evaluations)[pending[i].candidateId]);
      }
    }
    if |evaluations| == |pending| && EvaluatedIds(evaluations) == PendingIds(pending)
       && forall e :: e in evaluations ==> Fits(problem, e) {
      forall i | 0 <= i < |pending|
        ensures pending[i].candidateId in ById(evaluations) && Fits(problem, ById(evaluations)[pending[i].candidateId])
      {
        assert pending[i] in pending;
        assert pending[i].candidateId in PendingIds(pending);
      }
    }
  }

  lemma SubsetOfSameSize(a: set<nat>, b: set<nat>)
    requires a <= b && |a| == |b|
    ensures a == b
  {
    assert b == a + (b - a);
    assert |b| == |a| + |b - a|;
  }

  /** Some candidate's own evaluation has the wrong dimensions. */
  ghost predicate Misshapen(problem: Problem, pending: seq<Candidate>, evaluations: seq<Evaluation>) {
    exists e :: e in evaluations && e.candidateId in PendingIds(pending) && !Fits(problem, e)
  }

  /** Which refusal a caller gets: the first of the conditions that is violated. */
  lemma RefusalMeans(problem: Problem, disposed: bool, pending: seq<Candidate>, evaluations: seq<Evaluation>)
    ensures var r := Refusal(problem, disposed, pending, evaluations);
      var counted := !disposed && pending != [] && |evaluations| == |pending|;
      var distinct := counted && |EvaluatedIds(evaluations)| == |evaluations|;
      var known := distinct && PendingIds(pending) <= EvaluatedIds(evaluations);
      && (r == Some(TellDisposed) <==> disposed)
      && (r == Some(CountMismatch) <==> !disposed && !counted)
      && (r == Some(DuplicateId) <==> counted && !distinct)
      && (r == Some(UnknownCandidate) <==> distinct && !known)
      && (r == Some(DimensionMismatch) <==> known && Misshapen(problem, pending, evaluations))
      && (r == None <==> known && !Misshapen(problem, pending, evaluations))
  {
    DistinctByCount(evaluations);
    if DistinctIds(evaluations) {
      ByIdMembers(evaluations);
      hide DistinctIds, ById;
      UnknownIff(pending, evaluations);
      if PendingIds(pending) <= EvaluatedIds(evaluations) {
        MisshapenIff(problem, pending, evaluations);
      }
    }
  }

  lemma UnknownIff(pending: seq<Candidate>, evaluations: seq<Evaluation>)
    requires ById(evaluations).Keys == EvaluatedIds(evaluations)
    ensures (exists i :: 0 <= i < |pending| && pending[i].candidateId !in ById(evaluations))
       <==> !(PendingIds(pending) <= EvaluatedIds(evaluations))
  {
    forall i | 0 <= i < |pending| ensures pending[i].candidateId in PendingIds(pending) {
      assert pending[i] in pending;
    }
  }

  lemma MisshapenIff(problem: Problem, pending: seq<Candidate>, evaluations: seq<Evaluation>)
    requires ById(evaluations).Keys == EvaluatedIds(evaluations)
    requires PendingIds(pending) <= EvaluatedIds(evaluations)
    requires forall e :: e in evaluations ==> e.candidateId in ById(evaluations) && ById(evaluations)[e.candidateId] == e
    requires forall id :: id in ById(evaluations) ==> ById(evaluations)[id] in evaluations && ById(evaluations)[id].candidateId == id
    ensures (exists i :: 0 <= i < |pending| && pending[i].candidateId in ById(evaluations)
                         && !Fits(problem, ById(evaluations)[pending[i].candidateId]))
       <==> Misshapen(problem, pending, evaluations)
  {
    forall i | 0 <= i < |pending| ensures pending[i].candidateId in PendingIds(pending) {
      assert pending[i] in pending;
    }
    if Misshapen(problem, pending, evaluations) {
      var e :| e in evaluations && e.candidateId in PendingIds(pending) && !Fits(problem, e);
      var c :| c in pending && c.candidateId == e.candidateId;
      var i :| 0 <= i < |pending| && pending[i] == c;
    }
  }

  // ---- Ranking, sensitivity and hypervolume inputs ----

  datatype Tables = Tables(ids: seq<nat>, generations: seq<nat>, parameters: seq<Double>, objectives: seq<Double>, constraints: seq<Double>)

  datatype FlattenError = ProblemDimensions | TablesNotAligned | VectorDimensions | FlattenDuplicate | FlattenMissing

  /** Validation and flattening of a finished study. */
  function Flatten(problem: Problem, candidates: seq<Candidate>, evaluations: seq<Evaluation>): Result<Tables, FlattenError> {
    if problem.variableCount == 0 || problem.objectiveCount == 0 then Failure(ProblemDimensions)
    else if candidates == [] || |candidates| != |evaluations| then Failure(TablesNotAligned)
    else if (exists c :: c in candidates && |c.parameters| != problem.variableCount)
         || (exists e :: e in evaluations && !Fits(problem, e)) then Failure(VectorDimensions)
    else if !DistinctIds(evaluations) then Failure(FlattenDuplicate)
    else if exists i :: 0 <= i < |candidates| && candidates[i].candidateId !in ById(evaluations) then Failure(FlattenMissing)
    else
      var ordered := Ordered(candidates, ById(evaluations));
      Success(Tables(Ids(candidates), seq(|candidates|, i requires 0 <= i < |candidates| => candidates[i].generation),
                     Concat(Parameters(candidates)), Concat(Objectives(ordered)), Concat(Residuals(ordered))))
  }

  /** Flattened tables are aligned row by row, and do not depend on the evaluation order. */
  lemma FlattenAligned(problem: Problem, candidates: seq<Candidate>, evaluations: seq<Evaluation>)
    requires Flatten(problem, candidates, evaluations).Success?
    ensures var t := Flatten(problem, candidates, evaluations).value;
      && RowMajor(t.parameters, Parameters(candidates), problem.variableCount)
      && |t.generations| == |candidates| && (forall i :: 0 <= i < |candidates| ==> t.generations[i] == candidates[i].generation)
      && Aligned(problem, candidates, evaluations, Submission(t.ids, t.objectives, t.constraints))
  {
    hide Cell;
    assert forall i :: 0 <= i < |candidates| ==> candidates[i] in candidates;
    ConcatRowMajor(Parameters(candidates), problem.variableCount);
    ByIdMembers(evaluations);
    assert Refusal(problem, false, candidates, evaluations) == None;
    SubmissionAligned(problem, candidates, evaluations);
  }

  /** Tables are produced exactly for a proper problem and at least one candidate, each of the right
      width and with its one well-dimensioned evaluation, and no others. */
  lemma FlattenedIff(problem: Problem, candidates: seq<Candidate>, evaluations: seq<Evaluation>)
    requires DistinctCandidates(candidates)
    ensures Flatten(problem, candidates, evaluations).Success?
      <==> && problem.variableCount > 0 && problem.objectiveCount > 0 && candidates != []
           && |evaluations| == |candidates| && EvaluatedIds(evaluations) == PendingIds(candidates)
           && (forall e :: e in evaluations ==> Fits(problem, e))
           && (forall c :: c in candidates ==> |c.parameters| == problem.variableCount)
  {
    hide Concat, DistinctIds, ById, PendingIds, EvaluatedIds, DistinctCandidates;
    if candidates != [] {
      AnsweredIff(problem, candidates, evaluations);
    }
    if DistinctIds(evaluations) { ByIdMembers(evaluations); }
  }

  lemma FlattenOrderIrrelevant(problem: Problem, candidates: seq<Candidate>, a: seq<Evaluation>, b: seq<Evaluation>)
    requires multiset(a) == multiset(b)
    ensures Flatten(problem, candidates, a) == Flatten(problem, candidates, b)
  {
    SameMembers(a, b);
    DistinctByCount(a);
    DistinctByCount(b);
    assert EvaluatedIds(a) == EvaluatedIds(b);
    if DistinctIds(a) {
      SameDictionary(a, b);
    }
  }
}
