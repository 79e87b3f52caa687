/** CPU/GPU parity of whole analysis results: equal identity fields and every metric within a
    tolerance. Finite numbers are exact reals; a non-finite number is known by its bits. */
module Parity {

  datatype Float = Finite(value: real) | NonFinite(bits: nat)

  datatype Delta = Exact(value: real) | Infinite

  // ---- The compared results ----

  datatype TargetViewSummary = TargetViewSummary(
    observerId: nat, dominantTargetId: nat,
    fovSolidAngle: Float, potentialTargetSolidAngle: Float, visibleTargetSolidAngle: Float,
    targetViewFraction: Float, targetUniverseVisibilityFraction: Float, weightedViewScore: Float,
    greenViewIndex: Float, greenShareOfVisibleTargets: Float, convergenceDelta: Float)

  datatype TargetViewEntry = TargetViewEntry(
    observerId: nat, targetId: nat, categoryMask: nat, eligibleSampleCount: nat, visibleSampleCount: nat,
    dominantBlockerObjectId: nat,
    potentialSolidAngle: Float, visibleSolidAngle: Float, visibilityFraction: Float, fovFraction: Float,
    weightedFovScore: Float, convergenceDelta: Float, dominantBlockedSolidAngle: Float)

  datatype TargetViewResult = TargetViewResult(
    summaries: seq<TargetViewSummary>, entries: seq<TargetViewEntry>, contentHash: nat)

  datatype ViewCorridorSummary = ViewCorridorSummary(
    corridorId: nat, openSampleCount: nat, blockedSampleCount: nat, dominantBlockerObjectId: nat,
    apertureSolidAngle: Float, openFraction: Float, openSolidAngle: Float, convergenceDelta: Float,
    dominantBlockerFraction: Float, nearestBlockerDistance: Float)

  datatype Vector = Vector(x: Float, y: Float, z: Float)

  datatype ViewCorridorSample = ViewCorridorSample(
    corridorId: nat, state: nat, aperturePoint: Vector, direction: Vector,
    apertureDistance: Float, firstHitDistance: Float,
    blockerObjectId: nat, blockerInstanceId: nat, blockerMeshId: nat, blockerTriangleId: nat)

  datatype ViewCorridorResult = ViewCorridorResult(
    summaries: seq<ViewCorridorSummary>, samples: seq<ViewCorridorSample>, contentHash: nat)

  datatype ObserverPathSummary = ObserverPathSummary(
    pathId: nat, sampleCount: nat, worstSampleIndex: nat, bestSampleIndex: nat,
    pathLength: Float, meanTargetViewFraction: Float, meanWeightedViewScore: Float, meanGreenViewIndex: Float,
    minimumWeightedViewScore: Float, maximumWeightedViewScore: Float)

  datatype ObserverPathSample = ObserverPathSample(
    pathId: nat, sampleIndex: nat, dominantTargetId: nat,
    distanceAlongPath: Float, position: Vector, forward: Vector, targetViewFraction: Float, weightedViewScore: Float, greenViewIndex: Float,
    convergenceDelta: Float)

  datatype ObserverPathResult = ObserverPathResult(
    summaries: seq<ObserverPathSummary>, samples: seq<ObserverPathSample>, contentHash: nat)

  /** One table row as the comparison sees it. */
  datatype Row = Row(identity: seq<nat>, metrics: seq<Float>)

  datatype Tables = Tables(summaries: seq<Row>, details: seq<Row>, contentHash: nat)

  datatype Report = Report(passed: bool, maximumDelta: Delta, mismatches: nat, contentHashMatch: bool)

  function TargetSummaryRow(s: TargetViewSummary): Row {
    Row([s.observerId, s.dominantTargetId],
        [s.fovSolidAngle, s.potentialTargetSolidAngle, s.visibleTargetSolidAngle, s.targetViewFraction,
         s.targetUniverseVisibilityFraction, s.weightedViewScore, s.greenViewIndex, s.greenShareOfVisibleTargets,
         s.convergenceDelta])
  }

  function TargetEntryRow(e: TargetViewEntry): Row {
    Row([e.observerId, e.targetId, e.categoryMask, e.eligibleSampleCount, e.visibleSampleCount, e.dominantBlockerObjectId],
        [e.potentialSolidAngle, e.visibleSolidAngle, e.visibilityFraction, e.fovFraction, e.weightedFovScore,
         e.convergenceDelta, e.dominantBlockedSolidAngle])
  }

  function CorridorSummaryRow(s: ViewCorridorSummary): Row {
    Row([s.corridorId, s.openSampleCount, s.blockedSampleCount, s.dominantBlockerObjectId],
        [s.apertureSolidAngle, s.openFraction, s.openSolidAngle, s.convergenceDelta, s.dominantBlockerFraction,
         s.nearestBlockerDistance])
  }

  function CorridorSampleRow(s: ViewCorridorSample): Row {
    Row([s.corridorId, s.state, s.blockerObjectId, s.blockerInstanceId, s.blockerMeshId, s.blockerTriangleId],
        [s.apertureDistance, s.firstHitDistance])
  }

  function PathSummaryRow(s: ObserverPathSummary): Row {
    Row([s.pathId, s.sampleCount, s.worstSampleIndex, s.bestSampleIndex],
        [s.pathLength, s.meanTargetViewFraction, s.meanWeightedViewScore, s.meanGreenViewIndex,
         s.minimumWeightedViewScore, s.maximumWeightedViewScore])
  }

  function PathSampleRow(s: ObserverPathSample): Row {
    Row([s.pathId, s.sampleIndex, s.dominantTargetId],
        [s.distanceAlongPath, s.targetViewFraction, s.weightedViewScore, s.greenViewIndex, s.convergenceDelta])
  }

  function Rows<T>(items: seq<T>, row: T -> Row): (rows: seq<Row>)
    ensures |rows| == |items| && forall i :: 0 <= i < |items| ==> rows[i] == row(items[i])
  {
    seq(|items|, i requires 0 <= i < |items| => row(items[i]))
  }

  function TargetViewTables(r: TargetViewResult): Tables {
    Tables(Rows(r.summaries, TargetSummaryRow), Rows(r.entries, TargetEntryRow), r.contentHash)
  }

  function ViewCorridorTables(r: ViewCorridorResult): Tables {
    Tables(Rows(r.summaries, CorridorSummaryRow), Rows(r.samples, CorridorSampleRow), r.contentHash)
  }

  function ObserverPathTables(r: ObserverPathResult): Tables {
    Tables(Rows(r.summaries, PathSummaryRow), Rows(r.samples, PathSampleRow), r.contentHash)
  }

  // ---- The relation ----

  function Distance(x: real, y: real): real {
    if x < y then y - x else x - y
  }

  /** Finite metrics within the tolerance; anything else must be the same bits. */
  predicate Close(x: Float, y: Float, tolerance: real) {
    if x.Finite? && y.Finite? then Distance(x.value, y.value) <= tolerance else x == y
  }

  /** Two finite metrics are close exactly if their difference is within the tolerance on either
      side; otherwise closeness is equality. */
  lemma CloseIff(x: Float, y: Float, tolerance: real)
    ensures x.Finite? && y.Finite? ==> (Close(x, y, tolerance) <==> -tolerance <= x.value - y.value <= tolerance)
    ensures !x.Finite? || !y.Finite? ==> (Close(x, y, tolerance) <==> x == y)
  {
  }

  predicate AllClose(xs: seq<Float>, ys: seq<Float>, tolerance: real) {
    forall k :: 0 <= k < |xs| && k < |ys| ==> Close(xs[k], ys[k], tolerance)
  }

  predicate SameIdentities(xs: seq<Row>, ys: seq<Row>) {
    forall i :: 0 <= i < |xs| && i < |ys| ==> xs[i].identity == ys[i].identity
  }

  predicate RowsClose(xs: seq<Row>, ys: seq<Row>, tolerance: real) {
    forall i :: 0 <= i < |xs| && i < |ys| ==> AllClose(xs[i].metrics, ys[i].metrics, tolerance)
  }

  predicate TableParity(xs: seq<Row>, ys: seq<Row>, tolerance: real) {
    |xs| == |ys| && SameIdentities(xs, ys) && RowsClose(xs, ys, tolerance)
  }

  predicate Parity(x: Tables, y: Tables, tolerance: real) {
    TableParity(x.summaries, y.summaries, tolerance) && TableParity(x.details, y.details, tolerance)
  }

  // ---- The comparison ----

  function DeltaOf(x: Float, y: Float): Delta {
    if x.Finite? && y.Finite? then Exact(Distance(x.value, y.value))
    else if x == y then Exact(0.0)
    else Infinite
  }

  function Larger(x: Delta, y: Delta): Delta {
    if x.Infinite? || y.Infinite? then Infinite else if x.value < y.value then y else x
  }

  predicate Within(d: Delta, tolerance: real) {
    d.Exact? && d.value <= tolerance
  }

  /** `bound` is the least tolerance that covers `base` and the metrics of two lists. */
  ghost predicate Absorbs(bound: Delta, base: Delta, xs: seq<Float>, ys: seq<Float>) {
    forall t :: t >= 0.0 ==> (Within(bound, t) <==> Within(base, t) && AllClose(xs, ys, t))
  }

  predicate NonNegative(d: Delta) {
    d.Exact? ==> d.value >= 0.0
  }

  method AbsorbDelta(maximum: Delta, reference: seq<Float>, candidate: seq<Float>) returns (r: Delta)
    requires NonNegative(maximum)
    ensures NonNegative(r) && Absorbs(r, maximum, reference, candidate)
  {
    r := maximum;
    var n := if |reference| < |candidate| then |reference| else |candidate|;
    for k := 0 to n
      invariant NonNegative(r) && Absorbs(r, maximum, reference[..k], candidate[..k])
    {
      AbsorbOne(r, maximum, reference, candidate, k);
      r := Larger(r, DeltaOf(reference[k], candidate[k]));
    }
    assert forall t :: AllClose(reference, candidate, t) <==> AllClose(reference[..n], candidate[..n], t);
  }

  lemma AbsorbOne(r: Delta, base: Delta, xs: seq<Float>, ys: seq<Float>, k: nat)
    requires k < |xs| && k < |ys| && NonNegative(r) && Absorbs(r, base, xs[..k], ys[..k])
    ensures var next := Larger(r, DeltaOf(xs[k], ys[k]));
      NonNegative(next) && Absorbs(next, base, xs[..k + 1], ys[..k + 1])
  {
    var next := Larger(r, DeltaOf(xs[k], ys[k]));
    forall t | t >= 0.0 ensures Within(next, t) <==> Within(base, t) && AllClose(xs[..k + 1], ys[..k + 1], t) {
      LastClose(xs, ys, k, t);
      assert Within(next, t) <==> Within(r, t) && Close(xs[k], ys[k], t);
    }
  }

  lemma LastClose(xs: seq<Float>, ys: seq<Float>, k: nat, t: real)
    requires k < |xs| && k < |ys|
    ensures AllClose(xs[..k + 1], ys[..k + 1], t) <==> AllClose(xs[..k], ys[..k], t) && Close(xs[k], ys[k], t)
  {
    if AllClose(xs[..k + 1], ys[..k + 1], t) {
      assert Close(xs[..k + 1][k], ys[..k + 1][k], t);
      forall j | 0 <= j < k ensures Close(xs[..k][j], ys[..k][j], t) {
        assert Close(xs[..k + 1][j], ys[..k + 1][j], t);
      }
    }
    if AllClose(xs[..k], ys[..k], t) && Close(xs[k], ys[k], t) {
      var left, right := xs[..k + 1], ys[..k + 1];
      forall j | 0 <= j < k + 1 ensures Close(left[j], right[j], t) {
        if j < k { assert Close(xs[..k][j], ys[..k][j], t); }
      }
    }
  }

  /** Identity mismatches among the first `n` pairs of rows. */
  function Mismatches(xs: seq<Row>, ys: seq<Row>, n: nat): (count: nat)
    requires n <= |xs| && n <= |ys|
    ensures count <= n
    ensures count == 0 <==> forall i :: 0 <= i < n ==> xs[i].identity == ys[i].identity
  {
    if n == 0 then 0
    else Mismatches(xs, ys, n - 1) + (if xs[n - 1].identity != ys[n - 1].identity then 1 else 0)
  }

  /** The positions at which identities differ. */
  function Differing(xs: seq<Row>, ys: seq<Row>, n: nat): set<nat>
    requires n <= |xs| && n <= |ys|
  {
    set i: nat | i < n && xs[i].identity != ys[i].identity
  }

  lemma {:induction false} MismatchesCount(xs: seq<Row>, ys: seq<Row>, n: nat)
    requires n <= |xs| && n <= |ys|
    ensures Mismatches(xs, ys, n) == |Differing(xs, ys, n)|
  {
    if n > 0 {
      MismatchesCount(xs, ys, n - 1);
      assert Differing(xs, ys, n)
          == Differing(xs, ys, n - 1) + (if xs[n - 1].identity != ys[n - 1].identity then {n - 1} else {});
    }
  }

  function Shorter(xs: seq<Row>, ys: seq<Row>): nat {
    if |xs| < |ys| then |xs| else |ys|
  }

  function AbsDiff(a: nat, b: nat): (d: nat)
    ensures d == a - b || d == b - a
  {
    if a < b then b - a else a - b
  }

  ghost predicate AbsorbsRows(bound: Delta, base: Delta, xs: seq<Row>, ys: seq<Row>) {
    forall t :: t >= 0.0 ==> (Within(bound, t) <==> Within(base, t) && RowsClose(xs, ys, t))
  }

  /** The loop over two tables row by row. */
  method CompareRows(reference: seq<Row>, candidate: seq<Row>, counted: nat, maximum: Delta)
    returns (mismatches: nat, bound: Delta)
    requires NonNegative(maximum)
    ensures mismatches == counted + Mismatches(reference, candidate, Shorter(reference, candidate))
    ensures NonNegative(bound) && AbsorbsRows(bound, maximum, reference, candidate)
  {
    mismatches, bound := counted, maximum;
    var n := Shorter(reference, candidate);
    for i := 0 to n
      invariant mismatches == counted + Mismatches(reference, candidate, i)
      invariant NonNegative(bound) && AbsorbsRows(bound, maximum, reference[..i], candidate[..i])
    {
      if reference[i].identity != candidate[i].identity {
        mismatches := mismatches + 1;
      }
      var next := AbsorbDelta(bound, reference[i].metrics, candidate[i].metrics);
      AbsorbRow(next, bound, maximum, reference, candidate, i);
      bound := next;
    }
    assert forall t :: RowsClose(reference, candidate, t) <==> RowsClose(reference[..n], candidate[..n], t);
  }

  lemma AbsorbRow(next: Delta, bound: Delta, base: Delta, xs: seq<Row>, ys: seq<Row>, i: nat)
    requires i < |xs| && i < |ys|
    requires AbsorbsRows(bound, base, xs[..i], ys[..i]) && Absorbs(next, bound, xs[i].metrics, ys[i].metrics)
    ensures AbsorbsRows(next, base, xs[..i + 1], ys[..i + 1])
  {
    forall t | t >= 0.0 ensures Within(next, t) <==> Within(base, t) && RowsClose(xs[..i + 1], ys[..i + 1], t) {
      LastRowClose(xs, ys, i, t);
    }
  }

  lemma LastRowClose(xs: seq<Row>, ys: seq<Row>, k: nat, t: real)
    requires k < |xs| && k < |ys|
    ensures RowsClose(xs[..k + 1], ys[..k + 1], t)
            <==> RowsClose(xs[..k], ys[..k], t) && AllClose(xs[k].metrics, ys[k].metrics, t)
  {
    hide AllClose;
    if RowsClose(xs[..k + 1], ys[..k + 1], t) {
      assert AllClose(xs[..k + 1][k].metrics, ys[..k + 1][k].metrics, t);
      forall j | 0 <= j < k ensures AllClose(xs[..k][j].metrics, ys[..k][j].metrics, t) {
        assert AllClose(xs[..k + 1][j].metrics, ys[..k + 1][j].metrics, t);
      }
    }
    if RowsClose(xs[..k], ys[..k], t) && AllClose(xs[k].metrics, ys[k].metrics, t) {
      var left, right := xs[..k + 1], ys[..k + 1];
      forall j | 0 <= j < k + 1 ensures AllClose(left[j].metrics, right[j].metrics, t) {
        if j < k { assert AllClose(xs[..k][j].metrics, ys[..k][j].metrics, t); }
      }
    }
  }

  /** What a report must say about two results. */
  ghost predicate Reports(r: Report, reference: Tables, candidate: Tables, tolerance: real) {
    && (r.passed <==> tolerance >= 0.0 && Parity(reference, candidate, tolerance))
    && r.mismatches == AbsDiff(|reference.summaries|, |candidate.summaries|)
                       + AbsDiff(|reference.details|, |candidate.details|)
                       + Mismatches(reference.summaries, candidate.summaries, Shorter(reference.summaries, candidate.summaries))
                       + Mismatches(reference.details, candidate.details, Shorter(reference.details, candidate.details))
    && NonNegative(r.maximumDelta)
    && (forall t :: t >= 0.0 ==>
          (Within(r.maximumDelta, t) <==> RowsClose(reference.summaries, candidate.summaries, t)
                                          && RowsClose(reference.details, candidate.details, t)))
    && (r.contentHashMatch <==> reference.contentHash == candidate.contentHash)
  }

  method CompareTables(reference: Tables, candidate: Tables, tolerance: real) returns (r: Report)
    ensures Reports(r, reference, candidate, tolerance)
  {
    hide AllClose, RowsClose;
    var mismatches := AbsDiff(|reference.summaries|, |candidate.summaries|)
                    + AbsDiff(|reference.details|, |candidate.details|);
    var maximum := Exact(0.0);
    mismatches, maximum := CompareRows(reference.summaries, candidate.summaries, mismatches, maximum);
    mismatches, maximum := CompareRows(reference.details, candidate.details, mismatches, maximum);
    r := Report(mismatches == 0 && Within(maximum, tolerance), maximum, mismatches,
                reference.contentHash == candidate.contentHash);
  }

  method CompareTargetView(reference: TargetViewResult, candidate: TargetViewResult, tolerance: real) returns (r: Report)
    ensures Reports(r, TargetViewTables(reference), TargetViewTables(candidate), tolerance)
  {
    r := CompareTables(TargetViewTables(reference), TargetViewTables(candidate), tolerance);
  }

  method CompareViewCorridors(reference: ViewCorridorResult, candidate: ViewCorridorResult, tolerance: real) returns (r: Report)
    ensures Reports(r, ViewCorridorTables(reference), ViewCorridorTables(candidate), tolerance)
  {
    r := CompareTables(ViewCorridorTables(reference), ViewCorridorTables(candidate), tolerance);
  }

  method CompareObserverPaths(reference: ObserverPathResult, candidate: ObserverPathResult, tolerance: real) returns (r: Report)
    ensures Reports(r, ObserverPathTables(reference), ObserverPathTables(candidate), tolerance)
  {
    r := CompareTables(ObserverPathTables(reference), ObserverPathTables(candidate), tolerance);
  }

  // ---- Laws of parity ----

  /** Rows of one table carry the same number of metrics. */
  predicate Uniform(rows: seq<Row>, width: nat) {
    forall i :: 0 <= i < |rows| ==> |rows[i].metrics| == width
  }

  predicate Shaped(t: Tables, summaryWidth: nat, detailWidth: nat) {
    Uniform(t.summaries, summaryWidth) && Uniform(t.details, detailWidth)
  }

  lemma TargetViewShaped(r: TargetViewResult)
    ensures Shaped(TargetViewTables(r), 9, 7)
  {
  }

  lemma ViewCorridorsShaped(r: ViewCorridorResult)
    ensures Shaped(ViewCorridorTables(r), 6, 2)
  {
  }

  lemma ObserverPathsShaped(r: ObserverPathResult)
    ensures Shaped(ObserverPathTables(r), 6, 5)
  {
  }

  lemma ParityReflexive(x: Tables, tolerance: real)
    requires tolerance >= 0.0
    ensures Parity(x, x, tolerance)
  {
  }

  lemma ParitySymmetric(x: Tables, y: Tables, tolerance: real)
    ensures Parity(x, y, tolerance) <==> Parity(y, x, tolerance)
  {
    TableSymmetric(x.summaries, y.summaries, tolerance);
    TableSymmetric(x.details, y.details, tolerance);
  }

  lemma TableSymmetric(xs: seq<Row>, ys: seq<Row>, tolerance: real)
    ensures TableParity(xs, ys, tolerance) <==> TableParity(ys, xs, tolerance)
  {
    forall i | 0 <= i < |xs| && i < |ys|
      ensures AllClose(xs[i].metrics, ys[i].metrics, tolerance) <==> AllClose(ys[i].metrics, xs[i].metrics, tolerance)
    {
      forall k | 0 <= k < |xs[i].metrics| && k < |ys[i].metrics|
        ensures Close(xs[i].metrics[k], ys[i].metrics[k], tolerance) <==> Close(ys[i].metrics[k], xs[i].metrics[k], tolerance)
      {
      }
    }
  }

  /** A looser tolerance never rejects what a stricter one accepts. */
  lemma ParityMonotone(x: Tables, y: Tables, strict: real, loose: real)
    requires strict <= loose && Parity(x, y, strict)
    ensures Parity(x, y, loose)
  {
    TableMonotone(x.summaries, y.summaries, strict, loose);
    TableMonotone(x.details, y.details, strict, loose);
  }

  lemma TableMonotone(xs: seq<Row>, ys: seq<Row>, strict: real, loose: real)
    requires strict <= loose && TableParity(xs, ys, strict)
    ensures TableParity(xs, ys, loose)
  {
    forall i | 0 <= i < |xs| ensures AllClose(xs[i].metrics, ys[i].metrics, loose) {
      assert AllClose(xs[i].metrics, ys[i].metrics, strict);
      MetricsMonotone(xs[i].metrics, ys[i].metrics, strict, loose);
    }
  }

  lemma MetricsMonotone(xs: seq<Float>, ys: seq<Float>, strict: real, loose: real)
    requires strict <= loose && AllClose(xs, ys, strict)
    ensures AllClose(xs, ys, loose)
  {
  }

  /** Tolerances add up along a chain of three results of one kind. */
  lemma TargetViewChain(x: TargetViewResult, y: TargetViewResult, z: TargetViewResult, s: real, t: real)
    requires Parity(TargetViewTables(x), TargetViewTables(y), s) && Parity(TargetViewTables(y), TargetViewTables(z), t)
    ensures Parity(TargetViewTables(x), TargetViewTables(z), s + t)
  {
    TargetViewShaped(x);
    TargetViewShaped(y);
    TargetViewShaped(z);
    ParityChain(TargetViewTables(x), TargetViewTables(y), TargetViewTables(z), s, t, 9, 7);
  }

  lemma ViewCorridorsChain(x: ViewCorridorResult, y: ViewCorridorResult, z: ViewCorridorResult, s: real, t: real)
    requires Parity(ViewCorridorTables(x), ViewCorridorTables(y), s) && Parity(ViewCorridorTables(y), ViewCorridorTables(z), t)
    ensures Parity(ViewCorridorTables(x), ViewCorridorTables(z), s + t)
  {
    ViewCorridorsShaped(x);
    ViewCorridorsShaped(y);
    ViewCorridorsShaped(z);
    ParityChain(ViewCorridorTables(x), ViewCorridorTables(y), ViewCorridorTables(z), s, t, 6, 2);
  }

  lemma ObserverPathsChain(x: ObserverPathResult, y: ObserverPathResult, z: ObserverPathResult, s: real, t: real)
    requires Parity(ObserverPathTables(x), ObserverPathTables(y), s) && Parity(ObserverPathTables(y), ObserverPathTables(z), t)
    ensures Parity(ObserverPathTables(x), ObserverPathTables(z), s + t)
  {
    ObserverPathsShaped(x);
    ObserverPathsShaped(y);
    ObserverPathsShaped(z);
    ParityChain(ObserverPathTables(x), ObserverPathTables(y), ObserverPathTables(z), s, t, 6, 5);
  }

  lemma ParityChain(x: Tables, y: Tables, z: Tables, s: real, t: real, summaryWidth: nat, detailWidth: nat)
    requires Shaped(x, summaryWidth, detailWidth) && Shaped(y, summaryWidth, detailWidth) && Shaped(z, summaryWidth, detailWidth)
    requires Parity(x, y, s) && Parity(y, z, t)
    ensures Parity(x, z, s + t)
  {
    TableChain(x.summaries, y.summaries, z.summaries, s, t, summaryWidth);
    TableChain(x.details, y.details, z.details, s, t, detailWidth);
  }

  lemma TableChain(xs: seq<Row>, ys: seq<Row>, zs: seq<Row>, s: real, t: real, width: nat)
    requires Uniform(xs, width) && Uniform(ys, width) && Uniform(zs, width)
    requires TableParity(xs, ys, s) && TableParity(ys, zs, t)
    ensures TableParity(xs, zs, s + t)
  {
    forall i | 0 <= i < |xs| ensures xs[i].identity == zs[i].identity && AllClose(xs[i].metrics, zs[i].metrics, s + t) {
      assert xs[i].identity == ys[i].identity;
      assert AllClose(xs[i].metrics, ys[i].metrics, s) && AllClose(ys[i].metrics, zs[i].metrics, t);
      MetricsChain(xs[i].metrics, ys[i].metrics, zs[i].metrics, s, t);
    }
  }

  lemma MetricsChain(xs: seq<Float>, ys: seq<Float>, zs: seq<Float>, s: real, t: real)
    requires |xs| == |ys| == |zs| && AllClose(xs, ys, s) && AllClose(ys, zs, t)
    ensures AllClose(xs, zs, s + t)
  {
    forall k | 0 <= k < |xs| ensures Close(xs[k], zs[k], s + t) {
      assert Close(xs[k], ys[k], s) && Close(ys[k], zs[k], t);
    }
  }

  /** Parity at zero tolerance is equality of every compared field. */
  lemma ZeroToleranceIsEquality(x: Tables, y: Tables, summaryWidth: nat, detailWidth: nat)
    requires Shaped(x, summaryWidth, detailWidth) && Shaped(y, summaryWidth, detailWidth)
    ensures Parity(x, y, 0.0) <==> x.summaries == y.summaries && x.details == y.details
  {
    if Parity(x, y, 0.0) {
      ExactTables(x.summaries, y.summaries, summaryWidth);
      ExactTables(x.details, y.details, detailWidth);
    }
  }

  lemma ExactTables(xs: seq<Row>, ys: seq<Row>, width: nat)
    requires Uniform(xs, width) && Uniform(ys, width) && TableParity(xs, ys, 0.0)
    ensures xs == ys
  {
    forall i | 0 <= i < |xs| ensures xs[i] == ys[i] {
      var a, b := xs[i], ys[i];
      assert AllClose(a.metrics, b.metrics, 0.0);
      forall k | 0 <= k < width ensures a.metrics[k] == b.metrics[k] {
        assert Close(a.metrics[k], b.metrics[k], 0.0);
      }
      assert a.metrics == b.metrics && a.identity == b.identity;
    }
  }

  // ---- What is compared, field by field ----

  /** Equal rows, pair by pair. */
  ghost predicate SameRows<T(!new)>(xs: seq<T>, ys: seq<T>, row: T -> Row) {
    |xs| == |ys| && forall i :: 0 <= i < |xs| ==> row(xs[i]) == row(ys[i])
  }

  lemma RowsEqual<T(!new)>(xs: seq<T>, ys: seq<T>, row: T -> Row)
    ensures Rows(xs, row) == Rows(ys, row) <==> SameRows(xs, ys, row)
  {
    if Rows(xs, row) == Rows(ys, row) {
      assert |xs| == |Rows(xs, row)| == |Rows(ys, row)| == |ys|;
      forall i | 0 <= i < |xs| ensures row(xs[i]) == row(ys[i]) {
        assert Rows(xs, row)[i] == Rows(ys, row)[i];
      }
    }
  }

  lemma TargetSummaryFields(a: TargetViewSummary, b: TargetViewSummary)
    ensures TargetSummaryRow(a) == TargetSummaryRow(b) <==> a == b
  {
    var x, y := TargetSummaryRow(a), TargetSummaryRow(b);
    if x == y {
      assert forall k :: 0 <= k < 2 ==> x.identity[k] == y.identity[k];
      assert forall k :: 0 <= k < 9 ==> x.metrics[k] == y.metrics[k];
    }
  }

  lemma TargetEntryFields(a: TargetViewEntry, b: TargetViewEntry)
    ensures TargetEntryRow(a) == TargetEntryRow(b) <==> a == b
  {
    var x, y := TargetEntryRow(a), TargetEntryRow(b);
    if x == y {
      assert forall k :: 0 <= k < 6 ==> x.identity[k] == y.identity[k];
      assert forall k :: 0 <= k < 7 ==> x.metrics[k] == y.metrics[k];
    }
  }

  lemma CorridorSummaryFields(a: ViewCorridorSummary, b: ViewCorridorSummary)
    ensures CorridorSummaryRow(a) == CorridorSummaryRow(b) <==> a == b
  {
    var x, y := CorridorSummaryRow(a), CorridorSummaryRow(b);
    if x == y {
      assert forall k :: 0 <= k < 4 ==> x.identity[k] == y.identity[k];
      assert forall k :: 0 <= k < 6 ==> x.metrics[k] == y.metrics[k];
    }
  }

  /** Equal but for the sample point and its direction. */
  predicate SameButAperture(a: ViewCorridorSample, b: ViewCorridorSample) {
    a == b.(aperturePoint := a.aperturePoint, direction := a.direction)
  }

  lemma CorridorSampleFields(a: ViewCorridorSample, b: ViewCorridorSample)
    ensures CorridorSampleRow(a) == CorridorSampleRow(b) <==> SameButAperture(a, b)
  {
    var x, y := CorridorSampleRow(a), CorridorSampleRow(b);
    if x == y {
      assert forall k :: 0 <= k < 6 ==> x.identity[k] == y.identity[k];
      assert forall k :: 0 <= k < 2 ==> x.metrics[k] == y.metrics[k];
    }
  }

  lemma PathSummaryFields(a: ObserverPathSummary, b: ObserverPathSummary)
    ensures PathSummaryRow(a) == PathSummaryRow(b) <==> a == b
  {
    var x, y := PathSummaryRow(a), PathSummaryRow(b);
    if x == y {
      assert forall k :: 0 <= k < 4 ==> x.identity[k] == y.identity[k];
      assert forall k :: 0 <= k < 6 ==> x.metrics[k] == y.metrics[k];
    }
  }

  /** Equal but for the camera position and its forward direction. */
  predicate SameButCamera(a: ObserverPathSample, b: ObserverPathSample) {
    a == b.(position := a.position, forward := a.forward)
  }

  lemma PathSampleFields(a: ObserverPathSample, b: ObserverPathSample)
    ensures PathSampleRow(a) == PathSampleRow(b) <==> SameButCamera(a, b)
  {
    var x, y := PathSampleRow(a), PathSampleRow(b);
    if x == y {
      assert forall k :: 0 <= k < 3 ==> x.identity[k] == y.identity[k];
      assert forall k :: 0 <= k < 5 ==> x.metrics[k] == y.metrics[k];
    }
  }

  /** Exact parity of two target-view results means equal summaries and entries: no field of
      a row escapes the comparison. */
  lemma TargetViewExact(x: TargetViewResult, y: TargetViewResult)
    ensures Parity(TargetViewTables(x), TargetViewTables(y), 0.0) <==> x.summaries == y.summaries && x.entries == y.entries
  {
    TargetViewShaped(x);
    TargetViewShaped(y);
    ZeroToleranceIsEquality(TargetViewTables(x), TargetViewTables(y), 9, 7);
    RowsEqual(x.summaries, y.summaries, TargetSummaryRow);
    RowsEqual(x.entries, y.entries, TargetEntryRow);
    forall a, b ensures TargetSummaryRow(a) == TargetSummaryRow(b) <==> a == b { TargetSummaryFields(a, b); }
    forall a, b ensures TargetEntryRow(a) == TargetEntryRow(b) <==> a == b { TargetEntryFields(a, b); }
    hide TargetSummaryRow, TargetEntryRow, Rows, Parity;
  }

  /** Exact parity of two corridor results means equal summaries, and samples equal but for
      sample points and directions, which the comparison never reads. */
  lemma ViewCorridorsExact(x: ViewCorridorResult, y: ViewCorridorResult)
    ensures Parity(ViewCorridorTables(x), ViewCorridorTables(y), 0.0)
      <==> x.summaries == y.summaries && |x.samples| == |y.samples|
           && forall i :: 0 <= i < |x.samples| ==> SameButAperture(x.samples[i], y.samples[i])
  {
    ViewCorridorsShaped(x);
    ViewCorridorsShaped(y);
    ZeroToleranceIsEquality(ViewCorridorTables(x), ViewCorridorTables(y), 6, 2);
    RowsEqual(x.summaries, y.summaries, CorridorSummaryRow);
    RowsEqual(x.samples, y.samples, CorridorSampleRow);
    forall a, b ensures CorridorSummaryRow(a) == CorridorSummaryRow(b) <==> a == b { CorridorSummaryFields(a, b); }
    forall a, b ensures CorridorSampleRow(a) == CorridorSampleRow(b) <==> SameButAperture(a, b) { CorridorSampleFields(a, b); }
    hide CorridorSummaryRow, CorridorSampleRow, SameButAperture, Rows, Parity;
  }

  /** Exact parity of two path results means equal summaries, and samples equal but for
      camera positions and directions, which the comparison never reads. */
  lemma ObserverPathsExact(x: ObserverPathResult, y: ObserverPathResult)
    ensures Parity(ObserverPathTables(x), ObserverPathTables(y), 0.0)
      <==> x.summaries == y.summaries && |x.samples| == |y.samples|
           && forall i :: 0 <= i < |x.samples| ==> SameButCamera(x.samples[i], y.samples[i])
  {
    ObserverPathsShaped(x);
    ObserverPathsShaped(y);
    ZeroToleranceIsEquality(ObserverPathTables(x), ObserverPathTables(y), 6, 5);
    RowsEqual(x.summaries, y.summaries, PathSummaryRow);
    RowsEqual(x.samples, y.samples, PathSampleRow);
    forall a, b ensures PathSummaryRow(a) == PathSummaryRow(b) <==> a == b { PathSummaryFields(a, b); }
    forall a, b ensures PathSampleRow(a) == PathSampleRow(b) <==> SameButCamera(a, b) { PathSampleFields(a, b); }
    hide PathSummaryRow, PathSampleRow, SameButCamera, Rows, Parity;
  }

  const Origin := Vector(Finite(0.0), Finite(0.0), Finite(0.0))
  const Aside := Vector(Finite(1.0), Finite(0.0), Finite(0.0))

  /** Two unequal corridor results that pass at zero tolerance without a mismatch. */
  lemma MovedAperturePasses(sample: ViewCorridorSample)
    ensures var x := ViewCorridorResult([], [sample.(aperturePoint := Origin, direction := Aside)], 0);
      var y := ViewCorridorResult([], [sample.(aperturePoint := Aside, direction := Origin)], 0);
      x != y && Parity(ViewCorridorTables(x), ViewCorridorTables(y), 0.0)
  {
    var a, b := sample.(aperturePoint := Origin, direction := Aside), sample.(aperturePoint := Aside, direction := Origin);
    ViewCorridorsExact(ViewCorridorResult([], [a], 0), ViewCorridorResult([], [b], 0));
    assert [a][0].aperturePoint != [b][0].aperturePoint;
  }

  /** Two unequal path results that pass at zero tolerance without a mismatch. */
  lemma MovedCameraPasses(sample: ObserverPathSample)
    ensures var x := ObserverPathResult([], [sample.(position := Origin, forward := Aside)], 0);
      var y := ObserverPathResult([], [sample.(position := Aside, forward := Origin)], 0);
      x != y && Parity(ObserverPathTables(x), ObserverPathTables(y), 0.0)
  {
    var a, b := sample.(position := Origin, forward := Aside), sample.(position := Aside, forward := Origin);
    ObserverPathsExact(ObserverPathResult([], [a], 0), ObserverPathResult([], [b], 0));
    assert [a][0].position != [b][0].position;
  }
}
