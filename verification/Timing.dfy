/** Summary statistics of benchmark timings: nearest-rank percentiles and a truncated mean. */
module Timing {
  import opened Sorting
  import opened Arithmetic

  const UsizeMax: nat := 0xFFFF_FFFF_FFFF_FFFF

  datatype TimingDistribution = TimingDistribution(minimum: nat, p50: nat, p95: nat, mean: nat)

  function DivCeil(a: nat, b: nat): nat
    requires b > 0
  {
    (a + b - 1) / b
  }

  function SaturatingMul(a: nat, b: nat): nat {
    if a * b > UsizeMax then UsizeMax else a * b
  }

  function Microseconds(): nat -> real {
    (x: nat) => x as real
  }

  function Total(samples: seq<nat>): nat {
    if samples == [] then 0 else Total(samples[..|samples| - 1]) + samples[|samples| - 1]
  }

  function Mean(samples: seq<nat>): nat
    requires samples != []
  {
    Total(samples) / |samples|
  }

  /** A rank by its meaning: a sample such that at least `hundredths` hundredths of a sample
      are at most it, and fewer are below it. */
  predicate HasRank(samples: seq<nat>, hundredths: nat, value: nat) {
    && value in samples
    && 100 * Tally(samples, AtMost(Microseconds(), value as real)) >= hundredths
    && 100 * Tally(samples, Below(Microseconds(), value as real)) < hundredths
  }

  /** The percentile: the rank of that many percent of all samples. */
  predicate IsNearestRank(samples: seq<nat>, percent: nat, value: nat) {
    HasRank(samples, percent * |samples|, value)
  }

  /** That meaning leaves no choice. */
  lemma RankUnique(samples: seq<nat>, hundredths: nat, v: nat, w: nat)
    requires HasRank(samples, hundredths, v) && HasRank(samples, hundredths, w)
    ensures v == w
  {
    if v < w {
      TallyImplies(samples, AtMost(Microseconds(), v as real), Below(Microseconds(), w as real));
    } else if w < v {
      TallyImplies(samples, AtMost(Microseconds(), w as real), Below(Microseconds(), v as real));
    }
  }

  /** The element at the rank index has the rank. */
  lemma RankIndex(samples: seq<nat>, hundredths: nat, index: nat)
    requires index < |samples| && 100 * index < hundredths <= 100 * (index + 1)
    ensures HasRank(samples, hundredths, SortBy(samples, Microseconds())[index])
  {
    Ranks(samples, Microseconds(), index);
    SortByMembers(samples, Microseconds(), SortBy(samples, Microseconds())[index]);
  }

  method Distribution(samples: seq<nat>) returns (r: TimingDistribution)
    requires samples != []
    ensures r.minimum in samples && forall x :: x in samples ==> r.minimum <= x
    ensures IsNearestRank(samples, 50, r.p50)
    ensures HasRank(samples, SaturatingMul(|samples|, 95), r.p95)
    ensures |samples| * 95 <= UsizeMax ==> IsNearestRank(samples, 95, r.p95)
    ensures 50 * |samples| <= SaturatingMul(|samples|, 95) ==> r.p50 <= r.p95
    ensures r.mean == Mean(samples)
  {
    hide HasRank, SortBy, Mean, DivCeil, SaturatingMul;
    RankIndices(|samples|);
    var sorted := SortBy(samples, Microseconds());
    var p50Index := DivCeil(|samples|, 2) - 1;
    var p95Index := DivCeil(SaturatingMul(|samples|, 95), 100) - 1;
    PercentilesAt(samples, p50Index, p95Index);
    SmallestFirst(samples);
    var mean := Average(samples);
    r := TimingDistribution(sorted[0], sorted[p50Index], sorted[p95Index], mean);
  }

  lemma PercentilesAt(samples: seq<nat>, p50Index: nat, p95Index: nat)
    requires samples != []
    requires p50Index == DivCeil(|samples|, 2) - 1 && p95Index == DivCeil(SaturatingMul(|samples|, 95), 100) - 1
    ensures p50Index < |samples| && p95Index < |samples|
    ensures var sorted := SortBy(samples, Microseconds());
      && HasRank(samples, 50 * |samples|, sorted[p50Index])
      && HasRank(samples, SaturatingMul(|samples|, 95), sorted[p95Index])
      && (|samples| * 95 <= UsizeMax ==> HasRank(samples, 95 * |samples|, sorted[p95Index]))
      && (50 * |samples| <= SaturatingMul(|samples|, 95) ==> sorted[p50Index] <= sorted[p95Index])
  {
    hide HasRank, SortBy, DivCeil, SaturatingMul;
    RankIndices(|samples|);
    RankIndex(samples, 50 * |samples|, p50Index);
    RankIndex(samples, SaturatingMul(|samples|, 95), p95Index);
    Nondecreasing(samples, p50Index, p95Index);
  }

  /** The fold over the samples, and the truncating division. */
  method Average(samples: seq<nat>) returns (mean: nat)
    requires samples != []
    ensures mean == Mean(samples)
  {
    var sum: nat := 0;
    for i := 0 to |samples|
      invariant sum == Total(samples[..i])
    {
      assert samples[..i + 1][..i] == samples[..i];
      sum := sum + samples[i];
    }
    assert samples[..|samples|] == samples;
    mean := sum / |samples|;
  }

  lemma RankIndices(n: nat)
    requires n > 0
    ensures 0 <= DivCeil(n, 2) - 1 < n && 0 <= DivCeil(SaturatingMul(n, 95), 100) - 1 < n
    ensures 100 * (DivCeil(n, 2) - 1) < 50 * n <= 100 * DivCeil(n, 2)
    ensures 100 * (DivCeil(SaturatingMul(n, 95), 100) - 1) < SaturatingMul(n, 95) <= 100 * DivCeil(SaturatingMul(n, 95), 100)
    ensures n * 95 <= UsizeMax ==> SaturatingMul(n, 95) == 95 * n
    ensures 50 * n <= SaturatingMul(n, 95) ==> DivCeil(n, 2) <= DivCeil(SaturatingMul(n, 95), 100)
  {
  }

  lemma Nondecreasing(samples: seq<nat>, i: nat, j: nat)
    requires i < |samples| && j < |samples|
    ensures var sorted := SortBy(samples, Microseconds());
      i <= j ==> sorted[i] <= sorted[j]
  {
    SortBySorts(samples, Microseconds());
    var sorted := SortBy(samples, Microseconds());
    if i < j {
      assert Microseconds()(sorted[i]) <= Microseconds()(sorted[j]);
    }
  }

  lemma SmallestFirst(samples: seq<nat>)
    requires samples != []
    ensures var first := SortBy(samples, Microseconds())[0];
      first in samples && forall x :: x in samples ==> first <= x
  {
    var sorted := SortBy(samples, Microseconds());
    SortByMembers(samples, Microseconds(), sorted[0]);
    forall x | x in samples ensures sorted[0] <= x {
      SortByMembers(samples, Microseconds(), x);
      var i :| 0 <= i < |sorted| && sorted[i] == x;
      Nondecreasing(samples, 0, i);
    }
  }

  /** The mean lies between any bounds of the samples. */
  lemma {:induction false} TotalBetween(samples: seq<nat>, low: nat, high: nat)
    requires forall x :: x in samples ==> low <= x <= high
    ensures low * |samples| <= Total(samples) <= high * |samples|
  {
    if samples != [] {
      var front, last := samples[..|samples| - 1], samples[|samples| - 1];
      assert last in samples;
      forall x | x in front ensures low <= x <= high { assert x in samples; }
      TotalBetween(front, low, high);
      OneMore(low, |front|);
      OneMore(high, |front|);
    }
  }

  lemma OneMore(a: nat, n: nat)
    ensures a * (n + 1) == a * n + a
  {
  }

  lemma MeanBetween(samples: seq<nat>, low: nat, high: nat)
    requires samples != [] && forall x :: x in samples ==> low <= x <= high
    ensures low <= Mean(samples) <= high
  {
    TotalBetween(samples, low, high);
    QuotientBetween(Total(samples), |samples|, low, high);
  }

  /** The mean is the average without its fraction. */
  lemma MeanTruncates(samples: seq<nat>)
    requires samples != []
    ensures Mean(samples) * |samples| <= Total(samples) < (Mean(samples) + 1) * |samples|
  {
    Division(Total(samples), |samples|);
  }

  lemma QuotientBetween(total: nat, n: nat, low: nat, high: nat)
    requires n > 0 && low * n <= total <= high * n
    ensures low <= total / n <= high
  {
    Division(total, n);
    MulMonotone(total / n, low, n);
    MulMonotone(high, total / n, n);
  }

  lemma {:induction false} TotalPermutation(xs: seq<nat>, ys: seq<nat>)
    requires multiset(xs) == multiset(ys)
    ensures Total(xs) == Total(ys)
  {
    assert |xs| == |multiset(xs)| == |multiset(ys)| == |ys|;
    if xs != [] {
      var n := |xs| - 1;
      assert xs[n] in multiset(ys);
      var i :| 0 <= i < |ys| && ys[i] == xs[n];
      RemoveFromMultiset(xs, n);
      RemoveFromMultiset(ys, i);
      assert xs[..n] + xs[n + 1..] == xs[..n];
      TotalPermutation(xs[..n], ys[..i] + ys[i + 1..]);
      TotalRemove(ys, i);
    }
  }

  lemma {:induction false} TotalConcat(xs: seq<nat>, ys: seq<nat>)
    ensures Total(xs + ys) == Total(xs) + Total(ys)
  {
    if ys == [] {
      assert xs + ys == xs;
    } else {
      assert (xs + ys)[..|xs + ys| - 1] == xs + ys[..|ys| - 1];
      TotalConcat(xs, ys[..|ys| - 1]);
    }
  }

  lemma TotalNext(xs: seq<nat>, i: nat)
    requires i < |xs|
    ensures Total(xs[..i + 1]) == Total(xs[..i]) + xs[i]
  {
    assert xs[..i + 1][..i] == xs[..i];
  }

  lemma TotalRemove(xs: seq<nat>, i: nat)
    requires i < |xs|
    ensures Total(xs) == Total(xs[..i] + xs[i + 1..]) + xs[i]
  {
    hide Total;
    TotalNext(xs, i);
    TotalConcat(xs[..i + 1], xs[i + 1..]);
    TotalConcat(xs[..i], xs[i + 1..]);
    assert xs[..i + 1] + xs[i + 1..] == xs;
  }

  /** The order in which timings were taken does not matter: the percentile and the mean
      are those of the multiset of samples. */
  lemma OrderIrrelevant(xs: seq<nat>, ys: seq<nat>, hundredths: nat, value: nat)
    requires multiset(xs) == multiset(ys)
    ensures HasRank(xs, hundredths, value) <==> HasRank(ys, hundredths, value)
    ensures Total(xs) == Total(ys) && |xs| == |ys|
  {
    assert |xs| == |multiset(xs)| == |multiset(ys)| == |ys|;
    TotalPermutation(xs, ys);
    TallyPermutation(xs, ys, AtMost(Microseconds(), value as real));
    TallyPermutation(xs, ys, Below(Microseconds(), value as real));
    assert value in xs <==> value in multiset(xs);
    assert value in ys <==> value in multiset(ys);
  }
}
