/** What a legend means for its data: the display domain by counting values, places in it by
    proportion, and colours by distance from the straight line between anchors. */
module LegendMeaning {
  import opened Wrappers
  import opened Sorting
  import opened Arithmetic
  import opened Legend

  // ---- The data ----

  /** The finite values are the inputs without the others, in order. */
  lemma {:induction false} FinitesConcat(xs: seq<Number>, ys: seq<Number>)
    ensures Finites(xs + ys) == Finites(xs) + Finites(ys)
    ensures forall y :: ys == [y] ==> Finites(ys) == if y.Finite? then [y.value] else []
  {
    if ys == [] {
      assert xs + ys == xs;
    } else {
      FinitesConcat(xs, ys[..|ys| - 1]);
      assert (xs + ys)[..|xs + ys| - 1] == xs + ys[..|ys| - 1];
      var last := ys[|ys| - 1];
      var tail := if last.Finite? then [last.value] else [];
      assert Finites(xs + ys) == Finites(xs + ys[..|ys| - 1]) + tail;
      assert (Finites(xs) + Finites(ys[..|ys| - 1])) + tail == Finites(xs) + (Finites(ys[..|ys| - 1]) + tail);
    }
  }

  lemma {:induction false} FinitesMembers(values: seq<Number>, x: real)
    ensures x in Finites(values) <==> Finite(x) in values
  {
    if values != [] {
      FinitesMembers(values[..|values| - 1], x);
      assert values == values[..|values| - 1] + [values[|values| - 1]];
    }
  }

  /** `x` is a value of `data` that has rank `r`, counting from zero. */
  predicate HasRank(data: seq<real>, r: int, x: real) {
    x in data && Tally(data, Below(Identity(), x)) <= r < Tally(data, AtMost(Identity(), x))
  }

  ghost predicate IsQuantile(data: seq<real>, probability: real, x: real) {
    AtRank(data, probability * (|data| - 1) as real, x)
  }

  /** `x` lies a share of the way from the value below to the value above a fractional rank. */
  ghost predicate AtRank(data: seq<real>, rank: real, x: real) {
    exists below, above :: Interpolates(data, rank, x, below, above)
  }

  predicate Interpolates(data: seq<real>, rank: real, x: real, below: real, above: real) {
    && HasRank(data, rank.Floor, below) && HasRank(data, -((-rank).Floor), above)
    && x - below == (above - below) * (rank - rank.Floor as real)
  }

  lemma SortedHasRank(data: seq<real>, r: nat)
    requires r < |data|
    ensures HasRank(data, r, SortBy(data, Identity())[r])
  {
    hide SortBy, Tally;
    Ranks(data, Identity(), r);
    SortByMembers(data, Identity(), SortBy(data, Identity())[r]);
  }

  lemma RankInterpolates(data: seq<real>, rank: real)
    requires data != [] && 0.0 <= rank <= (|data| - 1) as real
    ensures var sorted := SortBy(data, Identity());
      AtRank(data, rank, Interpolated(sorted, rank))
  {
    hide SortBy, HasRank;
    var sorted := SortBy(data, Identity());
    SortedHasRank(data, rank.Floor);
    SortedHasRank(data, Ceiling(rank));
    assert Interpolates(data, rank, Interpolated(sorted, rank), sorted[rank.Floor], sorted[Ceiling(rank)]);
  }

  lemma IndexIs(n: nat, probability: real)
    requires n > 0 && 0.0 <= probability <= 1.0
    ensures QuantileIndex(n, probability) == probability * (n - 1) as real
  {
  }

  lemma QuantileMeans(data: seq<real>, probability: real)
    requires data != [] && 0.0 <= probability <= 1.0
    ensures IsQuantile(data, probability, Quantile(SortBy(data, Identity()), probability))
  {
    hide SortBy, AtRank, Interpolated, QuantileIndex;
    var rank := QuantileIndex(|data|, probability);
    RankInterpolates(data, rank);
    IndexIs(|data|, probability);
    assert AtRank(data, rank, Interpolated(SortBy(data, Identity()), rank));
    assert rank == probability * (|data| - 1) as real;
    assert Quantile(SortBy(data, Identity()), probability) == Interpolated(SortBy(data, Identity()), rank);
  }

  // ---- The display domain ----

  ghost predicate Least(data: seq<real>, x: real) {
    x in data && forall y :: y in data ==> x <= y
  }

  ghost predicate Greatest(data: seq<real>, x: real) {
    x in data && forall y :: y in data ==> y <= x
  }

  /** `x` is the largest magnitude of any value. */
  ghost predicate Magnitude(data: seq<real>, x: real) {
    (x in data || -x in data) && forall y :: y in data ==> -x <= y <= x
  }

  /** What each mode asks for. */
  ghost predicate Asked(data: seq<real>, options: Options, raw: Bounds) {
    match options.mode
    case FullRange => Least(data, raw.minimum) && Greatest(data, raw.maximum)
    case Percentile =>
      && options.lower.Finite? && IsQuantile(data, options.lower.value, raw.minimum)
      && options.upper.Finite? && IsQuantile(data, options.upper.value, raw.maximum)
    case Symmetric => Magnitude(data, raw.maximum) && raw.minimum == -raw.maximum
    case Fixed => options.minimum == Finite(raw.minimum) && options.maximum == Finite(raw.maximum)
    case UndefinedMode => false
  }

  /** An interval without extent is widened on each side by a billionth of its magnitude, but
      at least by 10^-12. */
  predicate Widened(raw: Bounds, b: Bounds) {
    if raw.minimum < raw.maximum then b == raw
    else
      var side := raw.minimum - b.minimum;
      && raw.minimum == raw.maximum && b.maximum == raw.maximum + side
      && (side == 0.000_000_001 * raw.minimum || side == -0.000_000_001 * raw.minimum || side == 0.000_000_000_001)
      && -side <= 0.000_000_001 * raw.minimum <= side && side >= 0.000_000_000_001
  }

  lemma SortedEnds(data: seq<real>)
    requires data != []
    ensures var sorted := SortBy(data, Identity()); Least(data, sorted[0]) && Greatest(data, sorted[|sorted| - 1])
  {
    hide SortBy;
    var sorted := SortBy(data, Identity());
    SortBySorts(data, Identity());
    SortByMembers(data, Identity(), sorted[0]);
    SortByMembers(data, Identity(), sorted[|sorted| - 1]);
    forall y | y in data ensures sorted[0] <= y <= sorted[|sorted| - 1] {
      SortByMembers(data, Identity(), y);
      var i :| 0 <= i < |sorted| && sorted[i] == y;
      SortedPair(sorted, 0, i);
      SortedPair(sorted, i, |sorted| - 1);
    }
  }

  lemma SymmetricMagnitude(data: seq<real>)
    requires data != []
    ensures var b := SymmetricBounds(SortBy(data, Identity())); Magnitude(data, b.maximum) && b.minimum == -b.maximum
  {
    hide SortBy;
    SortedEnds(data);
  }

  lemma RawAsked(values: seq<Number>, options: Options)
    requires Rejection(values, options) == None
    ensures Asked(Finites(values), options, RawDomain(Ascending(values), options))
  {
    hide SortBy, Finites, Quantile, SymmetricBounds, IsQuantile, Magnitude, Least, Greatest;
    var data := Finites(values);
    SortedEnds(data);
    SymmetricMagnitude(data);
    QuantileMeans(data, options.lower.value);
    QuantileMeans(data, options.upper.value);
  }

  lemma PaddedWidened(raw: Bounds)
    requires raw.minimum <= raw.maximum
    ensures Widened(raw, Padded(raw))
  {
  }

  lemma AskedOrdered(values: seq<Number>, options: Options)
    requires Rejection(values, options) == None
    ensures var raw := RawDomain(Ascending(values), options); raw.minimum <= raw.maximum
  {
    hide SortBy, Finites, Quantile;
    AscendingSorted(values);
    var sorted := Ascending(values);
    SortedPair(sorted, 0, |sorted| - 1);
    QuantileMonotone(sorted, options.lower.value, options.upper.value);
  }

  /** The domain of a legend is what its mode asks for of the data, widened only if that has no
      extent: the extremes, two interpolated quantiles, the largest magnitude on both sides, or
      the given bounds. */
  lemma DomainMeans(values: seq<Number>, options: Options) returns (raw: Bounds)
    requires Rejection(values, options) == None
    ensures Asked(Finites(values), options, raw) && Widened(raw, Domain(values, options))
  {
    hide SortBy, Finites, RawDomain, Asked, Widened;
    raw := RawDomain(Ascending(values), options);
    RawAsked(values, options);
    AskedOrdered(values, options);
    PaddedWidened(raw);
  }

  /** Symmetric mode: the domain is centred at zero, which gets the middle of the palette; it
      covers every value, and one of them touches an end unless all values are zero. */
  lemma SymmetricCentred(values: seq<Number>, options: Options)
    requires Rejection(values, options) == None && options.mode == Symmetric
    ensures var domain := Domain(values, options);
      && domain.minimum == -domain.maximum && domain.minimum < domain.maximum
      && Normalized(0.0, domain) == 0.5
      && (forall x :: Finite(x) in values ==> domain.minimum <= x <= domain.maximum)
      && ((exists x :: Finite(x) in values && x != 0.0)
          ==> Finite(domain.maximum) in values || Finite(domain.minimum) in values)
  {
    hide Rejection, Domain, Finites, Normalized;
    var domain := Domain(values, options);
    var raw := DomainMeans(values, options);
    forall x ensures x in Finites(values) <==> Finite(x) in values { FinitesMembers(values, x); }
    assert domain.minimum == -domain.maximum < domain.maximum;
    MiddleNormalized(domain);
  }

  lemma MiddleNormalized(domain: Bounds)
    requires domain.minimum == -domain.maximum && domain.minimum < domain.maximum
    ensures Normalized(0.0, domain) == 0.5
  {
    var m := domain.maximum;
    DivideBack(m, m + m);
    RealCancel(m + m, m / (m + m), 0.5);
  }

  // ---- Places in the domain ----

  /** Inside the domain a normalised value is the share of the domain below the value; outside it
      is the nearer end. */
  lemma NormalizedShare(v: real, domain: Bounds)
    requires domain.minimum < domain.maximum
    ensures domain.minimum <= v <= domain.maximum
            ==> Normalized(v, domain) * (domain.maximum - domain.minimum) == v - domain.minimum
    ensures v <= domain.minimum ==> Normalized(v, domain) == 0.0
    ensures v >= domain.maximum ==> Normalized(v, domain) == 1.0
  {
    var range := domain.maximum - domain.minimum;
    DivideBack(v - domain.minimum, range);
    QuotientUnit(v - domain.minimum, range);
    QuotientMonotone(v - domain.minimum, 0.0, range);
    QuotientMonotone(range, v - domain.minimum, range);
    QuotientSelf(range);
    QuotientZero(range);
  }

  /** Non-finite inputs are marked as such and left transparent; every other input is opaque. */
  lemma LegendMarksNonFinite(values: seq<Number>, domain: Bounds, anchors: seq<Anchor>, legend: Legend, i: nat)
    requires domain.minimum < domain.maximum && Ladder(anchors) && Mapped(values, domain, anchors, legend)
    requires i < |values|
    ensures values[i].Finite? ==> legend.normalized[i].Finite? && legend.colors[i].alpha == 255
    ensures !values[i].Finite? ==> legend.normalized[i] == NaN && legend.colors[i] == Color(0, 0, 0, 0)
  {
    hide Normalized, Channel, Segment;
  }

  // ---- Colours ----

  /** The whole number nearest to the straight line, the upper one at equal distance. */
  lemma ChannelNearest(a: int, b: int, fraction: real)
    requires 0 <= a <= 255 && 0 <= b <= 255 && 0.0 <= fraction <= 1.0
    ensures var line := a as real + (b - a) as real * fraction;
      -0.5 < Channel(a, b, fraction) as real - line <= 0.5
  {
    if a <= b {
      BlendBetween(a as real, b as real, fraction);
    } else {
      BlendBetween(b as real, a as real, 1.0 - fraction);
      BlendReversed(a as real, b as real, fraction);
    }
    assert Blend(a as real, b as real, fraction) == a as real + (b - a) as real * fraction;
    hide Blend;
  }

  lemma BlendReversed(a: real, b: real, fraction: real)
    ensures Blend(a, b, fraction) == Blend(b, a, 1.0 - fraction)
  {
  }

  /** Between any two neighbouring anchors every band of the colour is within half a level of the
      straight line between the anchors' levels. */
  lemma MapFollowsAnchors(anchors: seq<Anchor>, i: nat, value: real, band: Band)
    requires Ladder(anchors) && i + 1 < |anchors|
    requires anchors[i].position <= value <= anchors[i + 1].position
    ensures var a, b := anchors[i], anchors[i + 1];
      && a.position < b.position
      && var line := Level(a.color, band) as real
                     + (Level(b.color, band) - Level(a.color, band)) as real * Fraction(a, b, value);
         -0.5 <= Level(MapColor(anchors, value), band) as real - line <= 0.5
  {
    hide Channel, Fraction, MapColor, Segment;
    var a, b := anchors[i], anchors[i + 1];
    LadderUnit(anchors, i, value);
    SegmentEncloses(anchors, value);
    SegmentIs(anchors, i, value);
    FractionUnit(a, b, value, value);
    LevelRange(anchors, i, band);
    LevelRange(anchors, i + 1, band);
    if Segment(anchors, value, 1) == i + 1 {
      LevelOf(anchors, value, band);
      ChannelNearest(Level(a.color, band), Level(b.color, band), Fraction(a, b, value));
    } else {
      MapHitsAnchors(anchors, i);
      FractionEnds(a, b);
    }
  }

  lemma LadderUnit(anchors: seq<Anchor>, i: nat, value: real)
    requires Ladder(anchors) && i + 1 < |anchors|
    requires anchors[i].position <= value <= anchors[i + 1].position
    ensures 0.0 <= value <= 1.0 && anchors[i].position < anchors[i + 1].position
  {
    assert i > 0 ==> anchors[0].position < anchors[i].position;
    assert i + 1 < |anchors| - 1 ==> anchors[i + 1].position < anchors[|anchors| - 1].position;
  }

  lemma SegmentIs(anchors: seq<Anchor>, i: nat, value: real)
    requires Ladder(anchors) && i + 1 < |anchors|
    requires anchors[i].position <= value <= anchors[i + 1].position
    ensures Segment(anchors, value, 1) == i + 1 || value == anchors[i].position
  {
    var s := Segment(anchors, value, 1);
    if s < i { assert false; }
  }

  lemma LevelRange(anchors: seq<Anchor>, i: nat, band: Band)
    requires Ladder(anchors) && i < |anchors|
    ensures 0 <= Level(anchors[i].color, band) <= 255
  {
  }

  lemma RoundOrdered(x: real, y: real)
    requires 0.0 <= x <= y
    ensures RoundAwayFromZero(x) <= RoundAwayFromZero(y)
  {
  }

  /** Two bands whose ends are ordered stay ordered in between. */
  lemma ChannelsOrdered(a: int, b: int, c: int, d: int, fraction: real)
    requires 0 <= a <= c <= 255 && 0 <= b <= d <= 255 && 0.0 <= fraction <= 1.0
    ensures Channel(a, b, fraction) <= Channel(c, d, fraction)
  {
    var x, y := Blend(a as real, b as real, fraction), Blend(c as real, d as real, fraction);
    BlendsOrdered(a as real, b as real, c as real, d as real, fraction);
    BlendNatural(a as real, b as real, fraction);
    hide Blend;
    RoundOrdered(x, y);
  }

  lemma BlendWeights(a: real, b: real, fraction: real, other: real)
    requires other == 1.0 - fraction
    ensures Blend(a, b, fraction) == a * other + b * fraction
  {
  }

  lemma BlendsOrdered(a: real, b: real, c: real, d: real, fraction: real)
    requires a <= c && b <= d && 0.0 <= fraction <= 1.0
    ensures Blend(a, b, fraction) <= Blend(c, d, fraction)
  {
    hide Blend;
    var other := 1.0 - fraction;
    BlendWeights(a, b, fraction, other);
    BlendWeights(c, d, fraction, other);
    WeightsOrdered(a, b, c, d, fraction, other);
  }

  lemma WeightsOrdered(a: real, b: real, c: real, d: real, fraction: real, other: real)
    requires a <= c && b <= d && fraction >= 0.0 && other >= 0.0
    ensures a * other + b * fraction <= c * other + d * fraction
  {
    RealMonotone(a, c, other);
    RealMonotone(b, d, fraction);
  }

  lemma BlendNatural(a: real, b: real, fraction: real)
    requires 0.0 <= a && 0.0 <= b && 0.0 <= fraction <= 1.0
    ensures 0.0 <= Blend(a, b, fraction)
  {
    if a <= b { BlendBetween(a, b, fraction); } else {
      BlendReversed(a, b, fraction);
      BlendBetween(b, a, 1.0 - fraction);
    }
  }

  /** The diverging palette leans to blue below the middle and to red above it, and is grey there:
      in symmetric mode a colour shows the sign of its value. */
  lemma DivergingSides(value: real)
    requires 0.0 <= value <= 1.0
    ensures var color := MapColor(Anchors(Diverging), value);
      && (value <= 0.5 ==> color.red <= color.blue)
      && (value >= 0.5 ==> color.red >= color.blue)
      && (value == 0.5 ==> color.red == color.green == color.blue)
      && (value == 0.0 ==> color.red < color.blue) && (value == 1.0 ==> color.red > color.blue)
  {
    hide Channel, Fraction, Segment, MapColor;
    var anchors := Anchors(Diverging);
    AnchorsLadder(Diverging);
    MapHitsAnchors(anchors, 0);
    MapHitsAnchors(anchors, 1);
    MapHitsAnchors(anchors, 2);
    LevelOf(anchors, value, Red);
    LevelOf(anchors, value, Blue);
    SegmentEncloses(anchors, value);
    var s := Segment(anchors, value, 1);
    FractionUnit(anchors[s - 1], anchors[s], value, value);
    var fraction := Fraction(anchors[s - 1], anchors[s], value);
    if s == 1 {
      ChannelsOrdered(33, 247, 172, 247, fraction);
    } else {
      ChannelsOrdered(247, 43, 247, 178, fraction);
    }
  }

  // ---- Refusals ----

  /** A legend is built exactly for 2 to 64 ticks, increasing percentiles within the unit interval,
      at least one finite value, a defined mode and palette, and increasing finite bounds in
      fixed mode. */
  lemma BuiltIff(values: seq<Number>, options: Options)
    ensures Rejection(values, options) == None
      <==> && 2 <= options.tickCount <= 64
           && (exists l, u :: options.lower == Finite(l) && options.upper == Finite(u) && 0.0 <= l < u <= 1.0)
           && (exists x :: Finite(x) in values)
           && options.mode != UndefinedMode && options.palette != UndefinedPalette
           && (options.mode == Fixed
               ==> exists l, u :: options.minimum == Finite(l) && options.maximum == Finite(u) && l < u)
  {
    hide Finites;
    forall x ensures x in Finites(values) <==> Finite(x) in values { FinitesMembers(values, x); }
    if Finites(values) != [] {
      assert Finite(Finites(values)[0]) in values;
    }
  }

  /** And which reason a caller gets: the first of the conditions, in this order, that fails. */
  lemma RejectionMeans(values: seq<Number>, options: Options)
    ensures var r := Rejection(values, options);
      var ranged := 2 <= options.tickCount <= 64 && exists l, u :: options.lower == Finite(l) && options.upper == Finite(u) && 0.0 <= l < u <= 1.0;
      var some := exists x :: Finite(x) in values;
      var bounded := options.mode == Fixed ==> exists l, u :: options.minimum == Finite(l) && options.maximum == Finite(u) && l < u;
      && (r == Some(NoFiniteValue) <==> ranged && !some)
      && (r == Some(FixedBoundsInvalid) <==> ranged && some && !bounded)
      && (r == Some(OptionsOutOfRange) <==> !ranged || (some && options.mode == UndefinedMode))
      && (r == Some(PaletteOutOfRange)
          <==> ranged && some && bounded && options.mode != UndefinedMode && options.palette == UndefinedPalette)
  {
    hide Finites;
    forall x ensures x in Finites(values) <==> Finite(x) in values { FinitesMembers(values, x); }
    if Finites(values) != [] {
      assert Finite(Finites(values)[0]) in values;
    }
  }
}
