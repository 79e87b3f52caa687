/** The unified legend: a finite display domain, clamped normalisation, clip counts and
    palette colours, in exact arithmetic with explicit non-finite inputs. */
module Legend {
  import opened Wrappers
  import opened Sorting
  import opened Arithmetic

  datatype Number = Finite(value: real) | NaN | PositiveInfinity | NegativeInfinity

  datatype DomainMode = FullRange | Percentile | Symmetric | Fixed | UndefinedMode

  datatype Palette = Viridis | Cividis | Diverging | UndefinedPalette

  datatype Color = Color(red: int, green: int, blue: int, alpha: int)

  datatype Options = Options(mode: DomainMode, palette: Palette, minimum: Number, maximum: Number,
                             lower: Number, upper: Number, tickCount: int)

  datatype Legend = Legend(minimum: real, maximum: real, normalized: seq<Number>, colors: seq<Color>,
                           ticks: seq<real>, clippedLow: nat, clippedHigh: nat, nonFinite: nat)

  datatype LegendError = OptionsOutOfRange | NoFiniteValue | FixedBoundsInvalid | PaletteOutOfRange

  datatype Bounds = Bounds(minimum: real, maximum: real)

  function Max(x: real, y: real): real {
    if x < y then y else x
  }

  function Abs(x: real): real {
    if x < 0.0 then -x else x
  }

  function Clamp(x: real, low: real, high: real): real {
    if x < low then low else if x > high then high else x
  }

  function Ceiling(x: real): int {
    -((-x).Floor)
  }

  function Identity(): real -> real {
    (x: real) => x
  }

  /** The finite values, in input order. */
  function Finites(values: seq<Number>): seq<real> {
    if values == [] then []
    else
      var last := values[|values| - 1];
      Finites(values[..|values| - 1]) + (if last.Finite? then [last.value] else [])
  }

  function Ascending(values: seq<Number>): seq<real> {
    SortBy(Finites(values), Identity())
  }

  // ---- Interpolated quantiles ----

  /** Between two neighbours, a share of the way up. */
  function Blend(a: real, b: real, fraction: real): real {
    a + (b - a) * fraction
  }

  predicate Position(sorted: seq<real>, position: real) {
    sorted != [] && 0.0 <= position <= (|sorted| - 1) as real
  }

  /** Linear interpolation at a fractional index. */
  function Interpolated(sorted: seq<real>, position: real): real
    requires Position(sorted, position)
  {
    Blend(sorted[position.Floor], sorted[Ceiling(position)], position - position.Floor as real)
  }

  function QuantileIndex(n: nat, probability: real): (position: real)
    requires n > 0 && 0.0 <= probability <= 1.0
    ensures 0.0 <= position <= (n - 1) as real
  {
    Share(probability, (n - 1) as real);
    probability * (n - 1) as real
  }

  function Quantile(sorted: seq<real>, probability: real): real
    requires sorted != [] && 0.0 <= probability <= 1.0
  {
    Interpolated(sorted, QuantileIndex(|sorted|, probability))
  }

  lemma BlendBetween(a: real, b: real, fraction: real)
    requires a <= b && 0.0 <= fraction <= 1.0
    ensures a <= Blend(a, b, fraction) <= b
  {
    RealMonotone(0.0, fraction, b - a);
    RealMonotone(fraction, 1.0, b - a);
  }

  lemma BlendMonotone(a: real, b: real, f: real, g: real)
    requires a <= b && f <= g
    ensures Blend(a, b, f) <= Blend(a, b, g)
  {
    RealMonotone(f, g, b - a);
  }

  lemma InterpolatedBetween(sorted: seq<real>, position: real)
    requires Position(sorted, position) && Sorted(sorted, Identity())
    ensures sorted[position.Floor] <= Interpolated(sorted, position) <= sorted[Ceiling(position)]
  {
    SortedPair(sorted, position.Floor, Ceiling(position));
    hide Blend;
    BlendBetween(sorted[position.Floor], sorted[Ceiling(position)], position - position.Floor as real);
  }

  lemma SortedPair(sorted: seq<real>, i: nat, j: nat)
    requires Sorted(sorted, Identity()) && i <= j < |sorted|
    ensures sorted[i] <= sorted[j]
  {
    if i < j {
      assert Identity()(sorted[i]) <= Identity()(sorted[j]);
    }
  }

  lemma InterpolatedMonotone(sorted: seq<real>, p: real, q: real)
    requires Position(sorted, p) && Position(sorted, q) && p <= q && Sorted(sorted, Identity())
    ensures Interpolated(sorted, p) <= Interpolated(sorted, q)
  {
    hide Blend;
    if p < q && p.Floor == q.Floor {
      var low := p.Floor;
      assert Ceiling(q) == low + 1;
      SortedPair(sorted, low, low + 1);
      if p == low as real {
        InterpolatedBetween(sorted, p);
        InterpolatedBetween(sorted, q);
      } else {
        assert Ceiling(p) == low + 1;
        BlendMonotone(sorted[low], sorted[low + 1], p - low as real, q - low as real);
      }
    } else if p < q {
      InterpolatedBetween(sorted, p);
      InterpolatedBetween(sorted, q);
      assert Ceiling(p) <= q.Floor;
      SortedPair(sorted, Ceiling(p), q.Floor);
    }
  }

  /** Quantiles rise with the probability and never leave the data; at the ends they are
      the smallest and the largest value. */
  lemma QuantileMonotone(sorted: seq<real>, p: real, q: real)
    requires sorted != [] && Sorted(sorted, Identity()) && 0.0 <= p <= q <= 1.0
    ensures sorted[0] <= Quantile(sorted, p) <= Quantile(sorted, q) <= sorted[|sorted| - 1]
    ensures Quantile(sorted, 0.0) == sorted[0] && Quantile(sorted, 1.0) == sorted[|sorted| - 1]
  {
    hide Interpolated, QuantileIndex;
    var i, j := QuantileIndex(|sorted|, p), QuantileIndex(|sorted|, q);
    QuantileIndexMonotone(|sorted|, p, q);
    InterpolatedMonotone(sorted, i, j);
    InterpolatedWithin(sorted, i);
    InterpolatedWithin(sorted, j);
    QuantileEnds(sorted);
  }

  lemma QuantileIndexMonotone(n: nat, p: real, q: real)
    requires n > 0 && 0.0 <= p <= q <= 1.0
    ensures QuantileIndex(n, p) <= QuantileIndex(n, q)
  {
    RealMonotone(p, q, (n - 1) as real);
  }

  lemma InterpolatedWithin(sorted: seq<real>, position: real)
    requires Position(sorted, position) && Sorted(sorted, Identity())
    ensures sorted[0] <= Interpolated(sorted, position) <= sorted[|sorted| - 1]
  {
    hide Interpolated;
    InterpolatedBetween(sorted, position);
    SortedPair(sorted, 0, position.Floor);
    SortedPair(sorted, Ceiling(position), |sorted| - 1);
  }

  lemma QuantileEnds(sorted: seq<real>)
    requires sorted != [] && Sorted(sorted, Identity())
    ensures Quantile(sorted, 0.0) == sorted[0] && Quantile(sorted, 1.0) == sorted[|sorted| - 1]
  {
    IndexEnds(|sorted|);
    hide Interpolated, QuantileIndex;
    InterpolatedBetween(sorted, 0.0);
    InterpolatedBetween(sorted, (|sorted| - 1) as real);
  }

  lemma IndexEnds(n: nat)
    requires n > 0
    ensures QuantileIndex(n, 0.0) == 0.0 && QuantileIndex(n, 1.0) == (n - 1) as real
  {
  }

  // ---- The display domain ----

  function SymmetricBounds(sorted: seq<real>): Bounds
    requires sorted != []
  {
    var magnitude := Max(Abs(sorted[0]), Abs(sorted[|sorted| - 1]));
    Bounds(-magnitude, magnitude)
  }

  predicate FixedBoundsValid(options: Options) {
    options.minimum.Finite? && options.maximum.Finite? && options.maximum.value > options.minimum.value
  }

  predicate OptionsValid(options: Options) {
    && 2 <= options.tickCount <= 64
    && options.lower.Finite? && options.upper.Finite?
    && 0.0 <= options.lower.value < options.upper.value <= 1.0
  }

  /** Why a legend cannot be built, in the order in which the program finds out. */
  function Rejection(values: seq<Number>, options: Options): Option<LegendError> {
    if !OptionsValid(options) then Some(OptionsOutOfRange)
    else if Finites(values) == [] then Some(NoFiniteValue)
    else if options.mode == Fixed && !FixedBoundsValid(options) then Some(FixedBoundsInvalid)
    else if options.mode == UndefinedMode then Some(OptionsOutOfRange)
    else if options.palette == UndefinedPalette then Some(PaletteOutOfRange)
    else None
  }

  function RawDomain(sorted: seq<real>, options: Options): Bounds
    requires sorted != [] && OptionsValid(options) && options.mode != UndefinedMode
    requires options.mode == Fixed ==> FixedBoundsValid(options)
  {
    match options.mode
    case FullRange => Bounds(sorted[0], sorted[|sorted| - 1])
    case Percentile => Bounds(Quantile(sorted, options.lower.value), Quantile(sorted, options.upper.value))
    case Symmetric => SymmetricBounds(sorted)
    case Fixed => Bounds(options.minimum.value, options.maximum.value)
  }

  /** A domain without extent is widened on both sides. */
  function Padded(b: Bounds): (r: Bounds)
    ensures b.minimum < b.maximum ==> r == b
    ensures b.minimum == b.maximum ==> r.minimum < b.minimum && b.maximum < r.maximum
    ensures b.minimum - r.minimum == r.maximum - b.maximum
  {
    if b.maximum > b.minimum then b
    else
      var padding := Max(Abs(b.minimum) * 0.000_000_001, 0.000_000_000_001);
      Bounds(b.minimum - padding, b.maximum + padding)
  }

  function Domain(values: seq<Number>, options: Options): Bounds
    requires Rejection(values, options) == None
  {
    Padded(RawDomain(Ascending(values), options))
  }

  lemma AscendingSorted(values: seq<Number>)
    ensures Sorted(Ascending(values), Identity())
    ensures |Ascending(values)| == |Finites(values)|
  {
    SortBySorts(Finites(values), Identity());
  }

  /** Every mode resolves to a domain with positive extent. */
  lemma DomainProper(values: seq<Number>, options: Options)
    requires Rejection(values, options) == None
    ensures var domain := Domain(values, options);
      && domain.minimum < domain.maximum
      && domain.minimum <= RawDomain(Ascending(values), options).minimum
      && domain.maximum >= RawDomain(Ascending(values), options).maximum
  {
    hide SortBy, Finites, Quantile;
    AscendingSorted(values);
    var sorted := Ascending(values);
    SortedPair(sorted, 0, |sorted| - 1);
    QuantileMonotone(sorted, options.lower.value, options.upper.value);
  }

  // ---- Normalisation ----

  /** Relative place in the domain, clamped to the unit interval. */
  function Normalized(value: real, domain: Bounds): real
    requires domain.minimum < domain.maximum
  {
    Clamp((value - domain.minimum) / (domain.maximum - domain.minimum), 0.0, 1.0)
  }

  /** Order is never reversed, and inside the domain it is kept strictly. */
  lemma NormalizedOrder(v: real, w: real, domain: Bounds)
    requires domain.minimum < domain.maximum
    ensures 0.0 <= Normalized(v, domain) <= 1.0
    ensures v <= w ==> Normalized(v, domain) <= Normalized(w, domain)
    ensures domain.minimum <= v < w <= domain.maximum ==> Normalized(v, domain) < Normalized(w, domain)
  {
    var range := domain.maximum - domain.minimum;
    QuotientMonotone(v - domain.minimum, w - domain.minimum, range);
    QuotientUnit(v - domain.minimum, range);
    QuotientUnit(w - domain.minimum, range);
  }

  // ---- Palettes ----

  datatype Anchor = Anchor(position: real, color: Color)

  datatype Band = Red | Green | Blue

  function Opaque(red: int, green: int, blue: int): Color {
    Color(red, green, blue, 255)
  }

  const Transparent := Color(0, 0, 0, 0)

  function Anchors(palette: Palette): seq<Anchor>
    requires palette != UndefinedPalette
  {
    match palette
    case Viridis =>
      [Anchor(0.0, Opaque(68, 1, 84)), Anchor(0.25, Opaque(59, 82, 139)), Anchor(0.5, Opaque(33, 145, 140)),
       Anchor(0.75, Opaque(94, 201, 98)), Anchor(1.0, Opaque(253, 231, 37))]
    case Cividis =>
      [Anchor(0.0, Opaque(0, 32, 77)), Anchor(0.25, Opaque(66, 78, 108)), Anchor(0.5, Opaque(124, 124, 120)),
       Anchor(0.75, Opaque(188, 173, 108)), Anchor(1.0, Opaque(255, 233, 69))]
    case Diverging =>
      [Anchor(0.0, Opaque(33, 102, 172)), Anchor(0.5, Opaque(247, 247, 247)), Anchor(1.0, Opaque(178, 24, 43))]
  }

  function Level(color: Color, band: Band): int {
    match band
    case Red => color.red
    case Green => color.green
    case Blue => color.blue
  }

  function RoundAwayFromZero(x: real): int {
    if x >= 0.0 then (x + 0.5).Floor else -((-x + 0.5).Floor)
  }

  function Channel(start: int, end: int, fraction: real): (level: int)
    ensures 0 <= level <= 255
  {
    var rounded := RoundAwayFromZero(Blend(start as real, end as real, fraction));
    if rounded < 0 then 0 else if rounded > 255 then 255 else rounded
  }

  /** The first anchor from `index` on that is not below `value`. */
  function Segment(anchors: seq<Anchor>, value: real, index: nat): (s: nat)
    requires index <= |anchors|
    ensures index <= s <= |anchors|
    ensures s < |anchors| ==> value <= anchors[s].position
    ensures forall i :: index <= i < s ==> anchors[i].position < value
    decreases |anchors| - index
  {
    if index == |anchors| || value <= anchors[index].position then index else Segment(anchors, value, index + 1)
  }

  function Fraction(a: Anchor, b: Anchor, value: real): real
    requires a.position < b.position
  {
    (value - a.position) / (b.position - a.position)
  }

  /** Positions run upwards from 0 to 1. */
  predicate Ladder(anchors: seq<Anchor>) {
    && |anchors| >= 2 && anchors[0].position == 0.0 && anchors[|anchors| - 1].position == 1.0
    && (forall i, j :: 0 <= i < j < |anchors| ==> anchors[i].position < anchors[j].position)
    && (forall i :: 0 <= i < |anchors| ==> 0 <= anchors[i].color.red <= 255 && 0 <= anchors[i].color.green <= 255
                                           && 0 <= anchors[i].color.blue <= 255 && anchors[i].color.alpha == 255)
  }

  function MapColor(anchors: seq<Anchor>, value: real): Color
    requires Ladder(anchors)
  {
    var s := Segment(anchors, value, 1);
    if s == |anchors| then anchors[|anchors| - 1].color
    else
      var a, b := anchors[s - 1], anchors[s];
      var fraction := Fraction(a, b, value);
      Opaque(Channel(a.color.red, b.color.red, fraction), Channel(a.color.green, b.color.green, fraction),
             Channel(a.color.blue, b.color.blue, fraction))
  }

  lemma AnchorsLadder(palette: Palette)
    requires palette != UndefinedPalette
    ensures Ladder(Anchors(palette))
  {
  }

  predicate Rising(anchors: seq<Anchor>, band: Band) {
    forall i, j :: 0 <= i < j < |anchors| ==> Level(anchors[i].color, band) <= Level(anchors[j].color, band)
  }

  lemma RisingBands()
    ensures Rising(Anchors(Viridis), Green)
    ensures Rising(Anchors(Cividis), Red) && Rising(Anchors(Cividis), Green)
  {
  }

  lemma ChannelBetween(a: int, b: int, fraction: real)
    requires 0 <= a <= b <= 255 && 0.0 <= fraction <= 1.0
    ensures a <= Channel(a, b, fraction) <= b
  {
    BlendBetween(a as real, b as real, fraction);
    hide Blend;
  }

  lemma ChannelMonotone(a: int, b: int, f: real, g: real)
    requires 0 <= a <= b <= 255 && 0.0 <= f <= g <= 1.0
    ensures Channel(a, b, f) <= Channel(a, b, g)
  {
    BlendBetween(a as real, b as real, f);
    BlendBetween(a as real, b as real, g);
    BlendMonotone(a as real, b as real, f, g);
    hide Blend;
  }

  lemma FractionUnit(a: Anchor, b: Anchor, v: real, w: real)
    requires a.position < b.position && a.position <= v <= w <= b.position
    ensures 0.0 <= Fraction(a, b, v) <= Fraction(a, b, w) <= 1.0
  {
    var range := b.position - a.position;
    QuotientUnit(v - a.position, range);
    QuotientUnit(w - a.position, range);
    QuotientMonotone(v - a.position, w - a.position, range);
  }

  /** A value of the unit interval falls between two neighbouring anchors. */
  lemma SegmentEncloses(anchors: seq<Anchor>, value: real)
    requires Ladder(anchors) && 0.0 <= value <= 1.0
    ensures var s := Segment(anchors, value, 1);
      0 < s < |anchors| && anchors[s - 1].position <= value <= anchors[s].position
  {
  }

  lemma LevelOf(anchors: seq<Anchor>, value: real, band: Band)
    requires Ladder(anchors) && 0.0 <= value <= 1.0
    ensures var s := Segment(anchors, value, 1);
      && 0 < s < |anchors|
      && Level(MapColor(anchors, value), band)
         == Channel(Level(anchors[s - 1].color, band), Level(anchors[s].color, band),
                    Fraction(anchors[s - 1], anchors[s], value))
  {
    hide Channel, Fraction;
    SegmentEncloses(anchors, value);
  }

  lemma LevelBetween(anchors: seq<Anchor>, value: real, band: Band)
    requires Ladder(anchors) && Rising(anchors, band) && 0.0 <= value <= 1.0
    ensures var s := Segment(anchors, value, 1);
      && 0 < s < |anchors|
      && Level(anchors[s - 1].color, band) <= Level(MapColor(anchors, value), band) <= Level(anchors[s].color, band)
  {
    hide MapColor, Channel, Fraction;
    SegmentEncloses(anchors, value);
    LevelOf(anchors, value, band);
    var s := Segment(anchors, value, 1);
    FractionUnit(anchors[s - 1], anchors[s], value, value);
    ChannelBetween(Level(anchors[s - 1].color, band), Level(anchors[s].color, band),
                   Fraction(anchors[s - 1], anchors[s], value));
  }

  /** A band whose anchors rise never falls as the value grows. */
  lemma MapMonotone(anchors: seq<Anchor>, v: real, w: real, band: Band)
    requires Ladder(anchors) && Rising(anchors, band) && 0.0 <= v <= w <= 1.0
    ensures Level(MapColor(anchors, v), band) <= Level(MapColor(anchors, w), band)
  {
    hide MapColor, Channel, Fraction, Level;
    var s, t := Segment(anchors, v, 1), Segment(anchors, w, 1);
    SegmentEncloses(anchors, v);
    SegmentEncloses(anchors, w);
    LevelBetween(anchors, v, band);
    LevelBetween(anchors, w, band);
    if s == t {
      LevelOf(anchors, v, band);
      LevelOf(anchors, w, band);
      FractionUnit(anchors[s - 1], anchors[s], v, w);
      BandRange(anchors, s, band);
      ChannelMonotone(Level(anchors[s - 1].color, band), Level(anchors[s].color, band),
                      Fraction(anchors[s - 1], anchors[s], v), Fraction(anchors[s - 1], anchors[s], w));
    } else {
      assert s < t;
      RisingPair(anchors, band, s, t - 1);
    }
  }

  lemma BandRange(anchors: seq<Anchor>, s: nat, band: Band)
    requires Ladder(anchors) && Rising(anchors, band) && 0 < s < |anchors|
    ensures 0 <= Level(anchors[s - 1].color, band) <= Level(anchors[s].color, band) <= 255
  {
  }

  lemma RisingPair(anchors: seq<Anchor>, band: Band, i: nat, j: nat)
    requires Rising(anchors, band) && i <= j < |anchors|
    ensures Level(anchors[i].color, band) <= Level(anchors[j].color, band)
  {
  }

  /** At an anchor's own position the map returns exactly the anchor's colour. */
  lemma MapHitsAnchors(anchors: seq<Anchor>, i: nat)
    requires Ladder(anchors) && i < |anchors|
    ensures MapColor(anchors, anchors[i].position) == anchors[i].color
  {
    hide Channel, Fraction, Ladder;
    AnchorSegment(anchors, i);
    var s := if i == 0 then 1 else i;
    FractionAtAnchor(anchors, i);
    AnchorRange(anchors, s - 1);
    AnchorRange(anchors, s);
    ChannelEnds(anchors[s - 1].color.red, anchors[s].color.red);
    ChannelEnds(anchors[s - 1].color.green, anchors[s].color.green);
    ChannelEnds(anchors[s - 1].color.blue, anchors[s].color.blue);
  }

  lemma AnchorSegment(anchors: seq<Anchor>, i: nat)
    requires Ladder(anchors) && i < |anchors|
    ensures |anchors| >= 2 && Segment(anchors, anchors[i].position, 1) == if i == 0 then 1 else i
  {
    var value := anchors[i].position;
    assert i > 0 ==> anchors[0].position < value;
    assert i < |anchors| - 1 ==> value < anchors[|anchors| - 1].position;
    SegmentEncloses(anchors, value);
  }

  lemma FractionAtAnchor(anchors: seq<Anchor>, i: nat)
    requires Ladder(anchors) && i < |anchors|
    ensures var s := if i == 0 then 1 else i;
      && 0 < s < |anchors| && anchors[s - 1].position < anchors[s].position
      && Fraction(anchors[s - 1], anchors[s], anchors[i].position) == if i == 0 then 0.0 else 1.0
  {
    var s := if i == 0 then 1 else i;
    FractionEnds(anchors[s - 1], anchors[s]);
  }

  lemma FractionEnds(a: Anchor, b: Anchor)
    requires a.position < b.position
    ensures Fraction(a, b, a.position) == 0.0 && Fraction(a, b, b.position) == 1.0
  {
    QuotientSelf(b.position - a.position);
    QuotientZero(b.position - a.position);
  }

  lemma AnchorRange(anchors: seq<Anchor>, i: nat)
    requires Ladder(anchors) && i < |anchors|
    ensures var c := anchors[i].color;
      0 <= c.red <= 255 && 0 <= c.green <= 255 && 0 <= c.blue <= 255 && c.alpha == 255
  {
  }

  lemma ChannelEnds(a: int, b: int)
    requires 0 <= a <= 255 && 0 <= b <= 255
    ensures Channel(a, b, 0.0) == a && Channel(a, b, 1.0) == b
  {
    assert Blend(a as real, b as real, 0.0) == a as real;
    assert Blend(a as real, b as real, 1.0) == b as real;
  }

  // ---- Building a legend ----

  function NormalizedNumber(value: Number, domain: Bounds): Number
    requires domain.minimum < domain.maximum
  {
    if value.Finite? then Finite(Normalized(value.value, domain)) else NaN
  }

  function ColorOf(value: Number, domain: Bounds, anchors: seq<Anchor>): Color
    requires domain.minimum < domain.maximum && Ladder(anchors)
  {
    if value.Finite? then MapColor(anchors, Normalized(value.value, domain)) else Transparent
  }

  function Tick(domain: Bounds, count: int, index: int): real
    requires count >= 2
  {
    domain.minimum + (domain.maximum - domain.minimum) * index as real / (count as real - 1.0)
  }

  /** What the loop has produced for the values seen so far. */
  predicate Mapped(values: seq<Number>, domain: Bounds, anchors: seq<Anchor>, legend: Legend)
    requires domain.minimum < domain.maximum && Ladder(anchors)
  {
    && |legend.normalized| == |values| && |legend.colors| == |values|
    && (forall i :: 0 <= i < |values| ==> legend.normalized[i] == NormalizedNumber(values[i], domain))
    && (forall i :: 0 <= i < |values| ==> legend.colors[i] == ColorOf(values[i], domain, anchors))
  }

  predicate Counted(values: seq<Number>, domain: Bounds, legend: Legend) {
    && legend.clippedLow == Tally(Finites(values), Below(Identity(), domain.minimum))
    && legend.clippedHigh == Tally(Finites(values), Above(Identity(), domain.maximum))
    && legend.nonFinite + |Finites(values)| == |values|
  }

  predicate Ticked(domain: Bounds, count: int, ticks: seq<real>)
    requires count >= 2
  {
    |ticks| == count && forall i :: 0 <= i < count ==> ticks[i] == Tick(domain, count, i)
  }

  method Build(values: seq<Number>, options: Options) returns (r: Result<Legend, LegendError>)
    ensures r.Failure? <==> Rejection(values, options).Some?
    ensures r.Failure? ==> Rejection(values, options) == Some(r.error)
    ensures r.Success? ==>
      var domain := Domain(values, options);
      && r.value.minimum == domain.minimum && r.value.maximum == domain.maximum && domain.minimum < domain.maximum
      && Ladder(Anchors(options.palette))
      && Mapped(values, domain, Anchors(options.palette), r.value)
      && Counted(values, domain, r.value)
      && Ticked(domain, options.tickCount, r.value.ticks)
  {
    hide Finites, SortBy, Quantile, Anchors, Ladder;
    if options.tickCount < 2 || options.tickCount > 64
       || !options.lower.Finite? || !options.upper.Finite?
       || options.lower.value < 0.0 || options.upper.value > 1.0 || options.lower.value >= options.upper.value {
      return Failure(OptionsOutOfRange);
    }
    var finite := Ascending(values);
    AscendingSorted(values);
    if finite == [] {
      return Failure(NoFiniteValue);
    }
    var raw: Bounds;
    match options.mode {
      case FullRange => raw := Bounds(finite[0], finite[|finite| - 1]);
      case Percentile => raw := Bounds(Quantile(finite, options.lower.value), Quantile(finite, options.upper.value));
      case Symmetric => raw := SymmetricBounds(finite);
      case Fixed =>
        if !options.minimum.Finite? || !options.maximum.Finite? || !(options.maximum.value > options.minimum.value) {
          return Failure(FixedBoundsInvalid);
        }
        raw := Bounds(options.minimum.value, options.maximum.value);
      case UndefinedMode => return Failure(OptionsOutOfRange);
    }
    if options.palette == UndefinedPalette {
      return Failure(PaletteOutOfRange);
    }
    var domain := Padded(raw);
    var anchors := Anchors(options.palette);
    DomainProper(values, options);
    AnchorsLadder(options.palette);
    var legend := MapValues(values, domain, anchors);
    var ticks := seq(options.tickCount, i requires 0 <= i < options.tickCount => Tick(domain, options.tickCount, i));
    return Success(legend.(ticks := ticks));
  }

  /** The loop over the values. */
  method MapValues(values: seq<Number>, domain: Bounds, anchors: seq<Anchor>) returns (legend: Legend)
    requires domain.minimum < domain.maximum && Ladder(anchors)
    ensures legend.minimum == domain.minimum && legend.maximum == domain.maximum
    ensures Mapped(values, domain, anchors, legend) && Counted(values, domain, legend)
  {
    hide Ladder, MapColor, Normalized, Mapped, Counted;
    var low: nat, high: nat, nonFinite: nat := 0, 0, 0;
    var normalized: seq<Number>, colors: seq<Color> := [], [];
    NothingMapped(domain, anchors);
    for i := 0 to |values|
      invariant Counted(values[..i], domain, Partial(domain, normalized, colors, low, high, nonFinite))
      invariant Mapped(values[..i], domain, anchors, Partial(domain, normalized, colors, low, high, nonFinite))
    {
      var value := values[i];
      assert values[..i + 1] == values[..i] + [value];
      MappedPush(values[..i], value, domain, anchors, Partial(domain, normalized, colors, low, high, nonFinite));
      if !value.Finite? {
        nonFinite := nonFinite + 1;
        normalized := normalized + [NaN];
        colors := colors + [Transparent];
      } else {
        if value.value < domain.minimum { low := low + 1; }
        if value.value > domain.maximum { high := high + 1; }
        var position := Normalized(value.value, domain);
        normalized := normalized + [Finite(position)];
        colors := colors + [MapColor(anchors, position)];
      }
    }
    assert values[..|values|] == values;
    legend := Partial(domain, normalized, colors, low, high, nonFinite);
  }

  function Partial(domain: Bounds, normalized: seq<Number>, colors: seq<Color>, low: nat, high: nat, nonFinite: nat): Legend {
    Legend(domain.minimum, domain.maximum, normalized, colors, [], low, high, nonFinite)
  }

  lemma NothingMapped(domain: Bounds, anchors: seq<Anchor>)
    requires domain.minimum < domain.maximum && Ladder(anchors)
    ensures Mapped([], domain, anchors, Partial(domain, [], [], 0, 0, 0))
    ensures Counted([], domain, Partial(domain, [], [], 0, 0, 0))
  {
  }

  /** One more value keeps both halves of the loop's promise. */
  lemma MappedPush(values: seq<Number>, value: Number, domain: Bounds, anchors: seq<Anchor>, legend: Legend)
    requires domain.minimum < domain.maximum && Ladder(anchors)
    requires Mapped(values, domain, anchors, legend) && Counted(values, domain, legend)
    ensures var next := legend.(
        normalized := legend.normalized + [NormalizedNumber(value, domain)],
        colors := legend.colors + [ColorOf(value, domain, anchors)],
        clippedLow := legend.clippedLow + (if value.Finite? && value.value < domain.minimum then 1 else 0),
        clippedHigh := legend.clippedHigh + (if value.Finite? && value.value > domain.maximum then 1 else 0),
        nonFinite := legend.nonFinite + (if value.Finite? then 0 else 1));
      Mapped(values + [value], domain, anchors, next) && Counted(values + [value], domain, next)
  {
    hide Ladder, MapColor, Normalized, Tally, Finites;
    FinitesPush(values, value, domain);
  }

  lemma FinitesPush(values: seq<Number>, value: Number, domain: Bounds)
    ensures var was, now := Finites(values), Finites(values + [value]);
      if value.Finite? then
        && |now| == |was| + 1
        && Tally(now, Below(Identity(), domain.minimum))
           == Tally(was, Below(Identity(), domain.minimum)) + (if value.value < domain.minimum then 1 else 0)
        && Tally(now, Above(Identity(), domain.maximum))
           == Tally(was, Above(Identity(), domain.maximum)) + (if value.value > domain.maximum then 1 else 0)
      else now == was
  {
    assert (values + [value])[..|values|] == values;
    if value.Finite? {
      var was := Finites(values);
      assert (was + [value.value])[..|was|] == was;
    }
  }

  // ---- What a built legend promises ----

  /** Larger values never get smaller normalised values, and distinct values inside the
      domain stay distinct. */
  lemma LegendKeepsOrder(values: seq<Number>, domain: Bounds, anchors: seq<Anchor>, legend: Legend, i: nat, j: nat)
    requires domain.minimum < domain.maximum && Ladder(anchors) && Mapped(values, domain, anchors, legend)
    requires i < |values| && j < |values| && values[i].Finite? && values[j].Finite?
    ensures legend.normalized[i].Finite? && legend.normalized[j].Finite?
    ensures 0.0 <= legend.normalized[i].value <= 1.0
    ensures values[i].value <= values[j].value ==> legend.normalized[i].value <= legend.normalized[j].value
    ensures domain.minimum <= values[i].value < values[j].value <= domain.maximum
            ==> legend.normalized[i].value < legend.normalized[j].value
  {
    hide Normalized, Ladder;
    NormalizedOrder(values[i].value, values[j].value, domain);
  }

  /** On a band whose anchors rise, larger values never get a darker colour. */
  lemma LegendColoursKeepOrder(values: seq<Number>, domain: Bounds, anchors: seq<Anchor>, legend: Legend,
                               band: Band, i: nat, j: nat)
    requires domain.minimum < domain.maximum && Ladder(anchors) && Mapped(values, domain, anchors, legend)
    requires Rising(anchors, band)
    requires i < |values| && j < |values| && values[i].Finite? && values[j].Finite?
    requires values[i].value <= values[j].value
    ensures Level(legend.colors[i], band) <= Level(legend.colors[j], band)
  {
    hide Normalized, Ladder, Rising, MapColor, Level;
    NormalizedOrder(values[i].value, values[j].value, domain);
    NormalizedOrder(values[j].value, values[j].value, domain);
    MapMonotone(anchors, Normalized(values[i].value, domain), Normalized(values[j].value, domain), band);
  }

  lemma InRange(values: seq<Number>, x: real)
    requires x in Finites(values)
    ensures var sorted := Ascending(values); sorted[0] <= x <= sorted[|sorted| - 1]
  {
    var sorted := Ascending(values);
    AscendingSorted(values);
    SortByMembers(Finites(values), Identity(), x);
    var i :| 0 <= i < |sorted| && sorted[i] == x;
    SortedPair(sorted, 0, i);
    SortedPair(sorted, i, |sorted| - 1);
  }

  /** Clipping: none outside percentile and fixed mode; in percentile mode at most as many
      values as the quantile positions leave outside. */
  lemma ClipCounts(values: seq<Number>, options: Options)
    requires Rejection(values, options) == None
    ensures var data, domain := Finites(values), Domain(values, options);
      var low, high := Tally(data, Below(Identity(), domain.minimum)), Tally(data, Above(Identity(), domain.maximum));
      && (options.mode == FullRange || options.mode == Symmetric ==> low == 0 && high == 0)
      && (options.mode == Percentile ==>
            && low <= Ceiling(QuantileIndex(|data|, options.lower.value))
            && high <= |data| - 1 - QuantileIndex(|data|, options.upper.value).Floor)
  {
    hide SortBy, Tally, Finites, QuantileIndex, Padded;
    DomainProper(values, options);
    if options.mode == Percentile {
      PercentileClips(values, options);
    } else if options.mode == FullRange || options.mode == Symmetric {
      NothingClipped(values, options);
    }
  }

  lemma NothingClipped(values: seq<Number>, options: Options)
    requires Rejection(values, options) == None && (options.mode == FullRange || options.mode == Symmetric)
    ensures var data, domain := Finites(values), Domain(values, options);
      Tally(data, Below(Identity(), domain.minimum)) == 0 && Tally(data, Above(Identity(), domain.maximum)) == 0
  {
    hide SortBy, Tally, Finites, Padded;
    DomainProper(values, options);
    AscendingSorted(values);
    var data, domain := Finites(values), Domain(values, options);
    forall i | 0 <= i < |data| ensures domain.minimum <= data[i] <= domain.maximum {
      InRange(values, data[i]);
    }
    TallyWithin(data, Below(Identity(), domain.minimum), 0, 0);
    TallyWithin(data, Above(Identity(), domain.maximum), 0, 0);
  }

  lemma PercentileClips(values: seq<Number>, options: Options)
    requires Rejection(values, options) == None && options.mode == Percentile
    ensures var data, domain := Finites(values), Domain(values, options);
      && Tally(data, Below(Identity(), domain.minimum)) <= Ceiling(QuantileIndex(|data|, options.lower.value))
      && Tally(data, Above(Identity(), domain.maximum))
         <= |data| - 1 - QuantileIndex(|data|, options.upper.value).Floor
  {
    hide SortBy, Tally, Finites, QuantileIndex, Padded, Interpolated;
    DomainProper(values, options);
    AscendingSorted(values);
    var data, sorted, domain := Finites(values), Ascending(values), Domain(values, options);
    var low, high := QuantileIndex(|data|, options.lower.value), QuantileIndex(|data|, options.upper.value);
    InterpolatedBetween(sorted, low);
    InterpolatedBetween(sorted, high);
    Ranks(data, Identity(), Ceiling(low));
    Ranks(data, Identity(), high.Floor);
    TallyImplies(data, Below(Identity(), domain.minimum), Below(Identity(), sorted[Ceiling(low)]));
    TallyImplies(data, Above(Identity(), domain.maximum), Above(Identity(), sorted[high.Floor]));
  }

  /** Ticks run from the minimum to the maximum in equal steps upwards. */
  lemma TicksSpan(domain: Bounds, count: int, ticks: seq<real>)
    requires domain.minimum < domain.maximum && count >= 2 && Ticked(domain, count, ticks)
    ensures ticks[0] == domain.minimum && ticks[count - 1] == domain.maximum
    ensures forall i, j :: 0 <= i < j < count ==>
      ticks[i] < ticks[j] && ticks[j] - ticks[i] == (j - i) as real * TickStep(domain, count)
  {
    hide Tick, TickStep;
    TickEnds(domain, count);
    forall i, j | 0 <= i < j < count
      ensures ticks[i] < ticks[j] && ticks[j] - ticks[i] == (j - i) as real * TickStep(domain, count)
    {
      TickPair(domain, count, i, j);
    }
  }

  lemma TickEnds(domain: Bounds, count: int)
    requires count >= 2
    ensures Tick(domain, count, 0) == domain.minimum && Tick(domain, count, count - 1) == domain.maximum
  {
    TickAt(domain, count, 0);
    TickAt(domain, count, count - 1);
    DivideBack(domain.maximum - domain.minimum, count as real - 1.0);
  }

  lemma TickPair(domain: Bounds, count: int, i: int, j: int)
    requires domain.minimum < domain.maximum && count >= 2 && i < j
    ensures Tick(domain, count, i) < Tick(domain, count, j)
    ensures Tick(domain, count, j) - Tick(domain, count, i) == (j - i) as real * TickStep(domain, count)
  {
    StepPositive(domain, count);
    TickAt(domain, count, i);
    TickAt(domain, count, j);
    hide Tick, TickStep;
    RealDistribute(j as real, i as real, TickStep(domain, count));
    RealMonotone(i as real, j as real, TickStep(domain, count));
  }

  lemma StepPositive(domain: Bounds, count: int)
    requires domain.minimum < domain.maximum && count >= 2
    ensures TickStep(domain, count) > 0.0
  {
    QuotientMonotone(0.0, domain.maximum - domain.minimum, count as real - 1.0);
  }

  function TickStep(domain: Bounds, count: int): real
    requires count >= 2
  {
    (domain.maximum - domain.minimum) / (count as real - 1.0)
  }

  lemma TickAt(domain: Bounds, count: int, i: int)
    requires count >= 2
    ensures Tick(domain, count, i)
         == domain.minimum + i as real * TickStep(domain, count)
  {
    ProductQuotient(domain.maximum - domain.minimum, i as real, count as real - 1.0);
  }
}
