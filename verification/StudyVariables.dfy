/** Design variables: which values they allow, and why every value the optimizer generates is
    one of them. */
module StudyVariables {
  import opened StudyBatch

  datatype Kind = Continuous | Integer | Categorical

  datatype Variable = Variable(kind: Kind, lower: real, upper: real)

  predicate Whole(x: real) {
    x == x.Floor as real
  }

  /** What the constructor of a variable accepts. */
  predicate ValidVariable(v: Variable) {
    && v.lower < v.upper
    && (v.kind == Categorical ==> v.lower == 0.0 && Whole(v.upper) && v.upper <= 4_294_967_295.0)
    && (v.kind == Integer ==> Whole(v.lower) && Whole(v.upper))
  }

  predicate ValidVariables(variables: seq<Variable>) {
    forall j :: 0 <= j < |variables| ==> ValidVariable(variables[j])
  }

  function Clamped(x: real, low: real, high: real): real {
    if x < low then low else if x > high then high else x
  }

  /** To the nearest whole number, halves away from zero. */
  function Rounded(x: real): real {
    if x >= 0.0 then (x + 0.5).Floor as real else -((-x + 0.5).Floor as real)
  }

  function Canonical(v: Variable, x: real): real {
    var clamped := Clamped(x, v.lower, v.upper);
    if v.kind == Continuous then clamped else Rounded(clamped)
  }

  /** What validation of a candidate accepts. */
  predicate Allowed(v: Variable, d: Double) {
    && d.Finite? && v.lower <= d.value <= v.upper
    && (v.kind != Continuous ==> Whole(d.value))
  }

  /** The nearest whole number stays between whole bounds. */
  lemma NearestBetween(x: real, nearest: int, low: int, high: int)
    requires nearest as real <= x + 0.5 < nearest as real + 1.0 && low as real <= x <= high as real
    ensures low <= nearest <= high
  {
  }

  lemma WholeIs(n: int)
    ensures Whole(n as real)
  {
    assert (n as real).Floor == n;
  }

  /** The whole number next to the magnitude, halves upwards. */
  lemma RoundedNearest(x: real) returns (n: int)
    ensures Rounded(x) == if x >= 0.0 then n as real else -(n as real)
    ensures var magnitude := if x >= 0.0 then x else -x;
      n as real <= magnitude + 0.5 < n as real + 1.0
  {
    n := if x >= 0.0 then (x + 0.5).Floor else (-x + 0.5).Floor;
  }

  lemma RoundedBetween(x: real, low: real, high: real)
    requires Whole(low) && Whole(high) && low <= x <= high
    ensures low <= Rounded(x) <= high && Whole(Rounded(x))
    ensures Whole(x) ==> Rounded(x) == x
  {
    hide Rounded;
    var n := RoundedNearest(x);
    var l, h := low.Floor, high.Floor;
    if x >= 0.0 {
      NearestBetween(x, n, l, h);
      WholeIs(n);
      if Whole(x) { NearestBetween(x, n, x.Floor, x.Floor); }
    } else {
      NearestBetween(-x, n, -h, -l);
      WholeIs(-n);
      if Whole(x) { NearestBetween(-x, n, -x.Floor, -x.Floor); }
    }
  }

  /** Canonical values are allowed, and exactly the allowed ones are canonical already. */
  lemma CanonicalAllowed(v: Variable, x: real)
    requires ValidVariable(v)
    ensures Allowed(v, Finite(Canonical(v, x)))
    ensures Canonical(v, x) == x <==> Allowed(v, Finite(x))
  {
    hide Rounded, Whole;
    if v.kind != Continuous {
      WholeIs(0);
      RoundedBetween(Clamped(x, v.lower, v.upper), v.lower, v.upper);
    }
  }

  /** A variable is accepted exactly if its bounds are two increasing values that it allows; a
      categorical one counts its levels from zero, and there are at most 2^32 of them. */
  lemma VariableAcceptedIff(v: Variable)
    ensures ValidVariable(v)
      <==> && v.lower < v.upper && Allowed(v, Finite(v.lower)) && Allowed(v, Finite(v.upper))
           && (v.kind == Categorical ==> v.lower == 0.0 && v.upper < 4_294_967_296.0)
  {
    WholeIs(0);
    if v.kind == Categorical && Whole(v.upper) && v.upper < 4_294_967_296.0 {
      assert v.upper.Floor < 4_294_967_296;
    }
  }

  function Distance(x: real, y: real): real {
    if x < y then y - x else x - y
  }

  /** No whole number is nearer than the rounded one, and one as near is nearer to zero. */
  lemma RoundedIsNearest(x: real, y: real)
    requires Whole(y)
    ensures Distance(x, Rounded(x)) <= Distance(x, y)
    ensures Distance(x, Rounded(x)) == Distance(x, y) && y != Rounded(x)
            ==> Distance(y, 0.0) < Distance(Rounded(x), 0.0)
  {
    hide Rounded;
    var n := RoundedNearest(x);
    var m := y.Floor;
    if x >= 0.0 {
      if m <= n - 1 { assert m as real <= n as real - 1.0; }
      if m >= n + 1 { assert m as real >= n as real + 1.0; }
    } else {
      if m <= -n - 1 { assert m as real <= -(n as real) - 1.0; }
      if m >= -n + 1 { assert m as real >= -(n as real) + 1.0; }
    }
  }

  lemma NearestOrdered(x: real, n: int, y: real, m: int)
    requires x <= y && n as real <= x + 0.5 < n as real + 1.0 && m as real <= y + 0.5 < m as real + 1.0
    ensures n as real <= m as real
  {
    assert n < m + 1;
  }

  lemma RoundedMonotone(x: real, y: real)
    requires x <= y
    ensures Rounded(x) <= Rounded(y)
  {
    hide Rounded;
    var n := RoundedNearest(x);
    var m := RoundedNearest(y);
    if x >= 0.0 {
      NearestOrdered(x, n, y, m);
    } else if y < 0.0 {
      NearestOrdered(-y, m, -x, n);
    } else {
      NearestOrdered(0.0, 0, -x, n);
      NearestOrdered(0.0, 0, y, m);
    }
  }

  /** Making a value canonical picks a nearest allowed one, the one further from zero when two are
      equally near. */
  lemma CanonicalNearest(v: Variable, x: real, y: real)
    requires ValidVariable(v) && Allowed(v, Finite(y))
    ensures Distance(x, Canonical(v, x)) <= Distance(x, y)
    ensures Distance(x, Canonical(v, x)) == Distance(x, y) && y != Canonical(v, x)
            ==> Distance(y, 0.0) < Distance(Canonical(v, x), 0.0)
  {
    hide Rounded, Whole;
    if v.kind != Continuous {
      WholeIs(0);
      var clamped := Clamped(x, v.lower, v.upper);
      RoundedBetween(clamped, v.lower, v.upper);
      RoundedIsNearest(x, y);
    }
  }

  /** And it never reverses the order of two values. */
  lemma CanonicalMonotone(v: Variable, x: real, y: real)
    requires ValidVariable(v) && x <= y
    ensures Canonical(v, x) <= Canonical(v, y)
  {
    hide Rounded;
    RoundedMonotone(Clamped(x, v.lower, v.upper), Clamped(y, v.lower, v.upper));
  }

  /** Where one value of a new candidate comes from: a member of the population, a number made
      canonical, or a drawn categorical level. */
  datatype Component = Inherited(parent: nat) | Drawn(raw: real) | Level(level: nat)

  predicate AllowedRow(variables: seq<Variable>, parameters: seq<Double>) {
    |parameters| == |variables| && forall j :: 0 <= j < |variables| ==> Allowed(variables[j], parameters[j])
  }

  predicate AllowedBatch(variables: seq<Variable>, batch: seq<Candidate>) {
    forall i :: 0 <= i < |batch| ==> AllowedRow(variables, batch[i].parameters)
  }

  predicate Proposable(v: Variable, population: seq<Candidate>, component: Component) {
    match component
    case Inherited(parent) => parent < |population|
    case Drawn(_) => true
    case Level(level) => v.kind == Categorical && level as real <= v.upper
  }

  predicate ProposableRow(variables: seq<Variable>, population: seq<Candidate>, row: seq<Component>) {
    |row| == |variables| && forall j :: 0 <= j < |row| ==> Proposable(variables[j], population, row[j])
  }

  function Proposed(v: Variable, population: seq<Candidate>, j: nat, component: Component): Double
    requires Proposable(v, population, component)
    requires forall i :: 0 <= i < |population| ==> j < |population[i].parameters|
  {
    match component
    case Inherited(parent) => population[parent].parameters[j]
    case Drawn(raw) => Finite(Canonical(v, raw))
    case Level(level) => Finite(level as real)
  }

  /** Nothing allowed is out of reach: each allowed value is its own canonical form and, for a
      categorical variable, its own level; an inherited one is the parent's value of that
      variable. */
  lemma AllowedReachable(v: Variable, population: seq<Candidate>, j: nat, d: Double)
    requires ValidVariable(v) && Allowed(v, d)
    requires forall i :: 0 <= i < |population| ==> j < |population[i].parameters|
    ensures Proposed(v, population, j, Drawn(d.value)) == d
    ensures v.kind == Categorical ==> d.value.Floor >= 0 && Proposable(v, population, Level(d.value.Floor))
                                      && Proposed(v, population, j, Level(d.value.Floor)) == d
    ensures forall i: nat :: i < |population| && population[i].parameters[j] == d
                             ==> Proposed(v, population, j, Inherited(i)) == d
  {
    hide Rounded, Canonical;
    CanonicalAllowed(v, d.value);
  }

  function ProposedRow(variables: seq<Variable>, population: seq<Candidate>, row: seq<Component>): (parameters: seq<Double>)
    requires ProposableRow(variables, population, row) && AllowedBatch(variables, population)
    ensures |parameters| == |row|
  {
    assert forall i :: 0 <= i < |population| ==> AllowedRow(variables, population[i].parameters);
    seq(|row|, j requires 0 <= j < |row| => Proposed(variables[j], population, j, row[j]))
  }

  /** Whatever the search draws, inherits or mixes, the row is allowed. */
  lemma ProposedAllowed(variables: seq<Variable>, population: seq<Candidate>, row: seq<Component>)
    requires ValidVariables(variables) && AllowedBatch(variables, population) && ProposableRow(variables, population, row)
    ensures AllowedRow(variables, ProposedRow(variables, population, row))
  {
    var parameters := ProposedRow(variables, population, row);
    forall j | 0 <= j < |variables| ensures Allowed(variables[j], parameters[j]) {
      match row[j]
      case Inherited(parent) => assert AllowedRow(variables, population[parent].parameters);
      case Drawn(raw) => CanonicalAllowed(variables[j], raw);
      case Level(level) => assert (level as real).Floor == level;
    }
  }
}
