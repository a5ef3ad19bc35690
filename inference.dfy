/**
 * A Mamdani inference stage: fuzzify the crisp inputs, take the minimum over each
 * rule's antecedent (AND), clip the consequent term at that strength (implication
 * by min), combine the clipped sets by pointwise maximum (aggregation), and reduce
 * the aggregate to one crisp value by its centroid over the sampled output universe.
 */
module Inference {
  import opened Membership
  import opened Outcomes

  /** A named fuzzy term of a linguistic variable. */
  datatype Term = Term(name: string, mf: MF)

  /**
   * A linguistic variable: its name, its universe as an increasing array of
   * sample values (the first and last are the ends of the universe), and its
   * terms, indexed from 0.
   */
  datatype Variable = Variable(name: string, universe: seq<real>, terms: seq<Term>)

  /** One conjunct of a rule: input number `input` is its term number `term`. */
  datatype Clause = Is(input: nat, term: nat)

  /** If every clause of `antecedent` holds, the output is its term number `consequent`. */
  datatype Rule = Rule(antecedent: seq<Clause>, consequent: nat)

  /** Antecedent variables in input order, the consequent variable, and the ordered rule base. */
  datatype Stage = Stage(inputs: seq<Variable>, output: Variable, rules: seq<Rule>)

  /** `n` equally spaced values from lo to hi, both included (numpy's linspace). */
  function Linspace(lo: real, hi: real, n: nat): (u: seq<real>)
    requires lo < hi && 2 <= n
    ensures |u| == n && u[0] == lo && u[n - 1] == hi
    ensures forall k :: 0 <= k < n ==> lo <= u[k] <= hi
  {
    seq(n, k requires 0 <= k < n => LinspacePoint(lo, hi, n, k))
  }

  function LinspacePoint(lo: real, hi: real, n: nat, k: nat): (y: real)
    requires lo < hi && 2 <= n && k < n
    ensures lo <= y <= hi
    ensures k == 0 ==> y == lo
    ensures k == n - 1 ==> y == hi
  {
    var t := Ratio(k as real, (n - 1) as real);
    ScaleWithin(t, hi - lo);
    lo + t * (hi - lo)
  }

  /** Sample k of the linspace is lo + k * (hi - lo) / (n - 1). */
  lemma LinspaceSample(lo: real, hi: real, n: nat, k: nat)
    requires lo < hi && 2 <= n && k < n
    ensures Linspace(lo, hi, n)[k] == lo + (k as real) * (hi - lo) / ((n - 1) as real)
  {
  }

  /**
   * The samples are evenly spaced: neighbours are (hi - lo) / (n - 1) apart, so
   * the universe is strictly increasing.
   */
  lemma LinspaceEvenlySpaced(lo: real, hi: real, n: nat)
    requires lo < hi && 2 <= n
    ensures forall k :: 0 <= k < n - 1 ==> Linspace(lo, hi, n)[k + 1] - Linspace(lo, hi, n)[k] == (hi - lo) / ((n - 1) as real)
    ensures forall j, k :: 0 <= j < k < n ==> Linspace(lo, hi, n)[j] < Linspace(lo, hi, n)[k]
  {
    forall k | 0 <= k < n - 1
      ensures Linspace(lo, hi, n)[k + 1] - Linspace(lo, hi, n)[k] == (hi - lo) / ((n - 1) as real)
    {
      LinspaceGap(lo, hi, n, k, k + 1);
    }
    forall j, k | 0 <= j < k < n ensures Linspace(lo, hi, n)[j] < Linspace(lo, hi, n)[k] {
      LinspaceGap(lo, hi, n, j, k);
      assert 0.0 < (hi - lo) / ((n - 1) as real);
    }
  }

  /** Samples j and k lie k - j steps of (hi - lo) / (n - 1) apart. */
  lemma LinspaceGap(lo: real, hi: real, n: nat, j: nat, k: nat)
    requires lo < hi && 2 <= n && j <= k < n
    ensures Linspace(lo, hi, n)[k] - Linspace(lo, hi, n)[j] == (k - j) as real * ((hi - lo) / ((n - 1) as real))
  {
    var w, step := (n - 1) as real, (hi - lo) / ((n - 1) as real);
    LinspaceSample(lo, hi, n, j);
    LinspaceSample(lo, hi, n, k);
    assert (j as real) * (hi - lo) / w == (j as real) * step;
    assert (k as real) * (hi - lo) / w == (k as real) * step;
    assert (k as real) * step - (j as real) * step == (k - j) as real * step;
  }

  lemma ScaleWithin(t: real, w: real)
    requires 0.0 <= t <= 1.0 && 0.0 <= w
    ensures 0.0 <= t * w <= w
  {
  }

  function Lo(v: Variable): real
    requires 0 < |v.universe|
  {
    v.universe[0]
  }

  function Hi(v: Variable): real
    requires 0 < |v.universe|
  {
    v.universe[|v.universe| - 1]
  }

  predicate ValidVariable(v: Variable) {
    && 2 <= |v.universe|
    && Lo(v) < Hi(v)
    && (forall k :: 0 <= k < |v.universe| ==> Lo(v) <= v.universe[k] <= Hi(v))
    && (forall t | t in v.terms :: WellFormed(t.mf))
  }

  /** The clause names an existing input and one of that input's terms. */
  predicate ValidClause(inputs: seq<Variable>, c: Clause) {
    c.input < |inputs| && c.term < |inputs[c.input].terms|
  }

  predicate ValidRule(s: Stage, r: Rule) {
    (forall c | c in r.antecedent :: ValidClause(s.inputs, c)) && r.consequent < |s.output.terms|
  }

  /** Every variable is well formed and every rule refers only to terms that exist. */
  predicate Valid(s: Stage) {
    && (forall v | v in s.inputs :: ValidVariable(v))
    && ValidVariable(s.output)
    && (forall r | r in s.rules :: ValidRule(s, r))
  }

  function Min(x: real, y: real): real {
    if x <= y then x else y
  }

  function Max(x: real, y: real): real {
    if x <= y then y else x
  }

  // ---------------------------------------------------------------------------
  // Fuzzification: a table of degrees, d[i][t] for input i and its term t.

  /** Every entry of the table is a degree in [0, 1]. */
  predicate UnitTable(d: seq<seq<real>>) {
    forall i, t :: 0 <= i < |d| && 0 <= t < |d[i]| ==> 0.0 <= d[i][t] <= 1.0
  }

  /** The degree of each term of each input at the crisp inputs xs (one per input). */
  function Fuzzify(s: Stage, xs: seq<real>): (d: seq<seq<real>>)
    requires |xs| == |s.inputs|
    ensures |d| == |s.inputs|
    ensures forall i :: 0 <= i < |d| ==> |d[i]| == |s.inputs[i].terms|
    ensures forall i, t :: 0 <= i < |d| && 0 <= t < |d[i]| ==> d[i][t] == Degree(s.inputs[i].terms[t].mf, xs[i])
    ensures UnitTable(d)
  {
    seq(|s.inputs|, i requires 0 <= i < |s.inputs| =>
      seq(|s.inputs[i].terms|, t requires 0 <= t < |s.inputs[i].terms| => Degree(s.inputs[i].terms[t].mf, xs[i])))
  }

  /** Each consequent term sampled on the consequent's universe: o[t][k]. */
  function SampleTerms(v: Variable): (o: seq<seq<real>>)
    ensures |o| == |v.terms|
    ensures forall t :: 0 <= t < |o| ==> |o[t]| == |v.universe|
    ensures forall t, k :: 0 <= t < |o| && 0 <= k < |o[t]| ==> o[t][k] == Degree(v.terms[t].mf, v.universe[k])
    ensures UnitTable(o)
  {
    seq(|v.terms|, t requires 0 <= t < |v.terms| =>
      seq(|v.universe|, k requires 0 <= k < |v.universe| => Degree(v.terms[t].mf, v.universe[k])))
  }

  // ---------------------------------------------------------------------------
  // Rule evaluation over a degree table.

  /** The clause indexes an existing entry of the degree table. */
  predicate Fits(d: seq<seq<real>>, c: Clause) {
    c.input < |d| && c.term < |d[c.input]|
  }

  predicate AllFit(d: seq<seq<real>>, ante: seq<Clause>) {
    forall c | c in ante :: Fits(d, c)
  }

  /** Degree of one clause, read from the table. */
  function ClauseDegree(d: seq<seq<real>>, c: Clause): real
    requires Fits(d, c)
  {
    d[c.input][c.term]
  }

  /** Firing strength of a conjunction: the minimum of its clauses' degrees (1 for no clause). */
  function Strength(d: seq<seq<real>>, ante: seq<Clause>): (r: real)
    requires AllFit(d, ante) && UnitTable(d)
    ensures 0.0 <= r <= 1.0
    ensures forall i :: 0 <= i < |ante| ==> r <= ClauseDegree(d, ante[i])
    ensures |ante| == 0 ==> r == 1.0
    ensures 0 < |ante| ==> exists i :: 0 <= i < |ante| && r == ClauseDegree(d, ante[i])
    decreases |ante|
  {
    if |ante| == 0 then 1.0
    else
      assert Fits(d, ante[0]) by { assert ante[0] in ante; }
      assert forall i :: 1 <= i < |ante| ==> ante[i] == ante[1..][i - 1];
      var rest := Strength(d, ante[1..]);
      var r := Min(ClauseDegree(d, ante[0]), rest);
      assert exists i :: 0 <= i < |ante| && r == ClauseDegree(d, ante[i]) by {
        if r != ClauseDegree(d, ante[0]) {
          var j :| 0 <= j < |ante| - 1 && rest == ClauseDegree(d, ante[1..][j]);
          assert r == ClauseDegree(d, ante[j + 1]);
        }
      }
      r
  }

  /** A conjunction fires (positive strength) exactly when every one of its clauses has a positive degree. */
  lemma StrengthPositive(d: seq<seq<real>>, ante: seq<Clause>)
    requires AllFit(d, ante) && UnitTable(d)
    ensures 0.0 < Strength(d, ante) <==> forall i :: 0 <= i < |ante| ==> 0.0 < ClauseDegree(d, ante[i])
  {
  }

  /** The rules read only existing table entries and name existing consequent terms. */
  predicate RulesFit(d: seq<seq<real>>, rules: seq<Rule>, o: seq<seq<real>>) {
    forall r | r in rules :: AllFit(d, r.antecedent) && r.consequent < |o|
  }

  /** Sampled consequent table o with n samples per term. */
  predicate Rectangular(o: seq<seq<real>>, n: nat) {
    forall t :: 0 <= t < |o| ==> |o[t]| == n
  }

  /** Rule i's implied output set at sample k: its consequent term clipped at its strength. */
  function Implied(d: seq<seq<real>>, rules: seq<Rule>, o: seq<seq<real>>, n: nat, i: nat, k: nat): (r: real)
    requires UnitTable(d) && UnitTable(o)
    requires RulesFit(d, rules, o) && Rectangular(o, n) && i < |rules| && k < n
    ensures 0.0 <= r <= 1.0
  {
    assert rules[i] in rules;
    Min(Strength(d, rules[i].antecedent), o[rules[i].consequent][k])
  }

  /** The pointwise maximum at sample k of the implied sets of the first m rules (0 for none). */
  function AggregateAt(d: seq<seq<real>>, rules: seq<Rule>, o: seq<seq<real>>, n: nat, k: nat, m: nat): (r: real)
    requires UnitTable(d) && UnitTable(o)
    requires RulesFit(d, rules, o) && Rectangular(o, n) && k < n && m <= |rules|
    ensures 0.0 <= r <= 1.0
    ensures forall i :: 0 <= i < m ==> Implied(d, rules, o, n, i, k) <= r
    ensures m == 0 ==> r == 0.0
    ensures 0 < m ==> exists i :: 0 <= i < m && r == Implied(d, rules, o, n, i, k)
  {
    if m == 0 then 0.0
    else
      var before := AggregateAt(d, rules, o, n, k, m - 1);
      var r := Max(before, Implied(d, rules, o, n, m - 1, k));
      assert exists i :: 0 <= i < m && r == Implied(d, rules, o, n, i, k) by {
        if r != Implied(d, rules, o, n, m - 1, k) {
          var j :| 0 <= j < m - 1 && before == Implied(d, rules, o, n, j, k);
        }
      }
      r
  }

  /** The aggregated output set, one value per sample of the consequent universe. */
  function Aggregate(d: seq<seq<real>>, rules: seq<Rule>, o: seq<seq<real>>, n: nat): (mu: seq<real>)
    requires UnitTable(d) && UnitTable(o)
    requires RulesFit(d, rules, o) && Rectangular(o, n)
    ensures |mu| == n
    ensures forall k :: 0 <= k < n ==> mu[k] == AggregateAt(d, rules, o, n, k, |rules|)
  {
    seq(n, k requires 0 <= k < n => AggregateAt(d, rules, o, n, k, |rules|))
  }

  // ---------------------------------------------------------------------------
  // Centroid defuzzification over samples ys with degrees mu.

  predicate NonNegative(mu: seq<real>) {
    forall k :: 0 <= k < |mu| ==> 0.0 <= mu[k]
  }

  /** Sum of the degrees. */
  function Mass(mu: seq<real>): (m: real)
    requires NonNegative(mu)
    ensures 0.0 <= m
  {
    if |mu| == 0 then 0.0
    else
      assert NonNegative(mu[1..]);
      mu[0] + Mass(mu[1..])
  }

  /** The mass is zero exactly when every degree is zero. */
  lemma {:induction false} MassZero(mu: seq<real>)
    requires NonNegative(mu)
    ensures Mass(mu) == 0.0 <==> forall k :: 0 <= k < |mu| ==> mu[k] == 0.0
  {
    if 0 < |mu| {
      assert NonNegative(mu[1..]);
      MassZero(mu[1..]);
      assert forall k :: 1 <= k < |mu| ==> mu[k] == mu[1..][k - 1];
    }
  }

  /** Sum of each sample times its degree. */
  function Moment(ys: seq<real>, mu: seq<real>): real
    requires |ys| == |mu|
  {
    if |mu| == 0 then 0.0 else ys[0] * mu[0] + Moment(ys[1..], mu[1..])
  }

  /** Net turning moment of the degrees about the point c: the sum of (y - c) times the degree at y. */
  function Torque(ys: seq<real>, mu: seq<real>, c: real): real
    requires |ys| == |mu|
  {
    if |mu| == 0 then 0.0 else (ys[0] - c) * mu[0] + Torque(ys[1..], mu[1..], c)
  }

  /**
   * The centroid sum(y * mu) / sum(mu) of the sampled set, or NoRuleFired when
   * the set is zero at every sample (the division would be by zero).
   */
  function Centroid(ys: seq<real>, mu: seq<real>): (r: Result<real>)
    requires |ys| == |mu| && NonNegative(mu)
    ensures r.Failure? <==> forall k :: 0 <= k < |mu| ==> mu[k] == 0.0
    ensures r.Failure? ==> r.error == NoRuleFired
    ensures r.Success? ==> Torque(ys, mu, r.value) == 0.0
  {
    var mass := Mass(mu);
    MassZero(mu);
    if mass == 0.0 then Failure(NoRuleFired)
    else
      var c := Moment(ys, mu) / mass;
      TorqueDecomposes(ys, mu, c);
      QuotientScales(Moment(ys, mu), mass);
      Success(c)
  }

  lemma QuotientScales(num: real, den: real)
    requires den != 0.0
    ensures num / den * den == num
  {
  }

  /** The torque about c is the moment less c times the mass. */
  lemma {:induction false} TorqueDecomposes(ys: seq<real>, mu: seq<real>, c: real)
    requires |ys| == |mu| && NonNegative(mu)
    ensures Torque(ys, mu, c) == Moment(ys, mu) - c * Mass(mu)
  {
    if 0 < |mu| {
      assert NonNegative(mu[1..]);
      TorqueDecomposes(ys[1..], mu[1..], c);
      assert (ys[0] - c) * mu[0] == ys[0] * mu[0] - c * mu[0];
      assert c * Mass(mu) == c * mu[0] + c * Mass(mu[1..]);
    }
  }

  /**
   * If the degrees vanish at every sample outside [p, q], the set turns one way
   * about p and the other way about q.
   */
  lemma {:induction false} TorqueWithinSupport(ys: seq<real>, mu: seq<real>, p: real, q: real)
    requires |ys| == |mu| && NonNegative(mu)
    requires forall k :: 0 <= k < |mu| && 0.0 < mu[k] ==> p <= ys[k] <= q
    ensures 0.0 <= Torque(ys, mu, p)
    ensures Torque(ys, mu, q) <= 0.0
  {
    if 0 < |mu| {
      assert NonNegative(mu[1..]);
      TorqueWithinSupport(ys[1..], mu[1..], p, q);
      WeightedBetween(p, ys[0], q, mu[0]);
      var a, b := (ys[0] - p) * mu[0], (ys[0] - q) * mu[0];
      assert 0.0 <= a && b <= 0.0;
      assert Torque(ys, mu, p) == a + Torque(ys[1..], mu[1..], p);
      assert Torque(ys, mu, q) == b + Torque(ys[1..], mu[1..], q);
    }
  }

  /** A sample's weighted offsets from p and q have opposite signs, or both vanish. */
  lemma WeightedBetween(p: real, y: real, q: real, mu: real)
    requires 0.0 <= mu && (0.0 < mu ==> p <= y <= q)
    ensures 0.0 <= (y - p) * mu && (y - q) * mu <= 0.0
  {
    if 0.0 < mu {
      NonNegativeProduct(y - p, mu);
      NonNegativeProduct(q - y, mu);
      assert (y - q) * mu == -((q - y) * mu);
    } else {
      assert mu == 0.0;
      assert (y - p) * 0.0 == 0.0 && (y - q) * 0.0 == 0.0;
    }
  }

  lemma NonNegativeProduct(a: real, b: real)
    requires 0.0 <= a && 0.0 <= b
    ensures 0.0 <= a * b
  {
  }

  lemma MultiplyBetween(p: real, y: real, q: real, mu: real)
    requires p <= y <= q && 0.0 <= mu
    ensures p * mu <= y * mu <= q * mu
  {
  }

  lemma QuotientWithin(num: real, den: real, p: real, q: real)
    requires 0.0 < den && p * den <= num <= q * den
    ensures p <= num / den <= q
  {
    var c := num / den;
    QuotientScales(num, den);
    if c < p {
      MultiplyBetween(c, c, p, den);
    }
  }

  /**
   * The centroid is the one balance point of the sampled set: the only point
   * about which the degrees have zero net torque.
   */
  lemma CentroidIsBalancePoint(ys: seq<real>, mu: seq<real>, c: real)
    requires |ys| == |mu| && NonNegative(mu) && Centroid(ys, mu).Success?
    ensures Torque(ys, mu, c) == 0.0 <==> c == Centroid(ys, mu).value
  {
    var mass, moment := Mass(mu), Moment(ys, mu);
    var g := Centroid(ys, mu).value;
    assert g == moment / mass;
    TorqueDecomposes(ys, mu, c);
    QuotientScales(moment, mass);
    assert Torque(ys, mu, c) == (g - c) * mass;
    if Torque(ys, mu, c) == 0.0 {
      ZeroProduct(g - c, mass);
    }
  }

  /** The centroid lies within any interval outside which the sampled set is zero. */
  lemma CentroidWithinSupport(ys: seq<real>, mu: seq<real>, p: real, q: real)
    requires |ys| == |mu| && NonNegative(mu)
    requires forall k :: 0 <= k < |mu| && 0.0 < mu[k] ==> p <= ys[k] <= q
    ensures Centroid(ys, mu).Success? ==> p <= Centroid(ys, mu).value <= q
  {
    var mass, moment := Mass(mu), Moment(ys, mu);
    if mass != 0.0 {
      assert Centroid(ys, mu) == Success(moment / mass);
      TorqueWithinSupport(ys, mu, p, q);
      TorqueDecomposes(ys, mu, p);
      TorqueDecomposes(ys, mu, q);
      QuotientWithin(moment, mass, p, q);
    }
  }

  // ---------------------------------------------------------------------------
  // Evaluating a stage.

  /** A valid stage's rules fit the fuzzified inputs and the sampled consequent terms. */
  lemma ValidStageFits(s: Stage, xs: seq<real>)
    requires Valid(s) && |xs| == |s.inputs|
    ensures RulesFit(Fuzzify(s, xs), s.rules, SampleTerms(s.output))
    ensures Rectangular(SampleTerms(s.output), |s.output.universe|)
  {
    var d := Fuzzify(s, xs);
    forall r | r in s.rules
      ensures AllFit(d, r.antecedent) && r.consequent < |SampleTerms(s.output)|
    {
      assert ValidRule(s, r);
      forall c | c in r.antecedent ensures Fits(d, c) {
        assert ValidClause(s.inputs, c);
      }
    }
  }

  /**
   * The aggregated output set of the stage at crisp inputs xs, one value per
   * output sample: at every sample, the maximum over the rules of each rule's
   * consequent term clipped at the rule's strength (0 when there are no rules).
   */
  function AggregatedSet(s: Stage, xs: seq<real>): (mu: seq<real>)
    requires Valid(s) && |xs| == |s.inputs|
    ensures |mu| == |s.output.universe| && NonNegative(mu)
    ensures forall k :: 0 <= k < |mu| ==> mu[k] <= 1.0
    ensures forall k, i :: 0 <= k < |mu| && 0 <= i < |s.rules| ==> ClippedConsequent(s, xs, i, k) <= mu[k]
    ensures 0 < |s.rules| ==> forall k :: 0 <= k < |mu| ==> SomeRuleGives(s, xs, k, mu[k])
    ensures |s.rules| == 0 ==> forall k :: 0 <= k < |mu| ==> mu[k] == 0.0
  {
    ValidStageFits(s, xs);
    AggregateIsMaxOfClipped(s, xs);
    Aggregate(Fuzzify(s, xs), s.rules, SampleTerms(s.output), |s.output.universe|)
  }

  /** The stage's aggregate, read through the table-level characterisation of `AggregateAt`. */
  lemma AggregateIsMaxOfClipped(s: Stage, xs: seq<real>)
    requires Valid(s) && |xs| == |s.inputs|
    ensures RulesFit(Fuzzify(s, xs), s.rules, SampleTerms(s.output)) && Rectangular(SampleTerms(s.output), |s.output.universe|)
    ensures forall k, i :: 0 <= k < |s.output.universe| && 0 <= i < |s.rules| ==>
      ClippedConsequent(s, xs, i, k) <= Aggregate(Fuzzify(s, xs), s.rules, SampleTerms(s.output), |s.output.universe|)[k]
    ensures 0 < |s.rules| ==> forall k :: 0 <= k < |s.output.universe| ==>
      SomeRuleGives(s, xs, k, Aggregate(Fuzzify(s, xs), s.rules, SampleTerms(s.output), |s.output.universe|)[k])
  {
    ValidStageFits(s, xs);
    var d, o, n := Fuzzify(s, xs), SampleTerms(s.output), |s.output.universe|;
    forall k, i | 0 <= k < n && 0 <= i < |s.rules| ensures ClippedConsequent(s, xs, i, k) <= Aggregate(d, s.rules, o, n)[k] {
      assert Implied(d, s.rules, o, n, i, k) == ClippedConsequent(s, xs, i, k);
    }
    forall k | 0 <= k < n && 0 < |s.rules| ensures SomeRuleGives(s, xs, k, Aggregate(d, s.rules, o, n)[k]) {
      var i :| 0 <= i < |s.rules| && AggregateAt(d, s.rules, o, n, k, |s.rules|) == Implied(d, s.rules, o, n, i, k);
      assert Implied(d, s.rules, o, n, i, k) == ClippedConsequent(s, xs, i, k);
    }
  }

  /** Some rule's clipped consequent takes the value v at sample k. */
  predicate SomeRuleGives(s: Stage, xs: seq<real>, k: nat, v: real)
    requires Valid(s) && |xs| == |s.inputs| && k < |s.output.universe|
  {
    exists i :: 0 <= i < |s.rules| && v == ClippedConsequent(s, xs, i, k)
  }

  /** Rule i's output at sample k: its consequent term's degree there, clipped at the rule's strength. */
  function ClippedConsequent(s: Stage, xs: seq<real>, i: nat, k: nat): (r: real)
    requires Valid(s) && |xs| == |s.inputs| && i < |s.rules| && k < |s.output.universe|
    ensures 0.0 <= r <= RuleStrength(s, xs, i)
  {
    assert s.rules[i] in s.rules && ValidRule(s, s.rules[i]);
    Min(RuleStrength(s, xs, i), Degree(s.output.terms[s.rules[i].consequent].mf, s.output.universe[k]))
  }

  /** Firing strength of rule i of the stage at crisp inputs xs. */
  function RuleStrength(s: Stage, xs: seq<real>, i: nat): (r: real)
    requires Valid(s) && |xs| == |s.inputs| && i < |s.rules|
    ensures 0.0 <= r <= 1.0
    ensures forall c :: 0 <= c < |s.rules[i].antecedent| ==>
      ValidClause(s.inputs, s.rules[i].antecedent[c]) && r <= InputDegree(s, xs, s.rules[i].antecedent[c])
    ensures 0 < |s.rules[i].antecedent| ==>
      exists c :: 0 <= c < |s.rules[i].antecedent| && ValidClause(s.inputs, s.rules[i].antecedent[c]) && r == InputDegree(s, xs, s.rules[i].antecedent[c])
    ensures |s.rules[i].antecedent| == 0 ==> r == 1.0
  {
    ValidStageFits(s, xs);
    assert s.rules[i] in s.rules && ValidRule(s, s.rules[i]);
    Strength(Fuzzify(s, xs), s.rules[i].antecedent)
  }

  /** The degree to which the crisp inputs satisfy one clause. */
  function InputDegree(s: Stage, xs: seq<real>, c: Clause): real
    requires ValidClause(s.inputs, c) && |xs| == |s.inputs|
  {
    Degree(s.inputs[c.input].terms[c.term].mf, xs[c.input])
  }

  /**
   * One evaluation of the stage: the centroid of the aggregated set over the
   * sampled consequent universe; NoRuleFired when that set is zero everywhere.
   */
  function Evaluate(s: Stage, xs: seq<real>): (r: Result<real>)
    requires Valid(s) && |xs| == |s.inputs|
    ensures r.Failure? <==> forall k :: 0 <= k < |s.output.universe| ==> AggregatedSet(s, xs)[k] == 0.0
    ensures r.Failure? ==> r.error == NoRuleFired
    ensures r.Success? ==> Lo(s.output) <= r.value <= Hi(s.output)
    ensures r.Success? ==> Torque(s.output.universe, AggregatedSet(s, xs), r.value) == 0.0
  {
    CentroidWithinSupport(s.output.universe, AggregatedSet(s, xs), Lo(s.output), Hi(s.output));
    Centroid(s.output.universe, AggregatedSet(s, xs))
  }

  /** A rule that fires, whose consequent is positive at some output sample, makes the output defined. */
  lemma FiringRuleDefinesOutput(s: Stage, xs: seq<real>, i: nat, k: nat)
    requires Valid(s) && |xs| == |s.inputs| && i < |s.rules| && k < |s.output.universe|
    requires 0.0 < RuleStrength(s, xs, i)
    requires s.rules[i].consequent < |s.output.terms|
    requires 0.0 < Degree(s.output.terms[s.rules[i].consequent].mf, s.output.universe[k])
    ensures Evaluate(s, xs).Success?
  {
    var mu := AggregatedSet(s, xs);
    assert 0.0 < ClippedConsequent(s, xs, i, k) <= mu[k];
  }

  /** When no rule fires, the stage reports NoRuleFired instead of a value. */
  lemma SilentRulesFail(s: Stage, xs: seq<real>)
    requires Valid(s) && |xs| == |s.inputs|
    requires forall i :: 0 <= i < |s.rules| ==> RuleStrength(s, xs, i) == 0.0
    ensures Evaluate(s, xs) == Failure(NoRuleFired)
  {
    var mu := AggregatedSet(s, xs);
    forall k | 0 <= k < |mu| ensures mu[k] == 0.0 {
      if 0 < |s.rules| {
        assert SomeRuleGives(s, xs, k, mu[k]);
        var i :| 0 <= i < |s.rules| && mu[k] == ClippedConsequent(s, xs, i, k);
        assert RuleStrength(s, xs, i) == 0.0;
      }
    }
  }

  /**
   * When rule i is the only one that fires, the aggregated set is that rule's
   * consequent term clipped at its strength.
   */
  lemma OnlyFiringRule(s: Stage, xs: seq<real>, i: nat)
    requires Valid(s) && |xs| == |s.inputs| && i < |s.rules| && s.rules[i].consequent < |s.output.terms|
    requires forall j :: 0 <= j < |s.rules| && j != i ==> RuleStrength(s, xs, j) == 0.0
    ensures forall k :: 0 <= k < |s.output.universe| ==>
      AggregatedSet(s, xs)[k] == Min(RuleStrength(s, xs, i), Degree(s.output.terms[s.rules[i].consequent].mf, s.output.universe[k]))
  {
    var mu := AggregatedSet(s, xs);
    forall k | 0 <= k < |mu| ensures mu[k] == ClippedConsequent(s, xs, i, k) {
      assert SomeRuleGives(s, xs, k, mu[k]);
      var j :| 0 <= j < |s.rules| && mu[k] == ClippedConsequent(s, xs, j, k);
      if j != i {
        assert ClippedConsequent(s, xs, j, k) == 0.0;
        assert ClippedConsequent(s, xs, i, k) <= mu[k];
      }
    }
  }

  // ---------------------------------------------------------------------------
  // Aggregation is a maximum, not a sum.

  /** Appending a rule leaves the aggregate over the earlier rules unchanged. */
  lemma {:induction false} AggregatePrefix(d: seq<seq<real>>, rules: seq<Rule>, extra: Rule, o: seq<seq<real>>, n: nat, k: nat, m: nat)
    requires UnitTable(d) && UnitTable(o) && Rectangular(o, n) && k < n && m <= |rules|
    requires RulesFit(d, rules + [extra], o)
    ensures RulesFit(d, rules, o)
    ensures AggregateAt(d, rules + [extra], o, n, k, m) == AggregateAt(d, rules, o, n, k, m)
  {
    assert forall r | r in rules :: r in rules + [extra];
    if 0 < m {
      AggregatePrefix(d, rules, extra, o, n, k, m - 1);
      assert (rules + [extra])[m - 1] == rules[m - 1];
    }
  }

  /**
   * A rule whose consequent is already concluded by a rule at least as strong
   * changes nothing: overlapping conclusions merge by maximum, never add up.
   */
  lemma WeakerDuplicateAbsorbed(d: seq<seq<real>>, rules: seq<Rule>, extra: Rule, o: seq<seq<real>>, n: nat, j: nat)
    requires UnitTable(d) && UnitTable(o) && Rectangular(o, n)
    requires RulesFit(d, rules + [extra], o)
    requires j < |rules| && rules[j].consequent == extra.consequent
    requires AllFit(d, extra.antecedent) && AllFit(d, rules[j].antecedent)
    requires Strength(d, extra.antecedent) <= Strength(d, rules[j].antecedent)
    ensures RulesFit(d, rules, o)
    ensures Aggregate(d, rules + [extra], o, n) == Aggregate(d, rules, o, n)
  {
    var all := rules + [extra];
    assert all[j] == rules[j] && all[|rules|] == extra;
    forall k | 0 <= k < n
      ensures AggregateAt(d, all, o, n, k, |all|) == AggregateAt(d, rules, o, n, k, |rules|)
    {
      AggregatePrefix(d, rules, extra, o, n, k, |rules|);
      assert Implied(d, all, o, n, |rules|, k) <= Implied(d, all, o, n, j, k);
      assert Implied(d, all, o, n, j, k) <= AggregateAt(d, all, o, n, k, |rules|);
    }
  }

  // ---------------------------------------------------------------------------
  // A complete rule base always fires.

  /** The antecedent is exactly "input i is term choice[i]" for every input i, in input order. */
  predicate Matches(ante: seq<Clause>, choice: seq<nat>) {
    |ante| == |choice| && forall i :: 0 <= i < |ante| ==> ante[i] == Is(i, choice[i])
  }

  /** One term chosen for each input of the stage. */
  predicate IsChoice(s: Stage, choice: seq<nat>) {
    |choice| == |s.inputs| && forall i :: 0 <= i < |choice| ==> choice[i] < |s.inputs[i].terms|
  }

  /** Some rule has exactly this choice of terms as its antecedent. */
  ghost predicate Handles(s: Stage, choice: seq<nat>) {
    exists k :: 0 <= k < |s.rules| && Matches(s.rules[k].antecedent, choice)
  }

  /** The rule base has a rule for every combination of input terms. */
  ghost predicate Complete(s: Stage) {
    forall choice :: IsChoice(s, choice) ==> Handles(s, choice)
  }

  /** No two rules have the same antecedent. */
  ghost predicate Unambiguous(s: Stage) {
    forall j, k :: 0 <= j < |s.rules| && 0 <= k < |s.rules| && s.rules[j].antecedent == s.rules[k].antecedent ==> j == k
  }

  /** Clause by clause, a names the same input as b with a term number no higher. */
  predicate Below(a: seq<Clause>, b: seq<Clause>) {
    |a| == |b| && forall i :: 0 <= i < |a| ==> a[i].input == b[i].input && a[i].term <= b[i].term
  }

  /** Raising the term of any of the inputs never lowers the concluded term. */
  ghost predicate Monotone(s: Stage) {
    forall j, k :: 0 <= j < |s.rules| && 0 <= k < |s.rules| && Below(s.rules[j].antecedent, s.rules[k].antecedent) ==>
      s.rules[j].consequent <= s.rules[k].consequent
  }

  /**
   * The two-input, three-term table whose rule k pairs term k / 3 of input 0
   * with term k % 3 of input 1 and concludes the term numbered by their sum.
   */
  predicate SumTable(rules: seq<Rule>) {
    |rules| == 9 && forall k :: 0 <= k < 9 ==> rules[k] == Rule([Is(0, k / 3), Is(1, k % 3)], k / 3 + k % 3)
  }

  /** A stage with that table has exactly one rule per pair of terms, and better terms never conclude a lower one. */
  lemma SumTableIsCompleteAndMonotone(s: Stage)
    requires |s.inputs| == 2 && |s.inputs[0].terms| == 3 && |s.inputs[1].terms| == 3 && SumTable(s.rules)
    ensures Complete(s) && Unambiguous(s) && Monotone(s)
  {
    forall choice | IsChoice(s, choice) ensures Handles(s, choice) {
      var k := 3 * choice[0] + choice[1];
      assert Matches(s.rules[k].antecedent, choice);
    }
    forall j, k | 0 <= j < 9 && 0 <= k < 9 && s.rules[j].antecedent == s.rules[k].antecedent ensures j == k {
      assert s.rules[j].antecedent[0].term == s.rules[k].antecedent[0].term;
      assert s.rules[j].antecedent[1].term == s.rules[k].antecedent[1].term;
    }
    forall j, k | 0 <= j < 9 && 0 <= k < 9 && Below(s.rules[j].antecedent, s.rules[k].antecedent)
      ensures s.rules[j].consequent <= s.rules[k].consequent
    {
      assert s.rules[j].antecedent[0].term <= s.rules[k].antecedent[0].term;
      assert s.rules[j].antecedent[1].term <= s.rules[k].antecedent[1].term;
    }
  }

  /**
   * Three terms that partition [lo, hi] as in `PartitionOfUnity` leave no point
   * of it uncovered; the middle term may be the triangle whose peak is q == r.
   */
  lemma PartitionCovers(v: Variable, lo: real, p: real, q: real, r: real, s: real, hi: real, x: real)
    requires lo <= p < q <= r < s <= hi && lo <= x <= hi
    requires |v.terms| == 3 && v.terms[0].mf == Trap(lo, lo, p, q) && v.terms[2].mf == Trap(r, s, hi, hi)
    requires v.terms[1].mf == Trap(p, q, r, s) || (q == r && v.terms[1].mf == Tri(p, q, s))
    ensures Covers(v, x)
  {
    PartitionHasPositiveTerm(lo, p, q, r, s, hi, x);
    if v.terms[1].mf.Tri? {
      TriangleIsDegenerateTrapezoid(p, q, s, x);
    }
    if 0.0 < Degree(v.terms[0].mf, x) {
    } else if 0.0 < Degree(v.terms[1].mf, x) {
    } else {
      assert 0.0 < Degree(v.terms[2].mf, x);
    }
  }

  /** Every term of the variable reaches degree 1 at one of the variable's samples. */
  ghost predicate PeaksSampled(v: Variable) {
    forall t :: 0 <= t < |v.terms| ==> exists k :: 0 <= k < |v.universe| && Degree(v.terms[t].mf, v.universe[k]) == 1.0
  }

  /** The crisp value x belongs to some term of the variable with a positive degree. */
  ghost predicate Covers(v: Variable, x: real) {
    exists t :: 0 <= t < |v.terms| && 0.0 < Degree(v.terms[t].mf, x)
  }

  /** Every crisp input belongs to some term of its variable with a positive degree. */
  ghost predicate Covered(s: Stage, xs: seq<real>)
    requires |xs| == |s.inputs|
  {
    forall i :: 0 <= i < |s.inputs| ==> Covers(s.inputs[i], xs[i])
  }

  /**
   * A complete rule base whose consequent terms peak at output samples yields a
   * defined output whenever every input belongs to some term.
   */
  lemma CompleteRuleBaseFires(s: Stage, xs: seq<real>)
    requires Valid(s) && |xs| == |s.inputs|
    requires Complete(s) && PeaksSampled(s.output) && Covered(s, xs)
    ensures Evaluate(s, xs).Success?
  {
    var choice := CoveringChoice(s, xs);
    var k :| 0 <= k < |s.rules| && Matches(s.rules[k].antecedent, choice);
    MatchingRuleFires(s, xs, k, choice);
    assert s.rules[k] in s.rules && ValidRule(s, s.rules[k]);
    var c := s.rules[k].consequent;
    var g :| 0 <= g < |s.output.universe| && Degree(s.output.terms[c].mf, s.output.universe[g]) == 1.0;
    FiringRuleDefinesOutput(s, xs, k, g);
  }

  /** For covered inputs, a choice of terms each of which holds with a positive degree. */
  lemma CoveringChoice(s: Stage, xs: seq<real>) returns (choice: seq<nat>)
    requires |xs| == |s.inputs| && Covered(s, xs)
    ensures IsChoice(s, choice)
    ensures forall i :: 0 <= i < |choice| ==> 0.0 < Degree(s.inputs[i].terms[choice[i]].mf, xs[i])
  {
    choice := [];
    while |choice| < |s.inputs|
      invariant |choice| <= |s.inputs|
      invariant forall i :: 0 <= i < |choice| ==> choice[i] < |s.inputs[i].terms| && 0.0 < Degree(s.inputs[i].terms[choice[i]].mf, xs[i])
    {
      var i := |choice|;
      var t :| 0 <= t < |s.inputs[i].terms| && 0.0 < Degree(s.inputs[i].terms[t].mf, xs[i]);
      choice := choice + [t];
    }
  }

  /** A rule whose antecedent is a choice of terms that all hold fires. */
  lemma MatchingRuleFires(s: Stage, xs: seq<real>, k: nat, choice: seq<nat>)
    requires Valid(s) && |xs| == |s.inputs| && k < |s.rules|
    requires IsChoice(s, choice) && Matches(s.rules[k].antecedent, choice)
    requires forall i :: 0 <= i < |choice| ==> 0.0 < Degree(s.inputs[i].terms[choice[i]].mf, xs[i])
    ensures 0.0 < RuleStrength(s, xs, k)
  {
    ValidStageFits(s, xs);
    var d := Fuzzify(s, xs);
    var ante := s.rules[k].antecedent;
    assert s.rules[k] in s.rules;
    forall i | 0 <= i < |ante| ensures 0.0 < ClauseDegree(d, ante[i]) {
      assert ante[i] == Is(i, choice[i]);
    }
    StrengthPositive(d, ante);
  }
}
