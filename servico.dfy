/**
 * The Serviço subsystem: Atendimento and Comida, each rated on [0, 10], give a
 * Serviço rating on [0, 10] through nine rules.
 */
module SubsystemServico {
  import opened Membership
  import opened Outcomes
  import opened Inference
  import opened Control

  /** The universe of every variable of this subsystem: 101 samples of [0, 10]. */
  const Universe := Linspace(0.0, 10.0, 101)

  /** Terms 0, 1, 2: Ruim, Regular, Bom. */
  const Atendimento := Variable("Atendimento", Universe, [
    Term("Ruim", Trap(0.0, 0.0, 3.0, 5.0)),
    Term("Regular", Trap(3.0, 5.0, 6.0, 8.0)),
    Term("Bom", Trap(6.0, 8.0, 10.0, 10.0))])

  /** Terms 0, 1, 2: Ruim, Regular, Boa. */
  const Comida := Variable("Comida", Universe, [
    Term("Ruim", Trap(0.0, 0.0, 3.0, 5.0)),
    Term("Regular", Trap(3.0, 5.0, 6.0, 8.0)),
    Term("Boa", Trap(6.0, 8.0, 10.0, 10.0))])

  /** Terms 0 to 4: Péssimo, Ruim, Regular, Bom, Ótimo. */
  const Servico := Variable("Serviço", Universe, [
    Term("Péssimo", Trap(0.0, 0.0, 2.0, 3.5)),
    Term("Ruim", Tri(2.0, 3.5, 5.0)),
    Term("Regular", Tri(3.5, 5.0, 6.5)),
    Term("Bom", Tri(5.0, 6.5, 8.0)),
    Term("Ótimo", Trap(6.5, 8.0, 10.0, 10.0))])

  /** Input 0 is Atendimento, input 1 is Comida. */
  const Rules := [
    Rule([Is(0, 0), Is(1, 0)], 0), // Ruim, Ruim => Péssimo
    Rule([Is(0, 0), Is(1, 1)], 1), // Ruim, Regular => Ruim
    Rule([Is(0, 0), Is(1, 2)], 2), // Ruim, Boa => Regular
    Rule([Is(0, 1), Is(1, 0)], 1), // Regular, Ruim => Ruim
    Rule([Is(0, 1), Is(1, 1)], 2), // Regular, Regular => Regular
    Rule([Is(0, 1), Is(1, 2)], 3), // Regular, Boa => Bom
    Rule([Is(0, 2), Is(1, 0)], 2), // Bom, Ruim => Regular
    Rule([Is(0, 2), Is(1, 1)], 3), // Bom, Regular => Bom
    Rule([Is(0, 2), Is(1, 2)], 4)] // Bom, Boa => Ótimo

  const System := Stage([Atendimento, Comida], Servico, Rules)

  lemma SystemValid()
    ensures Valid(System)
    ensures Lo(Servico) == 0.0 && Hi(Servico) == 10.0
  {
    assert ValidVariable(Atendimento) && ValidVariable(Comida);
    assert ValidVariable(Servico);
    RuleBaseIsCrossProduct();
    forall r | r in System.rules ensures ValidRule(System, r) {
      var k :| 0 <= k < 9 && Rules[k] == r;
      assert r.antecedent == [Is(0, k / 3), Is(1, k % 3)];
    }
  }

  /** The defuzzified Serviço rating for the given Atendimento and Comida. */
  function ServicoOf(atendimento: real, comida: real): (r: Result<real>)
    ensures r.Success? ==> 0.0 <= r.value <= 10.0
  {
    SystemValid();
    Evaluate(System, [atendimento, comida])
  }

  /**
   * Firing strength of rule j (numbered from 0) at the given ratings.
   * This is RuleStrength on this stage's constants, named here so that lemmas about them never make the
   * verifier re-establish Valid(System) from the literal tables.
   */
  function StrengthOf(atendimento: real, comida: real, j: nat): (r: real)
    requires j < 9
    ensures 0.0 <= r <= 1.0
  {
    SystemValid();
    RuleStrength(System, [atendimento, comida], j)
  }

  /**
   * The aggregated Serviço set at the given ratings, one degree per sample of the
   * universe. This is AggregatedSet on this stage's constants, named here so that lemmas about them never make the
   * verifier re-establish Valid(System) from the literal tables.
   */
  function ServicoSet(atendimento: real, comida: real): (mu: seq<real>)
    ensures |mu| == 101
  {
    SystemValid();
    AggregatedSet(System, [atendimento, comida])
  }

  /**
   * Writes both inputs into the subsystem's simulation, computes, and returns
   * the Serviço value; the result does not depend on what the simulation held before.
   */
  method ComputeServico(sim: Simulation, atendimento: real, comida: real) returns (r: Result<real>)
    requires sim.system == System
    modifies sim
    ensures r == ServicoOf(atendimento, comida)
    ensures sim.input == old(sim.input)["Atendimento" := atendimento]["Comida" := comida]
    ensures r.Success? ==> sim.output == old(sim.output)["Serviço" := r.value]
    ensures r.Failure? ==> sim.output == old(sim.output)
  {
    SystemValid();
    sim.SetInput("Atendimento", atendimento);
    sim.SetInput("Comida", comida);
    RunOnGivenInputs(System, sim.input, [atendimento, comida]);
    r := sim.Compute();
  }

  /** On [0, 10] the three terms of each input sum to exactly 1. */
  lemma AntecedentsPartition(x: real)
    requires 0.0 <= x <= 10.0
    ensures Degree(Atendimento.terms[0].mf, x) + Degree(Atendimento.terms[1].mf, x) + Degree(Atendimento.terms[2].mf, x) == 1.0
    ensures Degree(Comida.terms[0].mf, x) + Degree(Comida.terms[1].mf, x) + Degree(Comida.terms[2].mf, x) == 1.0
  {
    PartitionOfUnity(0.0, 3.0, 5.0, 6.0, 8.0, 10.0, x);
  }

  /**
   * Rule k pairs Atendimento term k / 3 with Comida term k % 3, so every pair of
   * terms has exactly one rule, and concludes the Serviço term numbered by their sum.
   */
  lemma RuleBaseIsCrossProduct()
    ensures |Rules| == 9
    ensures forall k :: 0 <= k < 9 ==> Rules[k].antecedent == [Is(0, k / 3), Is(1, k % 3)]
    ensures forall k :: 0 <= k < 9 ==> Rules[k].consequent == k / 3 + k % 3
  {
  }

  /** Every pair of an Atendimento term and a Comida term is the antecedent of exactly one rule. */
  lemma RuleBaseIsComplete()
    ensures Complete(System) && Unambiguous(System)
  {
    RuleBaseIsCrossProduct();
    SumTableIsCompleteAndMonotone(System);
  }

  /** A better Atendimento or Comida term never concludes a lower Serviço term. */
  lemma RuleBaseIsMonotone()
    ensures Monotone(System)
  {
    RuleBaseIsCrossProduct();
    SumTableIsCompleteAndMonotone(System);
  }

  /**
   * Each Serviço term reaches degree 1 at a sample: Péssimo at 0, Ruim at 3.5,
   * Regular at 5, Bom at 6.5, Ótimo at 10.
   */
  lemma OutputPeaksAreSampled()
    ensures PeaksSampled(Servico)
  {
    LinspaceSample(0.0, 10.0, 101, 35);
    LinspaceSample(0.0, 10.0, 101, 50);
    LinspaceSample(0.0, 10.0, 101, 65);
    assert Degree(Servico.terms[0].mf, Universe[0]) == 1.0;
    assert Degree(Servico.terms[1].mf, Universe[35]) == 1.0;
    assert Degree(Servico.terms[2].mf, Universe[50]) == 1.0;
    assert Degree(Servico.terms[3].mf, Universe[65]) == 1.0;
    assert Degree(Servico.terms[4].mf, Universe[100]) == 1.0;
  }

  /** Ratings in [0, 10] always fire a rule, so the Serviço value is defined. */
  lemma ServicoDefined(atendimento: real, comida: real)
    requires 0.0 <= atendimento <= 10.0 && 0.0 <= comida <= 10.0
    ensures ServicoOf(atendimento, comida).Success?
  {
    SystemValid();
    RatingsCovered(atendimento, comida);
    RuleBaseIsComplete();
    OutputPeaksAreSampled();
    CompleteRuleBaseFires(System, [atendimento, comida]);
  }

  /** Every rating in [0, 10] belongs to some term of its input with a positive degree. */
  lemma RatingsCovered(atendimento: real, comida: real)
    requires 0.0 <= atendimento <= 10.0 && 0.0 <= comida <= 10.0
    ensures Covered(System, [atendimento, comida])
  {
    var xs := [atendimento, comida];
    forall i | 0 <= i < |System.inputs| ensures Covers(System.inputs[i], xs[i]) {
      var v := if i == 0 then Atendimento else Comida;
      assert System.inputs[i] == v;
      PartitionCovers(v, 0.0, 3.0, 5.0, 6.0, 8.0, 10.0, xs[i]);
    }
  }

  /** With both ratings 10, rule 9 fires at full strength and no other rule fires. */
  lemma BestRatingsFireOnlyRuleNine()
    ensures forall j :: 0 <= j < 8 ==> StrengthOf(10.0, 10.0, j) == 0.0
    ensures StrengthOf(10.0, 10.0, 8) == 1.0
  {
    forall j | 0 <= j < 8 ensures StrengthOf(10.0, 10.0, j) == 0.0 {
      SilentAtBest(j);
    }
    SystemValid();
    var xs := [10.0, 10.0];
    var best := Rules[8].antecedent;
    assert best == [Is(0, 2), Is(1, 2)];
    assert InputDegree(System, xs, best[0]) == Degree(Atendimento.terms[2].mf, 10.0) == 1.0;
    assert InputDegree(System, xs, best[1]) == Degree(Comida.terms[2].mf, 10.0) == 1.0;
  }

  lemma SilentAtBest(j: nat)
    requires j < 8
    ensures StrengthOf(10.0, 10.0, j) == 0.0
  {
    SystemValid();
    RuleBaseIsCrossProduct();
    var xs := [10.0, 10.0];
    if j / 3 < 2 {
      var c := Rules[j].antecedent[0];
      assert c == Is(0, j / 3);
      assert InputDegree(System, xs, c) == Degree(Atendimento.terms[j / 3].mf, 10.0) == 0.0;
    } else {
      var c := Rules[j].antecedent[1];
      assert c == Is(1, j % 3);
      assert InputDegree(System, xs, c) == Degree(Comida.terms[j % 3].mf, 10.0) == 0.0;
    }
  }

  /** With both ratings 10 the aggregated set is the Ótimo term itself. */
  lemma BestRatingsGiveOtimoSet()
    ensures forall k :: 0 <= k < 101 ==> ServicoSet(10.0, 10.0)[k] == Degree(Servico.terms[4].mf, Universe[k])
  {
    SystemValid();
    var xs := [10.0, 10.0];
    BestRatingsFireOnlyRuleNine();
    assert forall j :: 0 <= j < 9 ==> StrengthOf(10.0, 10.0, j) == RuleStrength(System, xs, j);
    assert forall j :: 0 <= j < |System.rules| && j != 8 ==> RuleStrength(System, xs, j) == 0.0;
    assert Rules[8].consequent == 4;
    OnlyFiringRule(System, xs, 8);
  }

  /** With both ratings 10 the Serviço value is defined and lies in Ótimo's support [6.5, 10]. */
  lemma BestRatingsGiveOtimo()
    ensures ServicoOf(10.0, 10.0).Success? && 6.5 <= ServicoOf(10.0, 10.0).value <= 10.0
  {
    SystemValid();
    var xs := [10.0, 10.0];
    var mu := ServicoSet(10.0, 10.0);
    BestRatingsGiveOtimoSet();
    assert forall k :: 0 <= k < 101 && 0.0 < mu[k] ==> 6.5 <= Universe[k] <= 10.0;
    CentroidWithinSupport(Universe, mu, 6.5, 10.0);
    assert ServicoOf(10.0, 10.0) == Centroid(Universe, mu);
    assert mu[100] == 1.0;
  }
}
