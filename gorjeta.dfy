/**
 * The main tip system: the Serviço and Estrutura ratings, on [0, 10], give a
 * Gorjeta (tip) on [0, 15] through nine rules; the integrated tip feeds it the
 * outputs of the two subsystems.
 */
module SistemaGorjeta {
  import opened Membership
  import opened Outcomes
  import opened Inference
  import opened Control
  import SubsystemServico
  import SubsistemaFuzzy

  /** The universe of both inputs: 101 samples of [0, 10]. */
  const RatingUniverse := Linspace(0.0, 10.0, 101)

  /** The universe of the tip: 101 samples of [0, 15], one every 0.15. */
  const TipUniverse := Linspace(0.0, 15.0, 101)

  /** Terms 0, 1, 2: Ruim, Regular, Bom. */
  const Servico := Variable("Serviço", RatingUniverse, [
    Term("Ruim", Trap(0.0, 0.0, 2.0, 5.0)),
    Term("Regular", Tri(2.0, 5.0, 8.0)),
    Term("Bom", Trap(5.0, 8.0, 10.0, 10.0))])

  /** Terms 0, 1, 2: Ruim, Regular, Boa. */
  const Estrutura := Variable("Estrutura", RatingUniverse, [
    Term("Ruim", Trap(0.0, 0.0, 3.0, 5.0)),
    Term("Regular", Trap(3.0, 5.0, 6.0, 8.0)),
    Term("Boa", Trap(6.0, 8.0, 10.0, 10.0))])

  /** Terms 0 to 4: Muito baixa, Baixa, Média, Alta, Muito alta. */
  const Gorjeta := Variable("Gorjeta", TipUniverse, [
    Term("Muito baixa", Tri(0.0, 0.0, 3.755)),
    Term("Baixa", Tri(0.0, 3.75, 7.5)),
    Term("Média", Tri(3.75, 7.5, 11.25)),
    Term("Alta", Tri(7.5, 11.25, 15.0)),
    Term("Muito alta", Tri(11.25, 15.0, 15.0))])

  /** Input 0 is Serviço, input 1 is Estrutura. */
  const Rules := [
    Rule([Is(0, 0), Is(1, 0)], 0), // Ruim, Ruim => Muito baixa
    Rule([Is(0, 0), Is(1, 1)], 1), // Ruim, Regular => Baixa
    Rule([Is(0, 0), Is(1, 2)], 2), // Ruim, Boa => Média
    Rule([Is(0, 1), Is(1, 0)], 1), // Regular, Ruim => Baixa
    Rule([Is(0, 1), Is(1, 1)], 2), // Regular, Regular => Média
    Rule([Is(0, 1), Is(1, 2)], 3), // Regular, Boa => Alta
    Rule([Is(0, 2), Is(1, 0)], 2), // Bom, Ruim => Média
    Rule([Is(0, 2), Is(1, 1)], 3), // Bom, Regular => Alta
    Rule([Is(0, 2), Is(1, 2)], 4)] // Bom, Boa => Muito alta

  const System := Stage([Servico, Estrutura], Gorjeta, Rules)

  lemma SystemValid()
    ensures Valid(System)
    ensures Lo(Gorjeta) == 0.0 && Hi(Gorjeta) == 15.0
  {
    VariablesValid();
    RuleBaseIsCrossProduct();
    forall r | r in System.rules ensures ValidRule(System, r) {
      var k :| 0 <= k < 9 && Rules[k] == r;
      assert r.antecedent == [Is(0, k / 3), Is(1, k % 3)];
    }
  }

  lemma VariablesValid()
    ensures ValidVariable(Servico) && ValidVariable(Estrutura) && ValidVariable(Gorjeta)
    ensures Lo(Gorjeta) == 0.0 && Hi(Gorjeta) == 15.0
  {
    assert forall t | t in Gorjeta.terms :: WellFormed(t.mf);
  }

  /** The defuzzified tip for the given Serviço and Estrutura ratings. */
  function GorjetaOf(servico: real, estrutura: real): (r: Result<real>)
    ensures r.Success? ==> 0.0 <= r.value <= 15.0
  {
    SystemValid();
    Evaluate(System, [servico, estrutura])
  }

  /**
   * Writes both inputs into the main system's simulation, computes, and
   * returns the tip; the result does not depend on what the simulation held
   * before, so equal arguments always give equal tips.
   */
  method ComputeGorjeta(sim: Simulation, servico: real, estrutura: real) returns (r: Result<real>)
    requires sim.system == System
    modifies sim
    ensures r == GorjetaOf(servico, estrutura)
    ensures sim.input == old(sim.input)["Serviço" := servico]["Estrutura" := estrutura]
    ensures r.Success? ==> sim.output == old(sim.output)["Gorjeta" := r.value]
    ensures r.Failure? ==> sim.output == old(sim.output)
  {
    SystemValid();
    sim.SetInput("Serviço", servico);
    sim.SetInput("Estrutura", estrutura);
    RunOnGivenInputs(System, sim.input, [servico, estrutura]);
    r := sim.Compute();
  }

  /**
   * The tip from the five base ratings: the Serviço subsystem's value and the
   * Estrutura subsystem's value fed to the main system. A subsystem that
   * produces no value stops the computation with its error.
   */
  function IntegratedGorjeta(atendimento: real, comida: real, estacionamento: real, acessibilidade: real, limpeza: real): (r: Result<real>)
    ensures r.Success? ==> 0.0 <= r.value <= 15.0
  {
    var servico :- SubsystemServico.ServicoOf(atendimento, comida);
    var estrutura :- SubsistemaFuzzy.EstruturaOf(estacionamento, acessibilidade, limpeza);
    GorjetaOf(servico, estrutura)
  }

  /**
   * Runs the two subsystems' simulations and then the main one, stopping at
   * the first failure. Each simulation that runs has its inputs written and, on
   * success, its value recorded; a simulation after the failing one is left
   * exactly as it was.
   */
  method ComputeIntegratedGorjeta(servicoSim: Simulation, estruturaSim: Simulation, gorjetaSim: Simulation,
                                  atendimento: real, comida: real, estacionamento: real, acessibilidade: real, limpeza: real)
    returns (r: Result<real>)
    requires servicoSim.system == SubsystemServico.System
    requires estruturaSim.system == SubsistemaFuzzy.System
    requires gorjetaSim.system == System
    modifies servicoSim, estruturaSim, gorjetaSim
    ensures r == IntegratedGorjeta(atendimento, comida, estacionamento, acessibilidade, limpeza)
    ensures servicoSim.input == old(servicoSim.input)["Atendimento" := atendimento]["Comida" := comida]
    ensures servicoSim.output == Recorded(old(servicoSim.output), "Serviço", SubsystemServico.ServicoOf(atendimento, comida))
    ensures SubsystemServico.ServicoOf(atendimento, comida).Failure? ==>
      && estruturaSim.input == old(estruturaSim.input) && estruturaSim.output == old(estruturaSim.output)
      && gorjetaSim.input == old(gorjetaSim.input) && gorjetaSim.output == old(gorjetaSim.output)
    ensures SubsystemServico.ServicoOf(atendimento, comida).Success? ==>
      && estruturaSim.input == old(estruturaSim.input)["Estacionamento" := estacionamento]["Acessibilidade" := acessibilidade]["Limpeza" := limpeza]
      && estruturaSim.output == Recorded(old(estruturaSim.output), "Estrutura", SubsistemaFuzzy.EstruturaOf(estacionamento, acessibilidade, limpeza))
    ensures SubsystemServico.ServicoOf(atendimento, comida).Success? && SubsistemaFuzzy.EstruturaOf(estacionamento, acessibilidade, limpeza).Failure? ==>
      gorjetaSim.input == old(gorjetaSim.input) && gorjetaSim.output == old(gorjetaSim.output)
    ensures SubsystemServico.ServicoOf(atendimento, comida).Success? && SubsistemaFuzzy.EstruturaOf(estacionamento, acessibilidade, limpeza).Success? ==>
      && gorjetaSim.input == old(gorjetaSim.input)["Serviço" := SubsystemServico.ServicoOf(atendimento, comida).value]
                                                  ["Estrutura" := SubsistemaFuzzy.EstruturaOf(estacionamento, acessibilidade, limpeza).value]
      && gorjetaSim.output == Recorded(old(gorjetaSim.output), "Gorjeta", r)
  {
    StagesDiffer();
    assert servicoSim != estruturaSim && servicoSim != gorjetaSim && estruturaSim != gorjetaSim;
    var servico :- SubsystemServico.ComputeServico(servicoSim, atendimento, comida);
    var estrutura :- SubsistemaFuzzy.ComputeEstrutura(estruturaSim, estacionamento, acessibilidade, limpeza);
    r := ComputeGorjeta(gorjetaSim, servico, estrutura);
  }

  /** The three stages differ, in their number of inputs or their output's name, so no simulation can serve two of them. */
  lemma StagesDiffer()
    ensures SubsystemServico.System != SubsistemaFuzzy.System
    ensures SubsystemServico.System != System && SubsistemaFuzzy.System != System
  {
    assert |SubsystemServico.System.inputs| == 2 && |SubsistemaFuzzy.System.inputs| == 3 && |System.inputs| == 2;
    assert SubsystemServico.System.output.name == "Serviço" && System.output.name == "Gorjeta";
  }

  /** On [0, 10] the three terms of each input sum to exactly 1. */
  lemma AntecedentsPartition(x: real)
    requires 0.0 <= x <= 10.0
    ensures Degree(Servico.terms[0].mf, x) + Degree(Servico.terms[1].mf, x) + Degree(Servico.terms[2].mf, x) == 1.0
    ensures Degree(Estrutura.terms[0].mf, x) + Degree(Estrutura.terms[1].mf, x) + Degree(Estrutura.terms[2].mf, x) == 1.0
  {
    PartitionOfUnity(0.0, 2.0, 5.0, 5.0, 8.0, 10.0, x);
    TriangleIsDegenerateTrapezoid(2.0, 5.0, 8.0, x);
    PartitionOfUnity(0.0, 3.0, 5.0, 6.0, 8.0, 10.0, x);
  }

  /**
   * Rule k pairs Serviço term k / 3 with Estrutura term k % 3, so every pair of
   * terms has exactly one rule, and concludes the tip term numbered by their sum.
   */
  lemma RuleBaseIsCrossProduct()
    ensures |Rules| == 9
    ensures forall k :: 0 <= k < 9 ==> Rules[k].antecedent == [Is(0, k / 3), Is(1, k % 3)]
    ensures forall k :: 0 <= k < 9 ==> Rules[k].consequent == k / 3 + k % 3
  {
  }

  /** Every pair of an Serviço term and a Estrutura term is the antecedent of exactly one rule. */
  lemma RuleBaseIsComplete()
    ensures Complete(System) && Unambiguous(System)
  {
    RuleBaseIsCrossProduct();
    SumTableIsCompleteAndMonotone(System);
  }

  /** A better Serviço or Estrutura term never concludes a lower tip term. */
  lemma RuleBaseIsMonotone()
    ensures Monotone(System)
  {
    RuleBaseIsCrossProduct();
    SumTableIsCompleteAndMonotone(System);
  }

  /**
   * Each tip term reaches degree 1 at a sample: Muito baixa at 0, Baixa at 3.75,
   * Média at 7.5, Alta at 11.25, Muito alta at 15.
   */
  lemma OutputPeaksAreSampled()
    ensures PeaksSampled(Gorjeta)
  {
    LinspaceSample(0.0, 15.0, 101, 25);
    LinspaceSample(0.0, 15.0, 101, 50);
    LinspaceSample(0.0, 15.0, 101, 75);
    assert TipUniverse[25] == 3.75 && TipUniverse[50] == 7.5 && TipUniverse[75] == 11.25;
    forall t | 0 <= t < |Gorjeta.terms|
      ensures exists k :: 0 <= k < |Gorjeta.universe| && Degree(Gorjeta.terms[t].mf, Gorjeta.universe[k]) == 1.0
    {
      var k := 25 * t;
      assert Degree(Gorjeta.terms[t].mf, TipUniverse[k]) == 1.0;
    }
  }

  /** Muito baixa rises from 0 to 1 in a single step at 0: its rising edge has zero width. */
  lemma MuitoBaixaRisesAsStep()
    ensures Degree(Gorjeta.terms[0].mf, 0.0) == 1.0
    ensures forall x :: x < 0.0 ==> Degree(Gorjeta.terms[0].mf, x) == 0.0
    ensures forall x :: 0.0 < x < 3.755 ==> 0.0 < Degree(Gorjeta.terms[0].mf, x) < 1.0
  {
    forall x | 0.0 < x < 3.755 ensures Degree(Gorjeta.terms[0].mf, x) < 1.0 {
      assert Degree(Gorjeta.terms[0].mf, x) == Ratio(3.755 - x, 3.755);
    }
  }

  /** Every rating in [0, 10] belongs to some term of its input with a positive degree. */
  lemma RatingsCovered(servico: real, estrutura: real)
    requires 0.0 <= servico <= 10.0 && 0.0 <= estrutura <= 10.0
    ensures Covered(System, [servico, estrutura])
  {
    var xs := [servico, estrutura];
    forall i | 0 <= i < |System.inputs| ensures Covers(System.inputs[i], xs[i]) {
      if i == 0 {
        assert System.inputs[i] == Servico;
        PartitionCovers(Servico, 0.0, 2.0, 5.0, 5.0, 8.0, 10.0, xs[i]);
      } else {
        assert System.inputs[i] == Estrutura;
        PartitionCovers(Estrutura, 0.0, 3.0, 5.0, 6.0, 8.0, 10.0, xs[i]);
      }
    }
  }

  /** Ratings in [0, 10] always fire a rule, so the tip is defined. */
  lemma GorjetaDefined(servico: real, estrutura: real)
    requires 0.0 <= servico <= 10.0 && 0.0 <= estrutura <= 10.0
    ensures GorjetaOf(servico, estrutura).Success?
  {
    SystemValid();
    RatingsCovered(servico, estrutura);
    RuleBaseIsComplete();
    OutputPeaksAreSampled();
    CompleteRuleBaseFires(System, [servico, estrutura]);
  }

  /**
   * For base ratings in [0, 10] both subsystems produce values in [0, 10], so
   * some rule of the main system fires and the tip is defined, within [0, 15].
   */
  lemma IntegratedGorjetaDefined(atendimento: real, comida: real, estacionamento: real, acessibilidade: real, limpeza: real)
    requires 0.0 <= atendimento <= 10.0 && 0.0 <= comida <= 10.0
    requires 0.0 <= estacionamento <= 10.0 && 0.0 <= acessibilidade <= 10.0 && 0.0 <= limpeza <= 10.0
    ensures IntegratedGorjeta(atendimento, comida, estacionamento, acessibilidade, limpeza).Success?
  {
    SubsystemServico.ServicoDefined(atendimento, comida);
    SubsistemaFuzzy.EstruturaDefined(estacionamento, acessibilidade, limpeza);
    var servico := SubsystemServico.ServicoOf(atendimento, comida).value;
    var estrutura := SubsistemaFuzzy.EstruturaOf(estacionamento, acessibilidade, limpeza).value;
    GorjetaDefined(servico, estrutura);
  }
}
