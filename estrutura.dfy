/**
 * The Estrutura subsystem: Estacionamento, Acessibilidade and Limpeza, each
 * rated on [0, 10], give an Estrutura rating on [0, 10] through 27 rules.
 */
module SubsistemaFuzzy {
  import opened Membership
  import opened Outcomes
  import opened Inference
  import opened Control

  /** The universe of every variable of this subsystem: 101 samples of [0, 10]. */
  const Universe := Linspace(0.0, 10.0, 101)

  /** Terms 0, 1, 2: Ruim, Regular, Bom. */
  const Estacionamento := Variable("Estacionamento", Universe, [
    Term("Ruim", Trap(0.0, 0.0, 2.0, 4.0)),
    Term("Regular", Trap(2.0, 4.0, 6.0, 8.0)),
    Term("Bom", Trap(6.0, 8.0, 10.0, 10.0))])

  /** Terms 0, 1, 2: Ruim, Regular, Boa. */
  const Acessibilidade := Variable("Acessibilidade", Universe, [
    Term("Ruim", Trap(0.0, 0.0, 2.0, 4.0)),
    Term("Regular", Trap(2.0, 4.0, 6.0, 8.0)),
    Term("Boa", Trap(6.0, 8.0, 10.0, 10.0))])

  /** Terms 0, 1, 2: Ruim, Regular, Boa. */
  const Limpeza := Variable("Limpeza", Universe, [
    Term("Ruim", Trap(0.0, 0.0, 2.0, 4.0)),
    Term("Regular", Trap(2.0, 4.0, 6.0, 8.0)),
    Term("Boa", Trap(6.0, 8.0, 10.0, 10.0))])

  /** Terms 0 to 4: Péssima, Ruim, Regular, Boa, Ótima. */
  const Estrutura := Variable("Estrutura", Universe, [
    Term("Péssima", Trap(0.0, 0.0, 2.0, 3.5)),
    Term("Ruim", Tri(2.0, 3.5, 5.0)),
    Term("Regular", Tri(3.5, 5.0, 6.5)),
    Term("Boa", Tri(5.0, 6.5, 8.0)),
    Term("Ótima", Trap(6.5, 8.0, 10.0, 10.0))])

  /** Input 0 is Estacionamento, input 1 Acessibilidade, input 2 Limpeza. */
  const Rules := [
    Rule([Is(0, 0), Is(1, 0), Is(2, 0)], 0), // Ruim, Ruim, Ruim => Péssima
    Rule([Is(0, 0), Is(1, 0), Is(2, 1)], 0), // Ruim, Ruim, Regular => Péssima
    Rule([Is(0, 0), Is(1, 0), Is(2, 2)], 1), // Ruim, Ruim, Boa => Ruim
    Rule([Is(0, 0), Is(1, 1), Is(2, 0)], 0), // Ruim, Regular, Ruim => Péssima
    Rule([Is(0, 0), Is(1, 1), Is(2, 1)], 2), // Ruim, Regular, Regular => Regular
    Rule([Is(0, 0), Is(1, 1), Is(2, 2)], 2), // Ruim, Regular, Boa => Regular
    Rule([Is(0, 0), Is(1, 2), Is(2, 0)], 1), // Ruim, Boa, Ruim => Ruim
    Rule([Is(0, 0), Is(1, 2), Is(2, 1)], 2), // Ruim, Boa, Regular => Regular
    Rule([Is(0, 0), Is(1, 2), Is(2, 2)], 3), // Ruim, Boa, Boa => Boa
    Rule([Is(0, 1), Is(1, 0), Is(2, 0)], 0), // Regular, Ruim, Ruim => Péssima
    Rule([Is(0, 1), Is(1, 0), Is(2, 1)], 2), // Regular, Ruim, Regular => Regular
    Rule([Is(0, 1), Is(1, 0), Is(2, 2)], 2), // Regular, Ruim, Boa => Regular
    Rule([Is(0, 1), Is(1, 1), Is(2, 0)], 1), // Regular, Regular, Ruim => Ruim
    Rule([Is(0, 1), Is(1, 1), Is(2, 1)], 2), // Regular, Regular, Regular => Regular
    Rule([Is(0, 1), Is(1, 1), Is(2, 2)], 3), // Regular, Regular, Boa => Boa
    Rule([Is(0, 1), Is(1, 2), Is(2, 0)], 1), // Regular, Boa, Ruim => Ruim
    Rule([Is(0, 1), Is(1, 2), Is(2, 1)], 3), // Regular, Boa, Regular => Boa
    Rule([Is(0, 1), Is(1, 2), Is(2, 2)], 4), // Regular, Boa, Boa => Ótima
    Rule([Is(0, 2), Is(1, 0), Is(2, 0)], 0), // Bom, Ruim, Ruim => Péssima
    Rule([Is(0, 2), Is(1, 0), Is(2, 1)], 2), // Bom, Ruim, Regular => Regular
    Rule([Is(0, 2), Is(1, 0), Is(2, 2)], 3), // Bom, Ruim, Boa => Boa
    Rule([Is(0, 2), Is(1, 1), Is(2, 0)], 1), // Bom, Regular, Ruim => Ruim
    Rule([Is(0, 2), Is(1, 1), Is(2, 1)], 3), // Bom, Regular, Regular => Boa
    Rule([Is(0, 2), Is(1, 1), Is(2, 2)], 4), // Bom, Regular, Boa => Ótima
    Rule([Is(0, 2), Is(1, 2), Is(2, 0)], 2), // Bom, Boa, Ruim => Regular
    Rule([Is(0, 2), Is(1, 2), Is(2, 1)], 4), // Bom, Boa, Regular => Ótima
    Rule([Is(0, 2), Is(1, 2), Is(2, 2)], 4)] // Bom, Boa, Boa => Ótima

  const System := Stage([Estacionamento, Acessibilidade, Limpeza], Estrutura, Rules)

  lemma SystemValid()
    ensures Valid(System)
    ensures Lo(Estrutura) == 0.0 && Hi(Estrutura) == 10.0
  {
    RuleBaseIsCrossProduct();
    forall r | r in System.rules ensures ValidRule(System, r) {
      var k :| 0 <= k < 27 && Rules[k] == r;
      assert r.antecedent == [Is(0, k / 9), Is(1, k / 3 % 3), Is(2, k % 3)];
    }
  }

  /** The defuzzified Estrutura rating for the given Estacionamento, Acessibilidade and Limpeza. */
  function EstruturaOf(estacionamento: real, acessibilidade: real, limpeza: real): (r: Result<real>)
    ensures r.Success? ==> 0.0 <= r.value <= 10.0
  {
    SystemValid();
    Evaluate(System, [estacionamento, acessibilidade, limpeza])
  }

  /**
   * Firing strength of rule j (numbered from 0) at the given ratings.
   * This is RuleStrength on this stage's constants, named here so that lemmas about them never make the
   * verifier re-establish Valid(System) from the literal tables.
   */
  function StrengthOf(estacionamento: real, acessibilidade: real, limpeza: real, j: nat): (r: real)
    requires j < 27
    ensures 0.0 <= r <= 1.0
  {
    SystemValid();
    RuleStrength(System, [estacionamento, acessibilidade, limpeza], j)
  }

  /**
   * The aggregated Estrutura set at the given ratings, one degree per sample of the
   * universe. This is AggregatedSet on this stage's constants, named here so that lemmas about them never make the
   * verifier re-establish Valid(System) from the literal tables.
   */
  function EstruturaSet(estacionamento: real, acessibilidade: real, limpeza: real): (mu: seq<real>)
    ensures |mu| == 101
  {
    SystemValid();
    AggregatedSet(System, [estacionamento, acessibilidade, limpeza])
  }

  /**
   * Writes the three inputs into the subsystem's simulation, computes, and
   * returns the Estrutura value; the result does not depend on what the
   * simulation held before.
   */
  method ComputeEstrutura(sim: Simulation, estacionamento: real, acessibilidade: real, limpeza: real) returns (r: Result<real>)
    requires sim.system == System
    modifies sim
    ensures r == EstruturaOf(estacionamento, acessibilidade, limpeza)
    ensures sim.input == old(sim.input)["Estacionamento" := estacionamento]["Acessibilidade" := acessibilidade]["Limpeza" := limpeza]
    ensures r.Success? ==> sim.output == old(sim.output)["Estrutura" := r.value]
    ensures r.Failure? ==> sim.output == old(sim.output)
  {
    SystemValid();
    sim.SetInput("Estacionamento", estacionamento);
    sim.SetInput("Acessibilidade", acessibilidade);
    sim.SetInput("Limpeza", limpeza);
    RunOnGivenInputs(System, sim.input, [estacionamento, acessibilidade, limpeza]);
    r := sim.Compute();
  }

  /** On [0, 10] the three terms of each input sum to exactly 1. */
  lemma AntecedentsPartition(x: real)
    requires 0.0 <= x <= 10.0
    ensures Degree(Estacionamento.terms[0].mf, x) + Degree(Estacionamento.terms[1].mf, x) + Degree(Estacionamento.terms[2].mf, x) == 1.0
    ensures Degree(Acessibilidade.terms[0].mf, x) + Degree(Acessibilidade.terms[1].mf, x) + Degree(Acessibilidade.terms[2].mf, x) == 1.0
    ensures Degree(Limpeza.terms[0].mf, x) + Degree(Limpeza.terms[1].mf, x) + Degree(Limpeza.terms[2].mf, x) == 1.0
  {
    PartitionOfUnity(0.0, 2.0, 4.0, 6.0, 8.0, 10.0, x);
  }

  /**
   * Rule k takes Estacionamento term k / 9, Acessibilidade term (k / 3) % 3 and
   * Limpeza term k % 3: every triple of terms in lexicographic order, once each.
   */
  lemma RuleBaseIsCrossProduct()
    ensures |Rules| == 27
    ensures forall k :: 0 <= k < 27 ==> Rules[k].antecedent == [Is(0, k / 9), Is(1, k / 3 % 3), Is(2, k % 3)]
    ensures forall k :: 0 <= k < 27 ==> Rules[k].consequent < 5
  {
    forall k | 0 <= k < 27
      ensures Rules[k].antecedent == [Is(0, k / 9), Is(1, k / 3 % 3), Is(2, k % 3)] && Rules[k].consequent < 5
    {
      TermsDetermineRule(k);
      RuleAt(k / 9, k / 3 % 3, k % 3);
    }
  }

  /** The rule for Estacionamento term a, Acessibilidade term b and Limpeza term c is rule 9a + 3b + c. */
  lemma RuleAt(a: nat, b: nat, c: nat)
    requires a < 3 && b < 3 && c < 3
    ensures Rules[9 * a + 3 * b + c].antecedent == [Is(0, a), Is(1, b), Is(2, c)]
    ensures Rules[9 * a + 3 * b + c].consequent < 5
  {
    if a == 0 {
      if b == 0 {
        if c == 0 {
        } else if c == 1 {
        } else {
        }
      } else if b == 1 {
        if c == 0 {
        } else if c == 1 {
        } else {
        }
      } else {
        if c == 0 {
        } else if c == 1 {
        } else {
        }
      }
    } else if a == 1 {
      if b == 0 {
        if c == 0 {
        } else if c == 1 {
        } else {
        }
      } else if b == 1 {
        if c == 0 {
        } else if c == 1 {
        } else {
        }
      } else {
        if c == 0 {
        } else if c == 1 {
        } else {
        }
      }
    } else {
      if b == 0 {
        if c == 0 {
        } else if c == 1 {
        } else {
        }
      } else if b == 1 {
        if c == 0 {
        } else if c == 1 {
        } else {
        }
      } else {
        if c == 0 {
        } else if c == 1 {
        } else {
        }
      }
    }
  }

  /** Every triple of input terms is the antecedent of some rule. */
  lemma RuleBaseIsComplete()
    ensures Complete(System)
  {
    RuleBaseIsCrossProduct();
    forall choice | IsChoice(System, choice) ensures Handles(System, choice) {
      var k := 9 * choice[0] + 3 * choice[1] + choice[2];
      RuleIndex(choice[0], choice[1], choice[2]);
      assert Matches(Rules[k].antecedent, choice);
    }
  }

  /** No two rules share an antecedent. */
  lemma RulesAreDistinct()
    ensures Unambiguous(System)
  {
    RuleBaseIsCrossProduct();
    forall j, k | 0 <= j < 27 && 0 <= k < 27 && Rules[j].antecedent == Rules[k].antecedent ensures j == k {
      assert Rules[j].antecedent[0].term == Rules[k].antecedent[0].term;
      assert Rules[j].antecedent[1].term == Rules[k].antecedent[1].term;
      assert Rules[j].antecedent[2].term == Rules[k].antecedent[2].term;
      TermsDetermineRule(j);
      TermsDetermineRule(k);
    }
  }

  lemma TermsDetermineRule(k: nat)
    requires k < 27
    ensures k == 9 * (k / 9) + 3 * (k / 3 % 3) + k % 3
  {
  }

  lemma RuleIndex(a: nat, b: nat, c: nat)
    requires a < 3 && b < 3 && c < 3
    ensures (9 * a + 3 * b + c) / 9 == a && (9 * a + 3 * b + c) / 3 % 3 == b && (9 * a + 3 * b + c) % 3 == c
  {
  }

  /** The conclusion of each of the 27 rules, from Péssima = 0 to Ótima = 4. */
  lemma ConsequentTable()
    ensures Rules[0].consequent == 0
    ensures Rules[1].consequent == 0
    ensures Rules[2].consequent == 1
    ensures Rules[3].consequent == 0
    ensures Rules[4].consequent == 2
    ensures Rules[5].consequent == 2
    ensures Rules[6].consequent == 1
    ensures Rules[7].consequent == 2
    ensures Rules[8].consequent == 3
    ensures Rules[9].consequent == 0
    ensures Rules[10].consequent == 2
    ensures Rules[11].consequent == 2
    ensures Rules[12].consequent == 1
    ensures Rules[13].consequent == 2
    ensures Rules[14].consequent == 3
    ensures Rules[15].consequent == 1
    ensures Rules[16].consequent == 3
    ensures Rules[17].consequent == 4
    ensures Rules[18].consequent == 0
    ensures Rules[19].consequent == 2
    ensures Rules[20].consequent == 3
    ensures Rules[21].consequent == 1
    ensures Rules[22].consequent == 3
    ensures Rules[23].consequent == 4
    ensures Rules[24].consequent == 2
    ensures Rules[25].consequent == 4
    ensures Rules[26].consequent == 4
  {
  }

  /**
   * A better Estacionamento, Acessibilidade or Limpeza term, the others held,
   * never concludes a worse Estrutura term; hence neither do several at once.
   */
  lemma RuleBaseIsMonotone()
    ensures Monotone(System)
  {
    RuleBaseIsCrossProduct();
    forall j, k | 0 <= j < 27 && 0 <= k < 27 && Below(Rules[j].antecedent, Rules[k].antecedent)
      ensures Rules[j].consequent <= Rules[k].consequent
    {
      assert Rules[j].antecedent[0].term <= Rules[k].antecedent[0].term;
      assert Rules[j].antecedent[1].term <= Rules[k].antecedent[1].term;
      assert Rules[j].antecedent[2].term <= Rules[k].antecedent[2].term;
      TermsDetermineRule(j);
      TermsDetermineRule(k);
      RaiseAll(j / 9, j / 3 % 3, j % 3, k / 9, k / 3 % 3, k % 3);
    }
  }

  /** Raising the terms one step at a time, Estacionamento first, never lowers the conclusion. */
  lemma {:induction false} RaiseAll(a: nat, b: nat, c: nat, a': nat, b': nat, c': nat)
    requires a <= a' < 3 && b <= b' < 3 && c <= c' < 3
    ensures Rules[9 * a + 3 * b + c].consequent <= Rules[9 * a' + 3 * b' + c'].consequent
    decreases a' - a, b' - b, c' - c
  {
    if a < a' {
      RaiseEstacionamento(a, b, c);
      RaiseAll(a + 1, b, c, a', b', c');
    } else if b < b' {
      RaiseAcessibilidade(a, b, c);
      RaiseAll(a, b + 1, c, a', b', c');
    } else if c < c' {
      RaiseLimpeza(a, b, c);
      RaiseAll(a, b, c + 1, a', b', c');
    }
  }

  /** One better Estacionamento term never concludes a worse Estrutura term. */
  lemma RaiseEstacionamento(a: nat, b: nat, c: nat)
    requires a < 2 && b < 3 && c < 3
    ensures Rules[9 * a + 3 * b + c].consequent <= Rules[9 * (a + 1) + 3 * b + c].consequent
  {
    ConsequentTable();
    if a == 0 {
      if b == 0 {
        if c == 0 {
        } else if c == 1 {
        } else {
        }
      } else if b == 1 {
        if c == 0 {
        } else if c == 1 {
        } else {
        }
      } else {
        if c == 0 {
        } else if c == 1 {
        } else {
        }
      }
    } else {
      if b == 0 {
        if c == 0 {
        } else if c == 1 {
        } else {
        }
      } else if b == 1 {
        if c == 0 {
        } else if c == 1 {
        } else {
        }
      } else {
        if c == 0 {
        } else if c == 1 {
        } else {
        }
      }
    }
  }

  /** One better Acessibilidade term never concludes a worse Estrutura term. */
  lemma RaiseAcessibilidade(a: nat, b: nat, c: nat)
    requires a < 3 && b < 2 && c < 3
    ensures Rules[9 * a + 3 * b + c].consequent <= Rules[9 * a + 3 * (b + 1) + c].consequent
  {
    ConsequentTable();
    if a == 0 {
      if b == 0 {
        if c == 0 {
        } else if c == 1 {
        } else {
        }
      } else {
        if c == 0 {
        } else if c == 1 {
        } else {
        }
      }
    } else if a == 1 {
      if b == 0 {
        if c == 0 {
        } else if c == 1 {
        } else {
        }
      } else {
        if c == 0 {
        } else if c == 1 {
        } else {
        }
      }
    } else {
      if b == 0 {
        if c == 0 {
        } else if c == 1 {
        } else {
        }
      } else {
        if c == 0 {
        } else if c == 1 {
        } else {
        }
      }
    }
  }

  /** One better Limpeza term never concludes a worse Estrutura term. */
  lemma RaiseLimpeza(a: nat, b: nat, c: nat)
    requires a < 3 && b < 3 && c < 2
    ensures Rules[9 * a + 3 * b + c].consequent <= Rules[9 * a + 3 * b + c + 1].consequent
  {
    ConsequentTable();
    if a == 0 {
      if b == 0 {
        if c == 0 {
        } else {
        }
      } else if b == 1 {
        if c == 0 {
        } else {
        }
      } else {
        if c == 0 {
        } else {
        }
      }
    } else if a == 1 {
      if b == 0 {
        if c == 0 {
        } else {
        }
      } else if b == 1 {
        if c == 0 {
        } else {
        }
      } else {
        if c == 0 {
        } else {
        }
      }
    } else {
      if b == 0 {
        if c == 0 {
        } else {
        }
      } else if b == 1 {
        if c == 0 {
        } else {
        }
      } else {
        if c == 0 {
        } else {
        }
      }
    }
  }

  /**
   * Each Estrutura term reaches degree 1 at a sample: Péssima on [0, 2], Ruim
   * at 3.5, Regular at 5, Boa at 6.5, Ótima on [8, 10].
   */
  lemma OutputPeaksAreSampled()
    ensures PeaksSampled(Estrutura)
  {
    LinspaceSample(0.0, 10.0, 101, 35);
    LinspaceSample(0.0, 10.0, 101, 50);
    LinspaceSample(0.0, 10.0, 101, 65);
    assert Degree(Estrutura.terms[0].mf, Universe[0]) == 1.0;
    assert Degree(Estrutura.terms[1].mf, Universe[35]) == 1.0;
    assert Degree(Estrutura.terms[2].mf, Universe[50]) == 1.0;
    assert Degree(Estrutura.terms[3].mf, Universe[65]) == 1.0;
    assert Degree(Estrutura.terms[4].mf, Universe[100]) == 1.0;
  }

  /** Every rating in [0, 10] belongs to some term of its input with a positive degree. */
  lemma RatingsCovered(estacionamento: real, acessibilidade: real, limpeza: real)
    requires 0.0 <= estacionamento <= 10.0 && 0.0 <= acessibilidade <= 10.0 && 0.0 <= limpeza <= 10.0
    ensures Covered(System, [estacionamento, acessibilidade, limpeza])
  {
    var xs := [estacionamento, acessibilidade, limpeza];
    forall i | 0 <= i < |System.inputs| ensures Covers(System.inputs[i], xs[i]) {
      var v := if i == 0 then Estacionamento else if i == 1 then Acessibilidade else Limpeza;
      assert System.inputs[i] == v;
      PartitionCovers(v, 0.0, 2.0, 4.0, 6.0, 8.0, 10.0, xs[i]);
    }
  }

  /** Ratings in [0, 10] always fire a rule, so the Estrutura value is defined. */
  lemma EstruturaDefined(estacionamento: real, acessibilidade: real, limpeza: real)
    requires 0.0 <= estacionamento <= 10.0 && 0.0 <= acessibilidade <= 10.0 && 0.0 <= limpeza <= 10.0
    ensures EstruturaOf(estacionamento, acessibilidade, limpeza).Success?
  {
    SystemValid();
    RatingsCovered(estacionamento, acessibilidade, limpeza);
    RuleBaseIsComplete();
    OutputPeaksAreSampled();
    CompleteRuleBaseFires(System, [estacionamento, acessibilidade, limpeza]);
  }

  /**
   * With all three ratings 0, rule 1 (all Ruim, concluding Péssima) fires at
   * full strength and no other rule fires.
   */
  lemma WorstRatingsFireOnlyRuleOne()
    ensures StrengthOf(0.0, 0.0, 0.0, 0) == 1.0
    ensures forall j :: 1 <= j < 27 ==> StrengthOf(0.0, 0.0, 0.0, j) == 0.0
    ensures Rules[0].consequent == 0
  {
    forall j | 1 <= j < 27 ensures StrengthOf(0.0, 0.0, 0.0, j) == 0.0 {
      SilentAtWorst(j);
    }
    SystemValid();
    var xs := [0.0, 0.0, 0.0];
    var worst := Rules[0].antecedent;
    assert worst == [Is(0, 0), Is(1, 0), Is(2, 0)];
    assert InputDegree(System, xs, worst[0]) == Degree(Estacionamento.terms[0].mf, 0.0) == 1.0;
    assert InputDegree(System, xs, worst[1]) == Degree(Acessibilidade.terms[0].mf, 0.0) == 1.0;
    assert InputDegree(System, xs, worst[2]) == Degree(Limpeza.terms[0].mf, 0.0) == 1.0;
  }

  lemma SilentAtWorst(j: nat)
    requires 1 <= j < 27
    ensures StrengthOf(0.0, 0.0, 0.0, j) == 0.0
  {
    SystemValid();
    RuleBaseIsCrossProduct();
    var xs := [0.0, 0.0, 0.0];
    if 0 < j / 9 {
      var c := Rules[j].antecedent[0];
      assert c == Is(0, j / 9);
      assert InputDegree(System, xs, c) == Degree(Estacionamento.terms[j / 9].mf, 0.0) == 0.0;
    } else if 0 < j / 3 % 3 {
      var c := Rules[j].antecedent[1];
      assert c == Is(1, j / 3 % 3);
      assert InputDegree(System, xs, c) == Degree(Acessibilidade.terms[j / 3 % 3].mf, 0.0) == 0.0;
    } else {
      var c := Rules[j].antecedent[2];
      assert c == Is(2, j % 3);
      assert InputDegree(System, xs, c) == Degree(Limpeza.terms[j % 3].mf, 0.0) == 0.0;
    }
  }

  /** With all three ratings 0 the aggregated set is the Péssima term itself. */
  lemma WorstRatingsGivePessimaSet()
    ensures forall k :: 0 <= k < 101 ==> EstruturaSet(0.0, 0.0, 0.0)[k] == Degree(Estrutura.terms[0].mf, Universe[k])
  {
    SystemValid();
    var xs := [0.0, 0.0, 0.0];
    WorstRatingsFireOnlyRuleOne();
    assert forall j :: 0 <= j < 27 ==> StrengthOf(0.0, 0.0, 0.0, j) == RuleStrength(System, xs, j);
    assert forall j :: 0 <= j < |System.rules| && j != 0 ==> RuleStrength(System, xs, j) == 0.0;
    OnlyFiringRule(System, xs, 0);
  }

  /** With all three ratings 0 the Estrutura value is defined and lies in Péssima's support [0, 3.5]. */
  lemma WorstRatingsGivePessima()
    ensures EstruturaOf(0.0, 0.0, 0.0).Success? && 0.0 <= EstruturaOf(0.0, 0.0, 0.0).value <= 3.5
  {
    SystemValid();
    var mu := EstruturaSet(0.0, 0.0, 0.0);
    WorstRatingsGivePessimaSet();
    assert forall k :: 0 <= k < 101 && 0.0 < mu[k] ==> 0.0 <= Universe[k] <= 3.5;
    CentroidWithinSupport(Universe, mu, 0.0, 3.5);
    assert EstruturaOf(0.0, 0.0, 0.0) == Centroid(Universe, mu);
    assert mu[0] == 1.0;
  }
}
