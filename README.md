# Fuzzy tip calculator, modelled in Dafny

The system rates a restaurant visit in three Mamdani fuzzy stages and suggests a tip:

| stage | inputs | rules | output |
|---|---|---|---|
| Serviço (`subsystem_servico.py`) | Atendimento, Comida | 9 | Serviço, 0 to 10 |
| Estrutura (`subsistema_fuzzy.py`) | Estacionamento, Acessibilidade, Limpeza | 27 | Estrutura, 0 to 10 |
| Gorjeta (`sistema_gorjeta.py`) | Serviço, Estrutura | 9 | Gorjeta, 0 to 15 |

The integrated tip feeds the two subsystem outputs into the Gorjeta stage.

The Python files only declare data for scikit-fuzzy's control API: universes, term shapes and rule tables. The model rebuilds the arithmetic behind that API, using its default operators:
- AND (`&`) is the minimum.
- Implication clips the consequent term at the rule's strength (min).
- Aggregation is the pointwise maximum.
- Defuzzification takes the centroid over the sampled output universe.

All of it is over exact `real` numbers.

The model is split into these files:
- `membership.dfy` (`Membership`): triangular and trapezoidal membership functions, with partition-of-unity facts.
- `inference.dfy` (`Inference`): a generic stage, including variables, rules, fuzzification, rule strength, aggregation and centroid. It also proves generic theorems about when a stage produces a value.
- `control.dfy` (`Control`): the control-system simulation object each stage keeps at module level. It is a class with an input map written one name at a time, a `Compute` method, and an output map.
- `servico.dfy` (`SubsystemServico`), `estrutura.dfy` (`SubsistemaFuzzy`) and `gorjeta.dfy` (`SistemaGorjeta`): each stage's constant term and rule tables, its compute function, and the properties those tables give. `gorjeta.dfy` also holds the integrated pipeline.
- `outcomes.dfy` (`Outcomes`): the `Result` type.

When no rule fires, scikit-fuzzy raises an exception instead of returning a value. The model returns `Failure(NoRuleFired)` in that case. It returns `Failure(MissingInput(name))` when an antecedent was never given a value.

Term and rule numbers in the Dafny tables start at 0. Rule k of the Serviço table is the source's rule k + 1.

The Gorjeta term "Muito baixa" is kept as written, `trimf [0, 0, 3.755]`. Every other tip term has its breakpoints at multiples of 3.75.

## Model

| member | source | states |
|---|---|---|
| Membership.Degree | subsystem_servico.py:18-32 | Every term degree lies in [0,1] and is exactly 0 outside the term's support. It is 1 on the core, including the step of a zero-width edge. It is positive strictly inside the support. |
| Membership.TriangleIsDegenerateTrapezoid | sistema_gorjeta.py:24-26 | `trimf(a,b,c)` gives the same degree as `trapmf(a,b,b,c)` at every point. |
| Membership.DegreeRisesThenFalls | subsystem_servico.py:28-32 | Each shape is convex: it never decreases up to its core and never increases after it. |
| Membership.PartitionOfUnity | subsistema_fuzzy.py:20-32 | Three terms shaped as a left shoulder, a middle trapezoid or triangle, and a right shoulder that hand over on the same edges sum to exactly 1 at every point of the universe. |
| Membership.PartitionHasPositiveTerm | subsystem_servico.py:18-25 | In such a partition, at least one term is positive at every point of the universe. |
| Inference.Linspace | subsystem_servico.py:6-8 | The universe has n samples from lo to hi, with both ends included and every sample in [lo, hi]. |
| Inference.LinspaceEvenlySpaced | subsystem_servico.py:6-8 | Neighbouring samples are exactly (hi − lo)/(n − 1) apart, so the universe is strictly increasing. |
| Inference.Fuzzify | subsystem_servico.py:74-77 | Fuzzifying gives, for each input and each of its terms, that term's degree at the input's crisp value, always in [0,1]. |
| Inference.Strength | subsystem_servico.py:48-56 | The strength of an AND antecedent is its minimum degree: it lies in [0,1], is at most each clause's degree, and equals one of them. |
| Inference.StrengthPositive | subsystem_servico.py:48-56 | A rule fires (strength > 0) exactly when every clause of its antecedent has a positive degree. |
| Inference.RuleStrength | subsistema_fuzzy.py:50-76 | A stage rule's strength at crisp inputs is the minimum of its clauses' degrees at those inputs, and 1 for an empty antecedent. |
| Inference.AggregateAt | subsystem_servico.py:59-63 | The aggregated degree at a sample is the maximum of the rules' clipped consequents: at least each of them, equal to one of them, and 0 with no rules. |
| Inference.AggregatedSet | subsistema_fuzzy.py:79-84 | At every output sample the aggregated degree is the maximum over the rules of each consequent term clipped at its rule's strength. It is at least every clipped consequent, equals one of them, lies in [0,1], and is 0 when there are no rules. |
| Inference.TorqueDecomposes | subsystem_servico.py:77 | The torque about c equals Σ y·μ − c·Σ μ, which links the balance point to the quotient Σ y·μ / Σ μ. |
| Inference.MassZero | subsystem_servico.py:77 | The sum of the aggregated degrees is 0 exactly when every degree is 0. |
| Inference.Centroid | subsystem_servico.py:77-79 | Fails with NoRuleFired exactly when the set is zero everywhere. Otherwise the value has zero net torque about it. |
| Inference.CentroidIsBalancePoint | subsystem_servico.py:77-79 | The centroid is the only point with zero net torque. |
| Inference.CentroidWithinSupport | subsystem_servico.py:77-79 | The centroid lies in every interval outside which the sampled set is zero. |
| Inference.Evaluate | subsystem_servico.py:77-79 | A stage fails with NoRuleFired exactly when its aggregated set is zero at every sample. Otherwise its value lies within the output universe and balances the aggregated set. |
| Inference.FiringRuleDefinesOutput | subsystem_servico.py:48-56 | A firing rule whose consequent term is positive at some output sample makes the stage's value defined. |
| Inference.SilentRulesFail | subsistema_fuzzy.py:79-84 | When no rule fires, the stage reports NoRuleFired. |
| Inference.OnlyFiringRule | subsystem_servico.py:48-56 | When only one rule fires, the aggregated set is that rule's consequent term clipped at its strength. |
| Inference.WeakerDuplicateAbsorbed | subsistema_fuzzy.py:79-83 | Adding a rule whose conclusion an at-least-as-strong rule already draws leaves the aggregated set unchanged. Overlapping conclusions merge by maximum, never by sum. |
| Inference.SumTableIsCompleteAndMonotone | subsystem_servico.py:48-56 | A two-input stage whose rule k pairs terms k/3 and k%3 and concludes term k/3 + k%3 has exactly one rule per pair of terms, and a better pair of terms never concludes a lower term. The Serviço and Gorjeta stages both have this table. |
| Inference.PartitionCovers | subsistema_fuzzy.py:20-32 | A variable whose three terms partition [lo, hi] covers every point of it. |
| Inference.CompleteRuleBaseFires | subsistema_fuzzy.py:50-76 | A stage always produces a value when its rule base has a rule for every combination of terms, every consequent term peaks at an output sample, and every input belongs to some term. |
| Control.Gather | subsystem_servico.py:74-77 | Reading the inputs succeeds exactly when every antecedent has a value, and yields those values in input order. Otherwise it names the first antecedent, in input order, that has none. |
| Control.Run | subsystem_servico.py:77-79 | One compute either stays within the output universe or fails. It fails for a missing input exactly when some antecedent has no value. |
| Control.RunOnGivenInputs | subsystem_servico.py:74-79 | Once every antecedent has a value, computing evaluates the stage on exactly those values. |
| Control.Simulation.constructor | subsystem_servico.py:64 | A new simulation has its stage and empty input and output maps. |
| Control.Simulation.SetInput | subsystem_servico.py:74-75 | Writing one input changes that entry and nothing else. |
| Control.Simulation.Compute | subsystem_servico.py:77-79 | The result is the stage run on the current inputs. The inputs are unchanged. On success the value is stored under the consequent's name; on failure the outputs are unchanged. |
| SubsystemServico.SystemValid | subsystem_servico.py:6-63 | The Serviço tables form a well-formed stage whose output universe is [0, 10]. |
| SubsystemServico.ServicoOf | subsystem_servico.py:67-79 | A defined Serviço value lies in [0, 10]. |
| SubsystemServico.ComputeServico | subsystem_servico.py:67-79 | Writes Atendimento and Comida, computes, and returns ServicoOf of the arguments whatever the simulation held before. The value is recorded under "Serviço". |
| SubsystemServico.AntecedentsPartition | subsystem_servico.py:18-25 | On [0, 10] the degrees of Ruim, Regular and Bom/Boa sum to exactly 1 for both inputs. |
| SubsystemServico.RuleBaseIsCrossProduct | subsystem_servico.py:37-56 | Rule k pairs Atendimento term k/3 with Comida term k%3. It concludes term k/3 + k%3, from Péssimo = 0 up to Ótimo = 4. |
| SubsystemServico.RuleBaseIsComplete | subsystem_servico.py:48-56 | Every (Atendimento, Comida) pair of terms is the antecedent of exactly one rule. |
| SubsystemServico.RuleBaseIsMonotone | subsystem_servico.py:37-56 | Raising either input's term never lowers the concluded term. |
| SubsystemServico.OutputPeaksAreSampled | subsystem_servico.py:28-32 | Each Serviço term reaches degree 1 at a sample of the universe. |
| SubsystemServico.RatingsCovered | subsystem_servico.py:18-25 | Every rating in [0, 10] belongs to some term with a positive degree. |
| SubsystemServico.ServicoDefined | subsystem_servico.py:18-56 | For ratings in [0, 10] some rule fires and the Serviço value is defined. |
| SubsystemServico.BestRatingsFireOnlyRuleNine | subsystem_servico.py:48-56 | With Atendimento = Comida = 10, rule 9 fires at strength 1 and no other rule fires. |
| SubsystemServico.BestRatingsGiveOtimoSet | subsystem_servico.py:32-56 | In that case the aggregated set equals the Ótimo trapezoid (6.5, 8, 10, 10) at every sample. |
| SubsystemServico.BestRatingsGiveOtimo | subsystem_servico.py:67-79 | In that case the Serviço value is defined and lies in [6.5, 10]. |
| SubsistemaFuzzy.SystemValid | subsistema_fuzzy.py:6-84 | The Estrutura tables form a well-formed stage whose output universe is [0, 10]. |
| SubsistemaFuzzy.EstruturaOf | subsistema_fuzzy.py:87-102 | A defined Estrutura value lies in [0, 10]. |
| SubsistemaFuzzy.ComputeEstrutura | subsistema_fuzzy.py:87-102 | Writes the three inputs, computes, and returns EstruturaOf of the arguments whatever the simulation held before. The value is recorded under "Estrutura". |
| SubsistemaFuzzy.AntecedentsPartition | subsistema_fuzzy.py:20-32 | On [0, 10] each input's terms (0,0,2,4), (2,4,6,8) and (6,8,10,10) sum to exactly 1. |
| SubsistemaFuzzy.RuleBaseIsCrossProduct | subsistema_fuzzy.py:50-76 | Rule k takes terms k/9, (k/3)%3 and k%3: every triple of terms appears in lexicographic order. Every rule concludes an existing term. |
| SubsistemaFuzzy.RuleBaseIsComplete | subsistema_fuzzy.py:50-76 | Every triple of input terms is the antecedent of some rule. |
| SubsistemaFuzzy.RulesAreDistinct | subsistema_fuzzy.py:50-76 | No two of the 27 rules share an antecedent, so each triple has at most one rule. |
| SubsistemaFuzzy.RuleBaseIsMonotone | subsistema_fuzzy.py:50-76 | Raising any of the three inputs' terms never lowers the concluded term, from Péssima = 0 up to Ótima = 4. |
| SubsistemaFuzzy.RaiseEstacionamento | subsistema_fuzzy.py:50-76 | Raising the Estacionamento term by one step, the other two fixed, never lowers the concluded term. |
| SubsistemaFuzzy.RaiseAcessibilidade | subsistema_fuzzy.py:50-76 | Raising the Acessibilidade term by one step, the other two fixed, never lowers the concluded term. |
| SubsistemaFuzzy.RaiseLimpeza | subsistema_fuzzy.py:50-76 | Raising the Limpeza term by one step, the other two fixed, never lowers the concluded term. |
| SubsistemaFuzzy.OutputPeaksAreSampled | subsistema_fuzzy.py:35-39 | Each Estrutura term reaches degree 1 at some sample of the universe (witnessed at 0, 3.5, 5, 6.5 and 10 in the proof). |
| SubsistemaFuzzy.RatingsCovered | subsistema_fuzzy.py:20-32 | Every rating in [0, 10] belongs to some term with a positive degree. |
| SubsistemaFuzzy.EstruturaDefined | subsistema_fuzzy.py:20-76 | For ratings in [0, 10] some rule fires and the Estrutura value is defined. |
| SubsistemaFuzzy.WorstRatingsFireOnlyRuleOne | subsistema_fuzzy.py:50-76 | With all inputs 0, rule 1 (all Ruim ⇒ Péssima) fires at strength 1 and no other rule fires. |
| SubsistemaFuzzy.WorstRatingsGivePessimaSet | subsistema_fuzzy.py:35-50 | In that case the aggregated set equals the Péssima term at every sample. |
| SubsistemaFuzzy.WorstRatingsGivePessima | subsistema_fuzzy.py:87-102 | In that case the Estrutura value is defined and lies in [0, 3.5]. |
| SistemaGorjeta.SystemValid | sistema_gorjeta.py:11-70 | The Gorjeta tables form a well-formed stage whose output universe is [0, 15]. |
| SistemaGorjeta.GorjetaOf | sistema_gorjeta.py:73-81 | A defined tip lies in [0, 15]. |
| SistemaGorjeta.ComputeGorjeta | sistema_gorjeta.py:73-81 | Writes Serviço and Estrutura, computes, and returns GorjetaOf of the arguments whatever the simulation held before, so equal arguments give equal tips. The value is recorded under "Gorjeta". |
| SistemaGorjeta.IntegratedGorjeta | sistema_gorjeta.py:84-103 | A defined integrated tip lies in [0, 15]. |
| SistemaGorjeta.ComputeIntegratedGorjeta | sistema_gorjeta.py:84-103 | Running the Serviço and Estrutura simulations and then the main one returns IntegratedGorjeta of the five ratings. Each simulation that runs has its inputs written and, on success, its value recorded under its output's name. A failing stage leaves every later simulation exactly as it was. |
| SistemaGorjeta.AntecedentsPartition | sistema_gorjeta.py:24-31 | On [0, 10] the Serviço terms trap(0,0,2,5), tri(2,5,8) and trap(5,8,10,10) sum to exactly 1. So do the Estrutura terms (0,0,3,5), (3,5,6,8) and (6,8,10,10). |
| SistemaGorjeta.RuleBaseIsCrossProduct | sistema_gorjeta.py:43-62 | Rule k pairs Serviço term k/3 with Estrutura term k%3. It concludes tip term k/3 + k%3, from Muito baixa = 0 up to Muito alta = 4. |
| SistemaGorjeta.RuleBaseIsComplete | sistema_gorjeta.py:54-62 | Every (Serviço, Estrutura) pair of terms is the antecedent of exactly one rule. |
| SistemaGorjeta.RuleBaseIsMonotone | sistema_gorjeta.py:43-62 | A better Serviço or Estrutura term never concludes a lower tip term. |
| SistemaGorjeta.OutputPeaksAreSampled | sistema_gorjeta.py:34-38 | Each tip term reaches degree 1 at some sample of the universe (witnessed at 0, 3.75, 7.5, 11.25 and 15 in the proof). |
| SistemaGorjeta.MuitoBaixaRisesAsStep | sistema_gorjeta.py:34 | Muito baixa jumps from 0 below 0 to 1 at 0, and lies strictly between 0 and 1 on (0, 3.755). |
| SistemaGorjeta.RatingsCovered | sistema_gorjeta.py:24-31 | Every rating in [0, 10] belongs to some term with a positive degree. |
| SistemaGorjeta.GorjetaDefined | sistema_gorjeta.py:24-62 | For ratings in [0, 10] some rule fires and the tip is defined. |
| SistemaGorjeta.IntegratedGorjetaDefined | sistema_gorjeta.py:96-101 | For five base ratings in [0, 10], both subsystem values are defined and in [0, 10]. So some main rule fires and the integrated tip is defined. |

## Left out

- `Gorjeta_streamlit.py` is not part of this model. It is the interactive front end: sliders, messages and membership plots. Its term table repeats `sistema_gorjeta.py`.
- The `__main__` demonstration blocks and what they print are left out.
- Defuzzification: scikit-fuzzy's centroid integrates the piecewise-linear aggregate between samples. The model takes the weighted average Σ y·μ / Σ μ over the 101 samples of the output universe. The bounds, definedness and balance properties hold for this average. The exact numbers are not those of the library.
- SubsystemServico.ServicoOf: states bounds and definedness, not the exact defuzzified value. The same holds for SubsistemaFuzzy.EstruturaOf, SistemaGorjeta.GorjetaOf and SistemaGorjeta.IntegratedGorjeta, because the library's centroid formula is not modelled.
- Crisp inputs outside a universe: the library clips them to the universe before fuzzifying. The model evaluates the shapes at the given value as is, and its definedness theorems assume inputs in [0, 10].
- The library fuzzifies an input by interpolating the sampled membership function. The model evaluates the shape exactly. The two agree because every antecedent breakpoint lies on the 0.1 sampling grid.
- Floating point: `linspace` samples and all breakpoints are exact reals, with no rounding.
- The library raises an exception when nothing fires or an input is missing. The model returns a `Failure` value instead, and the integrated tip propagates it.
- The three module-level simulation objects are method parameters rather than globals. Sharing them between concurrent callers (reentrancy) is not modelled.
