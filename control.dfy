/**
 * The simulation object each stage keeps at module level: callers write crisp
 * values into its input map one antecedent at a time, ask it to compute, and
 * read the defuzzified value from its output map under the consequent's name.
 */
module Control {
  import opened Outcomes
  import opened Inference

  /**
   * The crisp value given to each variable, in the order of `vars`, or the
   * name of the first variable that has no value yet.
   */
  function Gather(vars: seq<Variable>, input: map<string, real>): (r: Result<seq<real>>)
    ensures r.Success? <==> forall i :: 0 <= i < |vars| ==> vars[i].name in input
    ensures r.Success? ==> |r.value| == |vars| && forall i :: 0 <= i < |vars| ==> r.value[i] == input[vars[i].name]
    ensures r.Failure? ==> exists i :: 0 <= i < |vars| && FirstMissing(vars, input, i) && r.error == MissingInput(vars[i].name)
  {
    if |vars| == 0 then Success([])
    else if vars[0].name !in input then Failure(MissingInput(vars[0].name))
    else
      match Gather(vars[1..], input)
      case Failure(e) =>
        assert forall i :: 1 <= i < |vars| ==> vars[i] == vars[1..][i - 1];
        Failure(e)
      case Success(rest) =>
        assert forall i :: 1 <= i < |vars| ==> vars[i] == vars[1..][i - 1];
        Success([input[vars[0].name]] + rest)
  }

  /** Variable i has no value while every variable before it has one. */
  predicate FirstMissing(vars: seq<Variable>, input: map<string, real>, i: nat)
    requires i < |vars|
  {
    vars[i].name !in input && forall j :: 0 <= j < i ==> vars[j].name in input
  }

  /** One `compute` of a stage on the values currently in the input map. */
  function Run(s: Stage, input: map<string, real>): (r: Result<real>)
    requires Valid(s)
    ensures r.Success? ==> Lo(s.output) <= r.value <= Hi(s.output)
    ensures (forall i :: 0 <= i < |s.inputs| ==> s.inputs[i].name in input) <==> !(r.Failure? && r.error.MissingInput?)
  {
    var xs :- Gather(s.inputs, input);
    Evaluate(s, xs)
  }

  /** A control-system simulation: its stage, and the maps of crisp inputs and outputs. */
  class Simulation {
    const system: Stage
    var input: map<string, real>
    var output: map<string, real>

    constructor (system: Stage)
      ensures this.system == system
      ensures input == map[] && output == map[]
    {
      this.system := system;
      input := map[];
      output := map[];
    }

    /** Writes one antecedent's crisp value; every other entry stays. */
    method SetInput(name: string, value: real)
      modifies this
      ensures input == old(input)[name := value]
      ensures output == old(output)
    {
      input := input[name := value];
    }

    /**
     * Evaluates the stage on the current inputs and, on success, records the
     * value under the consequent's name. The input map is left as it was.
     */
    method Compute() returns (r: Result<real>)
      requires Valid(system)
      modifies this
      ensures r == Run(system, input)
      ensures input == old(input)
      ensures r.Success? ==> output == old(output)[system.output.name := r.value]
      ensures r.Failure? ==> output == old(output)
    {
      r := Run(system, input);
      if r.Success? {
        output := output[system.output.name := r.value];
      }
    }
  }

  /** The output map after a compute: the value stored under `name` on success, the map unchanged on failure. */
  function Recorded(output: map<string, real>, name: string, r: Result<real>): (m: map<string, real>)
    ensures r.Success? ==> name in m && m[name] == r.value
    ensures forall n :: n != name ==> (n in m <==> n in output) && (n in m ==> m[n] == output[n])
    ensures r.Failure? ==> m == output
  {
    if r.Success? then output[name := r.value] else output
  }

  /** Once every antecedent has a value, the run is the evaluation of those values in input order. */
  lemma RunOnGivenInputs(s: Stage, input: map<string, real>, xs: seq<real>)
    requires Valid(s) && |xs| == |s.inputs|
    requires forall i :: 0 <= i < |s.inputs| ==> s.inputs[i].name in input && input[s.inputs[i].name] == xs[i]
    ensures Run(s, input) == Evaluate(s, xs)
  {
    assert Gather(s.inputs, input).value == xs;
  }
}
