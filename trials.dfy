/** The part of an Optuna trial the tool uses: categorical suggestions that
    are recorded in `params`, user attributes, and the frozen record a study
    keeps of a finished trial. */
module Trials {
  import opened Wrappers
  import opened Values

  /** The sampler behind `trial.suggest_categorical`, as an oracle: given the
      parameters the trial already holds, a parameter name and a non-empty
      list of choices, it answers one of the choices. Whatever the sampler
      learns from earlier trials, and its random state, are fixed for the
      duration of one trial and therefore part of the function. */
  type Sampler = f: (map<string, Val>, string, seq<Val>) -> Val
    | forall p, n, d | d != [] :: f(p, n, d) in d
    witness FirstChoice

  function FirstChoice(p: map<string, Val>, n: string, d: seq<Val>): Val {
    if d == [] then B(false) else d[0]
  }

  /** Optuna's message for a categorical distribution without choices. */
  const EmptyChoices := "The `choices` must contain one or more elements."

  /** What `trial.suggest_categorical(name, choices)` answers when the trial
      holds `params`. */
  function Suggest(s: Sampler, params: map<string, Val>, name: string, choices: seq<Val>): (r: Result<Val>)
    ensures r.Err? <==> choices == []
    ensures r.Err? ==> r.error == EmptyChoices
    ensures r.Ok? ==> r.value in choices
  {
    if choices == [] then Err(EmptyChoices) else Ok(s(params, name, choices))
  }

  datatype TrialState = Complete | Pruned | Fail

  /** A finished trial as the study's history holds it. */
  datatype FrozenTrial = FrozenTrial(
    number: nat,
    state: TrialState,
    values: Option<seq<real>>,
    reason: Option<string>,
    flagsAttr: Option<string>,
    envAttr: Option<map<string, Val>>,
    metricsAttr: Option<map<string, real>>,
    binaryAttr: Option<string>)

  /** A running trial: its number, its sampler, the parameters suggested so
      far and the user attributes set so far. */
  class Trial {
    const number: nat
    const sampler: Sampler
    var params: map<string, Val>
    var flagsAttr: Option<string>
    var envAttr: Option<map<string, Val>>
    var metricsAttr: Option<map<string, real>>
    var binaryAttr: Option<string>

    constructor (number: nat, sampler: Sampler)
      ensures this.number == number && this.sampler == sampler
      ensures params == map[]
      ensures flagsAttr == None && envAttr == None && metricsAttr == None && binaryAttr == None
    {
      this.number := number;
      this.sampler := sampler;
      params := map[];
      flagsAttr, envAttr, metricsAttr, binaryAttr := None, None, None, None;
    }

    /** `trial.suggest_categorical(name, choices)`: one of the choices, as the
        sampler decides, recorded under `name`. */
    method SuggestCategorical(name: string, choices: seq<Val>) returns (v: Val)
      requires choices != []
      modifies this`params
      ensures v in choices
      ensures Suggest(sampler, old(params), name, choices) == Ok(v)
      ensures params == old(params)[name := v]
    {
      v := sampler(params, name, choices);
      params := params[name := v];
    }
  }
}
