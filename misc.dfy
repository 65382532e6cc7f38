/** The search-space helpers of `src/misc.py`: drawing a compiler flag string
    and an environment from a trial, expanding the environment block of a
    configuration into its Cartesian product, and normalising
    `program_args`. */
module Misc {
  import opened Wrappers
  import opened PyStr
  import opened Values
  import opened Trials

  // ---------------------------------------------------------------------------
  // Schema entries
  // ---------------------------------------------------------------------------

  /** One entry of a flag or environment schema: a plain list of choices, an
      object with an optional `when` predicate and (normally) a `values` list,
      or a JSON value of another type, which has no `.get`. */
  datatype Spec =
    | Choices(choices: seq<Val>)
    | Conditional(when: map<string, Expected>, values: Option<seq<Val>>)
    | Unusable(typeName: string)

  /** What a `when` predicate compares a variable with, as JSON gives it:
      `null` (the variable is unassigned), a choice, a float (equal to a
      bool or int of the same value), or a list or object, which no choice
      equals. */
  datatype Expected = Unassigned | Equals(v: Val) | EqualsNum(x: real) | NeverEqual

  /** A schema in the order of the JSON object it was read from. */
  type Schema = seq<(string, Spec)>

  /** No option or variable is listed twice, as in a JSON object. */
  predicate DistinctNames(schema: Schema) {
    forall i, j | 0 <= i < j < |schema| :: schema[i].0 != schema[j].0
  }

  function NameSet(schema: Schema): set<string> {
    set i | 0 <= i < |schema| :: schema[i].0
  }

  /** The message of `spec["values"]` on an object without that key. */
  const MissingValues := "'values'"

  /** The message of `spec.get` on a value that is neither a list nor an object. */
  function NoGet(typeName: string): string {
    "'" + typeName + "' object has no attribute 'get'"
  }

  /** `guard.get(k) == v`. */
  predicate Matches(guard: map<string, Val>, k: string, v: Expected) {
    match v
    case Unassigned => k !in guard
    case Equals(x) => k in guard && PyEq(guard[k], x)
    case EqualsNum(x) => k in guard && AsInt(guard[k]).Some? && AsInt(guard[k]).value as real == x
    case NeverEqual => false
  }

  /** `all(guard.get(k) == v for k, v in when.items())`. */
  predicate Holds(when: map<string, Expected>, guard: map<string, Val>) {
    forall k | k in when :: Matches(guard, k, when[k])
  }

  /** Whether an entry asks the trial for a value when its predicate is
      evaluated against `guard`. */
  predicate Applies(spec: Spec, guard: map<string, Val>) {
    spec.Choices? || (spec.Conditional? && Holds(spec.when, guard))
  }

  /** The choices an entry offers; an object without `values` offers none. */
  function Domain(spec: Spec): seq<Val> {
    match spec
    case Choices(xs) => xs
    case Conditional(_, xs) => xs.GetOr([])
    case Unusable(_) => []
  }

  /** What one schema entry contributes: `None` when it is skipped, the value
      the trial suggests when it applies, or the exception it raises. */
  function Choose(s: Sampler, name: string, spec: Spec, guard: map<string, Val>, params: map<string, Val>)
    : (r: Result<Option<Val>>)
    ensures spec.Unusable? ==> r == Err(NoGet(spec.typeName))
    ensures !spec.Unusable? && !Applies(spec, guard) ==> r == Ok(None)
    ensures Applies(spec, guard) ==> (r.Ok? <==> Domain(spec) != [])
    ensures Applies(spec, guard) && r.Ok? ==> r.value.Some? && r.value.value in Domain(spec)
  {
    match spec
    case Choices(xs) =>
      var v :- Suggest(s, params, name, xs);
      Ok(Some(v))
    case Conditional(when, xs) =>
      if !Holds(when, guard) then Ok(None)
      else if xs.None? then Err(MissingValues)
      else
        var v :- Suggest(s, params, name, xs.value);
        Ok(Some(v))
    case Unusable(t) => Err(NoGet(t))
  }

  // ---------------------------------------------------------------------------
  // Compiler flags
  // ---------------------------------------------------------------------------

  /** The flags chosen so far and the parameters the trial holds. */
  datatype Draw = Draw(tokens: seq<string>, params: map<string, Val>)

  /** The flag a non-boolean value renders to: `-march=` and `-I ` take the
      value directly; any other option gets an `=`. */
  function Render(opt: string, v: Val): string {
    if EndsWith(opt, "=") || EndsWith(opt, " ") then opt + ToStr(v) else opt + "=" + ToStr(v)
  }

  /** The flags a suggested value adds: a boolean means presence or absence of
      the bare option, anything else is rendered with its value. */
  function ValueTokens(opt: string, v: Val): (r: seq<string>)
    ensures |r| <= 1
    ensures v.B? ==> (r == [opt] <==> v.b) && (r == [] <==> !v.b)
    ensures !v.B? ==> r == [Render(opt, v)]
  {
    if v.B? then (if v.b then [opt] else []) else [Render(opt, v)]
  }

  /** Stage 1: the variant strings, drawn under the name `flag_variant`. */
  function VariantDraw(s: Sampler, variants: seq<string>, d: Draw): (r: Draw)
    ensures variants == [] ==> r == d
    ensures variants != [] ==>
      var v := s(d.params, "flag_variant", Strs(variants));
      v.S? && v.s in variants && r == Draw(d.tokens + [v.s], d.params["flag_variant" := v])
  {
    if variants == [] then d
    else
      var v := s(d.params, "flag_variant", Strs(variants));
      Draw(d.tokens + [v.s], d.params["flag_variant" := v])
  }

  /** Stage 2, one entry: a conditional entry's predicate is evaluated against
      the parameters the trial already holds. */
  function ParamStep(s: Sampler, entry: (string, Spec), d: Draw): (r: Result<Draw>)
    ensures !entry.1.Unusable? && !Applies(entry.1, d.params) ==> r == Ok(d)
    ensures r.Ok? && Applies(entry.1, d.params) ==>
      entry.0 in r.value.params
      && r.value.params == d.params[entry.0 := r.value.params[entry.0]]
      && r.value.params[entry.0] in Domain(entry.1)
      && r.value.tokens == d.tokens + ValueTokens(entry.0, r.value.params[entry.0])
    ensures r.Ok? ==> r.value == d || Applies(entry.1, d.params)
  {
    var picked :- Choose(s, entry.0, entry.1, d.params, d.params);
    match picked
    case None => Ok(d)
    case Some(v) => Ok(Draw(d.tokens + ValueTokens(entry.0, v), d.params[entry.0 := v]))
  }

  /** Stage 2: the parametric flags, entry by entry in schema order. */
  function ParamDraws(s: Sampler, schema: Schema, d: Draw): (r: Result<Draw>)
    ensures r.Ok? ==> d.tokens <= r.value.tokens && |r.value.tokens| <= |d.tokens| + |schema|
  {
    if schema == [] then Ok(d)
    else
      var n := |schema|;
      var prev :- ParamDraws(s, schema[..n - 1], d);
      ParamStep(s, schema[n - 1], prev)
  }

  /** Stage 2 records only the schema's options and keeps every other
      parameter as it was. */
  lemma {:induction false} ParamDrawsFrame(s: Sampler, schema: Schema, d: Draw)
    requires ParamDraws(s, schema, d).Ok?
    ensures ParamDraws(s, schema, d).value.params.Keys <= d.params.Keys + NameSet(schema)
    ensures forall k | k in d.params && k !in NameSet(schema) ::
      k in ParamDraws(s, schema, d).value.params && ParamDraws(s, schema, d).value.params[k] == d.params[k]
  {
    if schema != [] {
      var n := |schema|;
      ParamDrawsFrame(s, schema[..n - 1], d);
      assert NameSet(schema) == NameSet(schema[..n - 1]) + {schema[n - 1].0};
    }
  }

  /** Stage 3, one flag: the trial chooses 0 or 1 and a truthy answer adds the
      flag. */
  function PoolStep(s: Sampler, flag: string, d: Draw): (r: Draw)
    ensures var v := s(d.params, flag, [I(0), I(1)]);
      (v == I(0) || v == I(1)) && r.params == d.params[flag := v]
      && r.tokens == d.tokens + (if v == I(1) then [flag] else [])
  {
    var v := s(d.params, flag, [I(0), I(1)]);
    Draw(d.tokens + (if Truthy(v) then [flag] else []), d.params[flag := v])
  }

  /** Stage 3: the on/off flag pool, in pool order. */
  function PoolDraws(s: Sampler, pool: seq<string>, d: Draw): (r: Draw)
    ensures d.tokens <= r.tokens && |r.tokens| <= |d.tokens| + |pool|
    ensures r.params.Keys == d.params.Keys + (set f | f in pool)
    ensures forall k | k in d.params && k !in pool :: r.params[k] == d.params[k]
  {
    if pool == [] then d
    else
      var n := |pool|;
      var front := pool[..n - 1];
      assert pool == front + [pool[n - 1]];
      PoolStep(s, pool[n - 1], PoolDraws(s, front, d))
  }

  /** The three stages of `suggest_compiler_flags`, starting from a trial that
      holds `params`. */
  function SampleFlags(s: Sampler, variants: seq<string>, schema: Schema, pool: seq<string>, params: map<string, Val>)
    : Result<Draw>
  {
    var d1 := VariantDraw(s, variants, Draw([], params));
    var d2 :- ParamDraws(s, schema, d1);
    Ok(PoolDraws(s, pool, d2))
  }

  /** The human-readable id of a flag set: the flags joined by `|`, or
      `default` when there are none (or all are empty strings). */
  function Label(tokens: seq<string>): string {
    var j := Join(tokens, "|");
    if j == "" then "default" else j
  }

  /** One pass of the parametric-flag loop: the entry `(opt, spec)` checked
      against the trial's parameters, suggested and rendered. */
  method ParamFlag(trial: Trial, opt: string, spec: Spec, chosen: seq<string>) returns (r: Result<seq<string>>)
    modifies trial`params
    ensures match ParamStep(trial.sampler, (opt, spec), Draw(chosen, old(trial.params)))
      case Ok(d) => r == Ok(d.tokens) && trial.params == d.params
      case Err(e) => r == Err(e)
  {
    var val: Val;
    if spec.Choices? {
      if spec.choices == [] {
        return Err(EmptyChoices);
      }
      val := trial.SuggestCategorical(opt, spec.choices);
    } else if spec.Conditional? {
      if !Holds(spec.when, trial.params) {
        return Ok(chosen);
      }
      if spec.values.None? {
        return Err(MissingValues);
      }
      if spec.values.value == [] {
        return Err(EmptyChoices);
      }
      val := trial.SuggestCategorical(opt, spec.values.value);
    } else {
      return Err(NoGet(spec.typeName));
    }
    var next := chosen;
    if val.B? {
      if val.b {
        next := next + [opt];
      }
    } else if EndsWith(opt, "=") {
      next := next + [opt + ToStr(val)];
    } else if EndsWith(opt, " ") {
      next := next + [opt + ToStr(val)];
    } else {
      next := next + [opt + "=" + ToStr(val)];
    }
    assert next == chosen + ValueTokens(opt, val);
    return Ok(next);
  }

  /** The parametric-flag loop over the schema, in schema order. */
  method ParamFlags(trial: Trial, schema: Schema, start: seq<string>) returns (r: Result<seq<string>>)
    modifies trial`params
    ensures match ParamDraws(trial.sampler, schema, Draw(start, old(trial.params)))
      case Ok(d) => r == Ok(d.tokens) && trial.params == d.params
      case Err(e) => r == Err(e)
  {
    ghost var d0 := Draw(start, trial.params);
    var chosen := start;
    var i := 0;
    while i < |schema|
      invariant 0 <= i <= |schema|
      invariant ParamDraws(trial.sampler, schema[..i], d0) == Ok(Draw(chosen, trial.params))
    {
      assert schema[..i + 1][..i] == schema[..i];
      ghost var prev := Draw(chosen, trial.params);
      assert ParamDraws(trial.sampler, schema[..i + 1], d0) == ParamStep(trial.sampler, schema[i], prev);
      var step := ParamFlag(trial, schema[i].0, schema[i].1, chosen);
      if step.Err? {
        ParamDrawsErr(trial.sampler, schema, d0, i + 1);
        return Err(step.error);
      }
      chosen := step.value;
      i := i + 1;
    }
    assert schema[..i] == schema;
    return Ok(chosen);
  }

  /** The flag-pool loop: each flag is switched on by a truthy answer. */
  method PoolFlags(trial: Trial, pool: seq<string>, start: seq<string>) returns (chosen: seq<string>)
    modifies trial`params
    ensures PoolDraws(trial.sampler, pool, Draw(start, old(trial.params))) == Draw(chosen, trial.params)
  {
    ghost var d0 := Draw(start, trial.params);
    chosen := start;
    var j := 0;
    while j < |pool|
      invariant 0 <= j <= |pool|
      invariant PoolDraws(trial.sampler, pool[..j], d0) == Draw(chosen, trial.params)
    {
      assert pool[..j + 1][..j] == pool[..j];
      ghost var prev := Draw(chosen, trial.params);
      assert PoolDraws(trial.sampler, pool[..j + 1], d0) == PoolStep(trial.sampler, pool[j], prev);
      var useIt := trial.SuggestCategorical(pool[j], [I(0), I(1)]);
      if Truthy(useIt) {
        chosen := chosen + [pool[j]];
      }
      j := j + 1;
    }
    assert pool[..j] == pool;
  }

  /** `suggest_compiler_flags(trial, variants, params_schema, flag_pool)`:
      the label and the flag string of the three stages. */
  method SuggestCompilerFlags(trial: Trial, variants: seq<string>, schema: Schema, pool: seq<string>)
    returns (r: Result<(string, string)>)
    modifies trial`params
    ensures match SampleFlags(trial.sampler, variants, schema, pool, old(trial.params))
      case Ok(d) => r == Ok((Label(d.tokens), Join(d.tokens, " "))) && trial.params == d.params
      case Err(e) => r == Err(e)
  {
    var chosen: seq<string> := [];
    if variants != [] {
      var variant := trial.SuggestCategorical("flag_variant", Strs(variants));
      chosen := chosen + [variant.s];
    }
    var params := ParamFlags(trial, schema, chosen);
    if params.Err? {
      return Err(params.error);
    }
    chosen := PoolFlags(trial, pool, params.value);
    var flagStr := Join(chosen, " ");
    var prettyId := Join(chosen, "|");
    if prettyId == "" {
      prettyId := "default";
    }
    r := Ok((prettyId, flagStr));
  }

  /** An entry that raises stops the whole stage with its exception. */
  lemma {:induction false} ParamDrawsErr(s: Sampler, schema: Schema, d: Draw, i: nat)
    requires i <= |schema|
    requires ParamDraws(s, schema[..i], d).Err?
    ensures ParamDraws(s, schema, d) == ParamDraws(s, schema[..i], d)
    decreases |schema| - i
  {
    if i < |schema| {
      assert schema[..i + 1][..i] == schema[..i];
      ParamDrawsErr(s, schema, d, i + 1);
    } else {
      assert schema[..i] == schema;
    }
  }

  // ---------------------------------------------------------------------------
  // The flag string is a function of the recorded parameters
  // ---------------------------------------------------------------------------

  /** The parametric flags an assignment of the schema's options stands for:
      each option the assignment holds, rendered in schema order. */
  function RenderParams(schema: Schema, given: map<string, Val>): seq<string> {
    if schema == [] then []
    else
      var n := |schema|;
      var opt := schema[n - 1].0;
      RenderParams(schema[..n - 1], given) + (if opt in given then ValueTokens(opt, given[opt]) else [])
  }

  /** The pool flags an assignment switches on, in pool order. */
  function Selected(pool: seq<string>, given: map<string, Val>): seq<string> {
    if pool == [] then []
    else
      var n := |pool|;
      var f := pool[n - 1];
      Selected(pool[..n - 1], given) + (if f in given && Truthy(given[f]) then [f] else [])
  }

  /** The whole flag list an assignment stands for. */
  function Rerender(variants: seq<string>, schema: Schema, pool: seq<string>, given: map<string, Val>)
    : seq<string>
  {
    (if variants != [] && "flag_variant" in given && given["flag_variant"].S?
     then [given["flag_variant"].s] else [])
    + RenderParams(schema, given) + Selected(pool, given)
  }

  /** Every parameter name the three stages ask the trial for is asked once,
      and the trial does not hold it yet. */
  predicate FreshNames(variants: seq<string>, schema: Schema, pool: seq<string>, params: map<string, Val>) {
    && DistinctNames(schema)
    && Distinct(pool)
    && (variants != [] ==> "flag_variant" !in params)
    && (forall i | 0 <= i < |schema| ::
          schema[i].0 !in params && schema[i].0 !in pool && (variants != [] ==> schema[i].0 != "flag_variant"))
    && (forall i | 0 <= i < |pool| :: pool[i] !in params && (variants != [] ==> pool[i] != "flag_variant"))
  }

  lemma {:induction false} RenderParamsFrame(schema: Schema, a: map<string, Val>, b: map<string, Val>)
    requires forall i | 0 <= i < |schema| :: (schema[i].0 in a <==> schema[i].0 in b)
    requires forall i | 0 <= i < |schema| && schema[i].0 in a :: a[schema[i].0] == b[schema[i].0]
    ensures RenderParams(schema, a) == RenderParams(schema, b)
  {
    if schema != [] {
      var n := |schema|;
      RenderParamsFrame(schema[..n - 1], a, b);
      assert schema[n - 1] == schema[n - 1];
    }
  }

  lemma {:induction false} SelectedFrame(pool: seq<string>, a: map<string, Val>, b: map<string, Val>)
    requires forall i | 0 <= i < |pool| :: (pool[i] in a <==> pool[i] in b)
    requires forall i | 0 <= i < |pool| && pool[i] in a :: a[pool[i]] == b[pool[i]]
    ensures Selected(pool, a) == Selected(pool, b)
  {
    if pool != [] {
      var n := |pool|;
      SelectedFrame(pool[..n - 1], a, b);
      assert pool[n - 1] == pool[n - 1];
    }
  }

  /** With distinct option names not yet in the trial, the parametric flags
      are exactly the rendering of the options the stage records. */
  lemma {:induction false} ParamTokensRendered(s: Sampler, schema: Schema, d: Draw)
    requires DistinctNames(schema)
    requires forall i | 0 <= i < |schema| :: schema[i].0 !in d.params
    requires ParamDraws(s, schema, d).Ok?
    ensures var r := ParamDraws(s, schema, d).value;
      r.tokens == d.tokens + RenderParams(schema, r.params)
  {
    if schema != [] {
      var n := |schema|;
      var front := schema[..n - 1];
      var opt := schema[n - 1].0;
      var prev := ParamDraws(s, front, d).value;
      ParamTokensRendered(s, front, d);
      ParamDrawsFrame(s, front, d);
      forall i | 0 <= i < n - 1 ensures schema[i].0 != opt {
        assert schema[i].0 != schema[n - 1].0;
      }
      assert opt !in NameSet(front) by {
        forall i | 0 <= i < |front| ensures front[i].0 != opt {
          assert front[i] == schema[i];
        }
      }
      ParamTokensStep(s, schema, d.tokens, prev, ParamDraws(s, schema, d).value);
    }
  }

  /** The last entry of the schema renders the token its step adds. */
  lemma ParamTokensStep(s: Sampler, schema: Schema, tokens: seq<string>, prev: Draw, r: Draw)
    requires schema != []
    requires schema[|schema| - 1].0 !in prev.params
    requires forall i | 0 <= i < |schema| - 1 :: schema[i].0 != schema[|schema| - 1].0
    requires prev.tokens == tokens + RenderParams(schema[..|schema| - 1], prev.params)
    requires ParamStep(s, schema[|schema| - 1], prev) == Ok(r)
    ensures r.tokens == tokens + RenderParams(schema, r.params)
  {
    var n := |schema|;
    if Applies(schema[n - 1].1, prev.params) {
      var v := r.params[schema[n - 1].0];
      assert r == Draw(prev.tokens + ValueTokens(schema[n - 1].0, v), prev.params[schema[n - 1].0 := v]);
      ParamTokensAdded(schema, tokens, prev, v);
    } else {
      assert r == prev;
      assert schema[n - 1].0 !in r.params;
      var a := RenderParams(schema[..n - 1], r.params);
      assert RenderParams(schema, r.params) == a + [];
      assert a + [] == a;
    }
  }

  /** An option the step records renders as its value tokens after the
      earlier options, which keep their rendering. */
  lemma ParamTokensAdded(schema: Schema, tokens: seq<string>, prev: Draw, v: Val)
    requires schema != []
    requires forall i | 0 <= i < |schema| - 1 :: schema[i].0 != schema[|schema| - 1].0
    requires prev.tokens == tokens + RenderParams(schema[..|schema| - 1], prev.params)
    ensures var opt := schema[|schema| - 1].0;
      prev.tokens + ValueTokens(opt, v) == tokens + RenderParams(schema, prev.params[opt := v])
  {
    var n := |schema|;
    var opt := schema[n - 1].0;
    var given := prev.params[opt := v];
    EarlierOptionsKept(schema, prev.params, v);
    LastOptionRendered(schema, given);
    ExtendBoth(tokens, RenderParams(schema[..n - 1], prev.params), ValueTokens(opt, v), prev.tokens,
               RenderParams(schema, given), RenderParams(schema[..n - 1], given));
  }

  lemma EarlierOptionsKept(schema: Schema, given: map<string, Val>, v: Val)
    requires schema != []
    requires forall i | 0 <= i < |schema| - 1 :: schema[i].0 != schema[|schema| - 1].0
    ensures var front := schema[..|schema| - 1];
      RenderParams(front, given[schema[|schema| - 1].0 := v]) == RenderParams(front, given)
  {
    var front := schema[..|schema| - 1];
    forall i | 0 <= i < |front| ensures front[i].0 != schema[|schema| - 1].0 {
      assert front[i] == schema[i];
    }
    RenderAfterRecord(front, schema[|schema| - 1].0, given, v);
  }

  lemma LastOptionRendered(schema: Schema, given: map<string, Val>)
    requires schema != [] && schema[|schema| - 1].0 in given
    ensures var opt := schema[|schema| - 1].0;
      RenderParams(schema, given) == RenderParams(schema[..|schema| - 1], given) + ValueTokens(opt, given[opt])
  {
  }

  lemma ExtendBoth<T>(tokens: seq<T>, a: seq<T>, t: seq<T>, before: seq<T>, whole: seq<T>, part: seq<T>)
    requires before == tokens + a && whole == part + t && part == a
    ensures before + t == tokens + whole
  {
    AppendAssociative(tokens, a, t);
  }

  /** Recording an option outside the schema leaves its rendering as it was. */
  lemma {:induction false} RenderAfterRecord(schema: Schema, opt: string, given: map<string, Val>, v: Val)
    requires forall i | 0 <= i < |schema| :: schema[i].0 != opt
    ensures RenderParams(schema, given[opt := v]) == RenderParams(schema, given)
  {
    if schema != [] {
      var n := |schema|;
      RenderAfterRecord(schema[..n - 1], opt, given, v);
    }
  }

  /** With distinct pool flags not yet in the trial, the pool stage adds
      exactly the flags whose recorded answer is truthy, in pool order. */
  lemma {:induction false} PoolTokensSelected(s: Sampler, pool: seq<string>, d: Draw)
    requires Distinct(pool)
    requires forall i | 0 <= i < |pool| :: pool[i] !in d.params
    ensures var r := PoolDraws(s, pool, d);
      r.tokens == d.tokens + Selected(pool, r.params)
  {
    if pool != [] {
      var n := |pool|;
      var front := pool[..n - 1];
      var f := pool[n - 1];
      var prev := PoolDraws(s, front, d);
      PoolTokensSelected(s, front, d);
      assert f !in front;
      var v := s(prev.params, f, [I(0), I(1)]);
      var a, t := Selected(front, prev.params), if v == I(1) then [f] else [];
      var r := PoolDraws(s, pool, d);
      assert r == PoolStep(s, f, prev);
      assert r.params == prev.params[f := v] && r.tokens == (d.tokens + a) + t;
      SelectedAfterRecord(front, f, prev.params, v);
      assert Selected(pool, r.params) == a + t;
      AppendAssociative(d.tokens, a, t);
    }
  }

  /** Recording a flag outside the pool leaves its selection as it was. */
  lemma {:induction false} SelectedAfterRecord(pool: seq<string>, f: string, given: map<string, Val>, v: Val)
    requires f !in pool
    ensures Selected(pool, given[f := v]) == Selected(pool, given)
  {
    if pool != [] {
      SelectedAfterRecord(pool[..|pool| - 1], f, given, v);
    }
  }

  /** The flag list `suggest_compiler_flags` builds is the rendering of the
      parameters it records: replaying a trial with the same parameters
      rebuilds the same flag string and the same label. */
  lemma {:induction false} FlagsFromAssignment(s: Sampler, variants: seq<string>, schema: Schema, pool: seq<string>, p0: map<string, Val>)
    requires FreshNames(variants, schema, pool, p0)
    requires SampleFlags(s, variants, schema, pool, p0).Ok?
    ensures var d := SampleFlags(s, variants, schema, pool, p0).value;
      d.tokens == Rerender(variants, schema, pool, d.params)
  {
    var d1 := VariantDraw(s, variants, Draw([], p0));
    var d2 := ParamDraws(s, schema, d1).value;
    var d3 := PoolDraws(s, pool, d2);
    assert SampleFlags(s, variants, schema, pool, p0).value == d3;
    VariantPart(s, variants, schema, pool, p0);
    ParamTokensRendered(s, schema, d1);
    PoolFresh(s, variants, schema, pool, p0);
    PoolTokensSelected(s, pool, d2);
    RenderParamsFrame(schema, d3.params, d2.params);
  }

  /** After stage 1 the variant is the only flag, recorded under
      `flag_variant`, and stages 2 and 3 leave that record alone. */
  lemma VariantPart(s: Sampler, variants: seq<string>, schema: Schema, pool: seq<string>, p0: map<string, Val>)
    requires FreshNames(variants, schema, pool, p0)
    requires SampleFlags(s, variants, schema, pool, p0).Ok?
    ensures var d1 := VariantDraw(s, variants, Draw([], p0));
      var d := SampleFlags(s, variants, schema, pool, p0).value;
      && (forall i | 0 <= i < |schema| :: schema[i].0 !in d1.params)
      && d1.tokens == (if variants != [] && "flag_variant" in d.params && d.params["flag_variant"].S?
                       then [d.params["flag_variant"].s] else [])
  {
    var d1 := VariantDraw(s, variants, Draw([], p0));
    ParamDrawsFrame(s, schema, d1);
    if variants != [] {
      assert "flag_variant" !in NameSet(schema);
      assert "flag_variant" !in pool;
    }
  }

  /** The pool flags are not yet recorded when stage 3 starts. */
  lemma PoolFresh(s: Sampler, variants: seq<string>, schema: Schema, pool: seq<string>, p0: map<string, Val>)
    requires FreshNames(variants, schema, pool, p0)
    requires SampleFlags(s, variants, schema, pool, p0).Ok?
    ensures var d1 := VariantDraw(s, variants, Draw([], p0));
      var d2 := ParamDraws(s, schema, d1).value;
      forall i | 0 <= i < |pool| :: pool[i] !in d2.params
  {
    var d1 := VariantDraw(s, variants, Draw([], p0));
    ParamDrawsFrame(s, schema, d1);
    assert forall i | 0 <= i < |pool| :: pool[i] !in NameSet(schema);
  }

  /** Two trials that record the same parameters are given the same label and
      the same flag string. */
  lemma SameAssignmentSameFlags(s1: Sampler, s2: Sampler, variants: seq<string>, schema: Schema, pool: seq<string>, p0: map<string, Val>)
    requires FreshNames(variants, schema, pool, p0)
    requires SampleFlags(s1, variants, schema, pool, p0).Ok? && SampleFlags(s2, variants, schema, pool, p0).Ok?
    requires SampleFlags(s1, variants, schema, pool, p0).value.params == SampleFlags(s2, variants, schema, pool, p0).value.params
    ensures SampleFlags(s1, variants, schema, pool, p0).value.tokens == SampleFlags(s2, variants, schema, pool, p0).value.tokens
  {
    FlagsFromAssignment(s1, variants, schema, pool, p0);
    FlagsFromAssignment(s2, variants, schema, pool, p0);
  }

  /** The label keeps the flags apart: when no flag is empty or contains `|`
      and there is at least one, splitting the label on `|` gives the flags
      back. */
  lemma LabelSplits(tokens: seq<string>)
    requires tokens != []
    requires forall i | 0 <= i < |tokens| :: tokens[i] != "" && '|' !in tokens[i]
    ensures Split(Label(tokens), '|') == tokens
  {
    JoinNonEmpty(tokens, "|");
    SplitJoin(tokens, '|');
  }

  lemma {:induction false} JoinNonEmpty(parts: seq<string>, sep: string)
    requires parts != [] && parts[0] != ""
    ensures Join(parts, sep) != ""
  {
    if |parts| > 1 {
      assert Join(parts, sep)[0] == parts[0][0];
    }
  }

  /** An empty flag list is labelled `default` and renders to the empty flag
      string. */
  lemma EmptyFlagsLabel()
    ensures Label([]) == "default" && Join([], " ") == ""
  {
  }

  /** Booleans mean presence, while the integers 0 and 1 are rendered as
      values. */
  lemma BooleanPresence()
    ensures ValueTokens("-funroll-loops", B(true)) == ["-funroll-loops"]
    ensures ValueTokens("-funroll-loops", B(false)) == []
    ensures ValueTokens("-O", I(1)) == ["-O=1"]
    ensures ValueTokens("-march=", S("native")) == ["-march=native"]
    ensures ValueTokens("-I ", S("inc")) == ["-I inc"]
  {
    assert IntToDecimal(1) == "1";
    assert "-O"[1..] == "O";
    assert "-march="[6..] == "=";
    assert "-I "[2..] == " ";
    assert EndsWith("-march=", "=") && EndsWith("-I ", " ");
    assert !EndsWith("-O", "=") && !EndsWith("-O", " ");
    assert "-O" + "=" + "1" == "-O=1";
    assert "-march=" + "native" == "-march=native";
    assert "-I " + "inc" == "-I inc";
  }

  /** The rendered flag gives back the option and the text of the value. */
  lemma RenderRecoverable(opt: string, v: Val)
    ensures var t := Render(opt, v);
      if EndsWith(opt, "=") || EndsWith(opt, " ")
      then t[..|opt|] == opt && t[|opt|..] == ToStr(v)
      else t[..|opt| + 1] == opt + "=" && t[|opt| + 1..] == ToStr(v)
  {
  }

  // ---------------------------------------------------------------------------
  // Environment variables
  // ---------------------------------------------------------------------------

  /** The variables chosen so far and the parameters the trial holds. */
  datatype EnvDraw = EnvDraw(env: map<string, Val>, params: map<string, Val>)

  /** One variable of `suggest_env`: a conditional entry's predicate is
      evaluated against the variables chosen so far in this pass, never
      against the trial's other parameters. */
  function EnvStep(s: Sampler, entry: (string, Spec), e: EnvDraw): (r: Result<EnvDraw>)
    ensures !entry.1.Unusable? && !Applies(entry.1, e.env) ==> r == Ok(e)
    ensures r.Ok? && Applies(entry.1, e.env) ==>
      entry.0 in r.value.env
      && r.value.env == e.env[entry.0 := r.value.env[entry.0]]
      && r.value.params == e.params[entry.0 := r.value.env[entry.0]]
      && r.value.env[entry.0] in Domain(entry.1)
    ensures r.Ok? ==> r.value == e || Applies(entry.1, e.env)
  {
    var picked :- Choose(s, entry.0, entry.1, e.env, e.params);
    match picked
    case None => Ok(e)
    case Some(v) => Ok(EnvDraw(e.env[entry.0 := v], e.params[entry.0 := v]))
  }

  /** The variables of a schema, in schema order. */
  function EnvDraws(s: Sampler, schema: Schema, e: EnvDraw): Result<EnvDraw> {
    if schema == [] then Ok(e)
    else
      var n := |schema|;
      var prev :- EnvDraws(s, schema[..n - 1], e);
      EnvStep(s, schema[n - 1], prev)
  }

  /** `suggest_env(trial, schema)` on a trial that holds `params`. */
  function SampleEnv(s: Sampler, schema: Schema, params: map<string, Val>): Result<EnvDraw> {
    EnvDraws(s, schema, EnvDraw(map[], params))
  }

  /** `suggest_env(trial, schema)`: one linear pass over the schema. */
  method SuggestEnv(trial: Trial, schema: Schema) returns (r: Result<map<string, Val>>)
    modifies trial`params
    ensures match SampleEnv(trial.sampler, schema, old(trial.params))
      case Ok(e) => r == Ok(e.env) && trial.params == e.params
      case Err(m) => r == Err(m)
  {
    ghost var e0 := EnvDraw(map[], trial.params);
    var env: map<string, Val> := map[];
    var i := 0;
    while i < |schema|
      invariant 0 <= i <= |schema|
      invariant EnvDraws(trial.sampler, schema[..i], e0) == Ok(EnvDraw(env, trial.params))
    {
      assert schema[..i + 1][..i] == schema[..i];
      ghost var prev := EnvDraw(env, trial.params);
      assert EnvDraws(trial.sampler, schema[..i + 1], e0) == EnvStep(trial.sampler, schema[i], prev);
      var name, spec := schema[i].0, schema[i].1;
      if spec.Choices? {
        if spec.choices == [] {
          EnvDrawsErr(trial.sampler, schema, e0, i + 1);
          return Err(EmptyChoices);
        }
        var v := trial.SuggestCategorical(name, spec.choices);
        env := env[name := v];
      } else if spec.Conditional? {
        if Holds(spec.when, env) {
          if spec.values.None? {
            EnvDrawsErr(trial.sampler, schema, e0, i + 1);
            return Err(MissingValues);
          }
          if spec.values.value == [] {
            EnvDrawsErr(trial.sampler, schema, e0, i + 1);
            return Err(EmptyChoices);
          }
          var v := trial.SuggestCategorical(name, spec.values.value);
          env := env[name := v];
        }
      } else {
        EnvDrawsErr(trial.sampler, schema, e0, i + 1);
        return Err(NoGet(spec.typeName));
      }
      i := i + 1;
    }
    assert schema[..i] == schema;
    return Ok(env);
  }

  lemma {:induction false} EnvDrawsErr(s: Sampler, schema: Schema, e: EnvDraw, i: nat)
    requires i <= |schema|
    requires EnvDraws(s, schema[..i], e).Err?
    ensures EnvDraws(s, schema, e) == EnvDraws(s, schema[..i], e)
    decreases |schema| - i
  {
    if i < |schema| {
      assert schema[..i + 1][..i] == schema[..i];
      EnvDrawsErr(s, schema, e, i + 1);
    } else {
      assert schema[..i] == schema;
    }
  }

  /** A pass only sets the schema's variables. */
  lemma {:induction false} EnvDrawsKeys(s: Sampler, schema: Schema, e: EnvDraw)
    requires EnvDraws(s, schema, e).Ok?
    ensures EnvDraws(s, schema, e).value.env.Keys <= e.env.Keys + NameSet(schema)
  {
    if schema != [] {
      var n := |schema|;
      EnvDrawsKeys(s, schema[..n - 1], e);
      assert NameSet(schema) == NameSet(schema[..n - 1]) + {schema[n - 1].0};
    }
  }

  /** A pass that succeeds succeeds on every prefix of the schema. */
  lemma {:induction false} EnvPrefixOk(s: Sampler, schema: Schema, e: EnvDraw, i: nat)
    requires i <= |schema|
    requires EnvDraws(s, schema, e).Ok?
    ensures EnvDraws(s, schema[..i], e).Ok?
    decreases |schema| - i
  {
    if i == |schema| {
      assert schema[..i] == schema;
    } else {
      EnvPrefixOk(s, schema, e, i + 1);
      assert schema[..i + 1][..i] == schema[..i];
    }
  }

  /** Later variables leave an earlier one as it was after its own step. */
  lemma {:induction false} EnvLaterSteps(s: Sampler, schema: Schema, e: EnvDraw, i: nat, j: nat)
    requires DistinctNames(schema)
    requires i < j <= |schema|
    requires EnvDraws(s, schema[..j], e).Ok?
    ensures EnvDraws(s, schema[..i + 1], e).Ok?
    ensures var k := schema[i].0;
      var early := EnvDraws(s, schema[..i + 1], e).value.env;
      var late := EnvDraws(s, schema[..j], e).value.env;
      (k in late <==> k in early) && (k in late ==> late[k] == early[k])
    decreases j
  {
    if j > i + 1 {
      EnvDrawsLast(s, schema, e, j);
      EnvLaterSteps(s, schema, e, i, j - 1);
      EnvStepKeeps(s, schema[j - 1], EnvDraws(s, schema[..j - 1], e).value, schema[i].0);
    }
  }

  /** The pass over the first `j` variables is the pass over the first
      `j - 1` followed by the step of variable `j - 1`. */
  lemma EnvDrawsLast(s: Sampler, schema: Schema, e: EnvDraw, j: nat)
    requires 0 < j <= |schema|
    requires EnvDraws(s, schema[..j], e).Ok?
    ensures EnvDraws(s, schema[..j - 1], e).Ok?
    ensures EnvDraws(s, schema[..j], e) == EnvStep(s, schema[j - 1], EnvDraws(s, schema[..j - 1], e).value)
  {
    assert schema[..j][..j - 1] == schema[..j - 1];
  }

  /** A step leaves every other variable as it was. */
  lemma EnvStepKeeps(s: Sampler, entry: (string, Spec), e: EnvDraw, k: string)
    requires entry.0 != k
    requires EnvStep(s, entry, e).Ok?
    ensures var env := EnvStep(s, entry, e).value.env;
      (k in env <==> k in e.env) && (k in env ==> env[k] == e.env[k])
  {
  }

  /** A variable ends up in the environment exactly when, at its turn, it
      is unconditional or its predicate holds on the variables chosen
      before it; and then its value is one of its choices. */
  lemma EnvAssignedIff(s: Sampler, schema: Schema, params: map<string, Val>, i: nat)
    requires DistinctNames(schema)
    requires i < |schema|
    requires SampleEnv(s, schema, params).Ok?
    ensures EnvDraws(s, schema[..i], EnvDraw(map[], params)).Ok?
    ensures var before := EnvDraws(s, schema[..i], EnvDraw(map[], params)).value.env;
      var env := SampleEnv(s, schema, params).value.env;
      (schema[i].0 in env <==> Applies(schema[i].1, before))
      && (schema[i].0 in env ==> env[schema[i].0] in Domain(schema[i].1))
  {
    var e0 := EnvDraw(map[], params);
    assert schema[..|schema|] == schema;
    EnvPrefixOk(s, schema, e0, i);
    EnvLaterSteps(s, schema, e0, i, |schema|);
    var pre := EnvDraws(s, schema[..i], e0).value;
    assert schema[..i + 1][..i] == schema[..i];
    EnvDrawsKeys(s, schema[..i], e0);
    assert schema[i].0 !in NameSet(schema[..i]);
    assert schema[i].0 !in pre.env;
  }

  /** Every unconditional variable is set. */
  lemma EnvListsAssigned(s: Sampler, schema: Schema, params: map<string, Val>)
    requires DistinctNames(schema)
    requires SampleEnv(s, schema, params).Ok?
    ensures forall i | 0 <= i < |schema| && schema[i].1.Choices? ::
      schema[i].0 in SampleEnv(s, schema, params).value.env
  {
    forall i | 0 <= i < |schema| && schema[i].1.Choices?
      ensures schema[i].0 in SampleEnv(s, schema, params).value.env
    {
      EnvAssignedIff(s, schema, params, i);
    }
  }

  /** A predicate that names a variable not chosen earlier in the pass (a
      forward reference, or a compiler parameter) holds only by asking for
      `null`, the value of an unassigned variable; otherwise the entry is
      skipped. */
  lemma EnvForwardReferenceInert(s: Sampler, schema: Schema, params: map<string, Val>, i: nat, w: string)
    requires DistinctNames(schema)
    requires i < |schema| && schema[i].1.Conditional? && w in schema[i].1.when
    requires w !in NameSet(schema[..i])
    requires SampleEnv(s, schema, params).Ok?
    ensures schema[i].0 in SampleEnv(s, schema, params).value.env ==> schema[i].1.when[w] == Unassigned
  {
    EnvAssignedIff(s, schema, params, i);
    EnvDrawsKeys(s, schema[..i], EnvDraw(map[], params));
  }

  // ---------------------------------------------------------------------------
  // Cartesian product of an environment block
  // ---------------------------------------------------------------------------

  /** The value of one variable in an environment block: a list of choices
      or a single value, which stands for a one-element list. */
  datatype EnvValue = ValueList(items: seq<Val>) | Scalar(item: Val)

  function AsList(v: EnvValue): (r: seq<Val>)
    ensures v.Scalar? ==> r == [v.item]
  {
    match v
    case ValueList(xs) => xs
    case Scalar(x) => [x]
  }

  function KeySet(env: seq<(string, EnvValue)>): set<string> {
    set i | 0 <= i < |env| :: env[i].0
  }

  /** The number of combinations: the product of the list lengths. */
  function Product(env: seq<(string, EnvValue)>): nat {
    if env == [] then 1 else |AsList(env[0].1)| * Product(env[1..])
  }

  /** Every map of `rest` with `k` set to `x`. */
  function WithKey(k: string, x: string, rest: seq<map<string, string>>): (r: seq<map<string, string>>)
    ensures |r| == |rest|
    ensures forall i | 0 <= i < |rest| :: r[i] == rest[i][k := x]
  {
    seq(|rest|, i requires 0 <= i < |rest| => rest[i][k := x])
  }

  /** The combinations of one variable with the combinations of the rest,
      the first variable varying slowest, as `itertools.product` orders
      them. */
  function Combine(k: string, xs: seq<Val>, rest: seq<map<string, string>>): (r: seq<map<string, string>>)
    ensures |r| == |xs| * |rest|
  {
    if xs == [] then []
    else
      assert |xs| * |rest| == |rest| + (|xs| - 1) * |rest|;
      WithKey(k, ToStr(xs[0]), rest) + Combine(k, xs[1..], rest)
  }

  /** Combination `a * |rest| + b` is the `b`-th map of `rest` with `k` set
      to the text of the `a`-th choice. */
  lemma {:induction false} CombineIndex(k: string, xs: seq<Val>, rest: seq<map<string, string>>, a: nat, b: nat)
    requires a < |xs| && b < |rest|
    ensures a * |rest| + b < |Combine(k, xs, rest)|
    ensures Combine(k, xs, rest)[a * |rest| + b] == rest[b][k := ToStr(xs[a])]
  {
    var n := |rest|;
    var head, tail := WithKey(k, ToStr(xs[0]), rest), Combine(k, xs[1..], rest);
    assert Combine(k, xs, rest) == head + tail;
    IndexBelow(a, b, |xs|, n);
    if a > 0 {
      CombineIndex(k, xs[1..], rest, a - 1, b);
      MultiplyStep(a, n);
      assert xs[1..][a - 1] == xs[a];
      assert (head + tail)[n + ((a - 1) * n + b)] == tail[(a - 1) * n + b];
    }
  }

  lemma IndexBelow(a: nat, b: nat, m: nat, n: nat)
    requires a < m && b < n
    ensures a * n + b < m * n
  {
    var c := m - a;
    MultiplyStep(c, n);
    assert (c - 1) * n >= 0;
    SumTimes(a, c, n);
  }

  lemma SumTimes(a: nat, c: nat, n: nat)
    ensures (a + c) * n == a * n + c * n
  {
  }

  lemma MultiplyStep(a: nat, n: nat)
    requires a > 0
    ensures a * n == n + (a - 1) * n
  {
  }

  /** Every choice combined with every map of `rest` is a combination. */
  lemma CombineHas(k: string, xs: seq<Val>, rest: seq<map<string, string>>, a: nat, b: nat) returns (i: nat)
    requires a < |xs| && b < |rest|
    ensures i < |Combine(k, xs, rest)| && Combine(k, xs, rest)[i] == rest[b][k := ToStr(xs[a])]
  {
    CombineIndex(k, xs, rest, a, b);
    i := a * |rest| + b;
  }

  lemma RestoreKey(m: map<string, string>, k: string, others: map<string, string>, x: string)
    requires k in m && others == m - {k} && x == m[k]
    ensures others[k := x] == m
  {
  }

  /** Every combination is a map of `rest` with `k` set to one of the
      choices. */
  lemma {:induction false} CombineSound(k: string, xs: seq<Val>, rest: seq<map<string, string>>)
    ensures forall m | m in Combine(k, xs, rest) ::
      exists a, b | 0 <= a < |xs| && 0 <= b < |rest| :: m == rest[b][k := ToStr(xs[a])]
  {
    if xs != [] {
      CombineSound(k, xs[1..], rest);
      var head := WithKey(k, ToStr(xs[0]), rest);
      assert Combine(k, xs, rest) == head + Combine(k, xs[1..], rest);
      forall m | m in Combine(k, xs, rest)
        ensures exists a, b | 0 <= a < |xs| && 0 <= b < |rest| :: m == rest[b][k := ToStr(xs[a])]
      {
        if m in head {
          var b :| 0 <= b < |rest| && head[b] == m;
          assert m == rest[b][k := ToStr(xs[0])];
        } else {
          assert m in Combine(k, xs[1..], rest);
          var a, b :| 0 <= a < |xs[1..]| && 0 <= b < |rest| && m == rest[b][k := ToStr(xs[1..][a])];
          assert m == rest[b][k := ToStr(xs[a + 1])];
        }
      }
    }
  }

  /** `_expand_env(env)`: one map of variable names to `str` values per
      combination; an empty block has the single empty combination. */
  function ExpandEnv(env: seq<(string, EnvValue)>): (r: seq<map<string, string>>)
    ensures |r| == Product(env)
  {
    if env == [] then [map[]]
    else Combine(env[0].0, AsList(env[0].1), ExpandEnv(env[1..]))
  }

  /** Every combination sets exactly the block's variables. */
  lemma {:induction false} ExpandEnvKeys(env: seq<(string, EnvValue)>)
    ensures forall m | m in ExpandEnv(env) :: m.Keys == KeySet(env)
  {
    if env != [] {
      ExpandEnvKeys(env[1..]);
      assert KeySet(env) == {env[0].0} + KeySet(env[1..]);
      CombineSound(env[0].0, AsList(env[0].1), ExpandEnv(env[1..]));
    }
  }

  /** The variable names of a block are distinct, as in a JSON object. */
  predicate DistinctKeys(env: seq<(string, EnvValue)>) {
    forall i, j | 0 <= i < j < |env| :: env[i].0 != env[j].0
  }

  /** The `str` texts of a variable's choices. */
  function Texts(v: EnvValue): set<string> {
    set x | x in AsList(v) :: ToStr(x)
  }

  /** Every combination sets each variable to the text of one of its
      choices. */
  lemma {:induction false} ExpandEnvSound(env: seq<(string, EnvValue)>)
    requires DistinctKeys(env)
    ensures forall m, i | m in ExpandEnv(env) && 0 <= i < |env| :: env[i].0 in m && m[env[i].0] in Texts(env[i].1)
  {
    ExpandEnvKeys(env);
    if env != [] {
      var k := env[0].0;
      var xs := AsList(env[0].1);
      var rest := ExpandEnv(env[1..]);
      ExpandEnvSound(env[1..]);
      CombineSound(k, xs, rest);
      ExpandEnvKeys(env[1..]);
      forall m, i | m in ExpandEnv(env) && 0 <= i < |env| ensures env[i].0 in m && m[env[i].0] in Texts(env[i].1) {
        assert env[i].0 in KeySet(env);
        var a, b :| 0 <= a < |xs| && 0 <= b < |rest| && m == rest[b][k := ToStr(xs[a])];
        if i == 0 {
          assert m[k] == ToStr(xs[a]);
        } else {
          assert env[i].0 != k;
          assert env[i] == env[1..][i - 1];
          assert rest[b] in rest;
        }
      }
    }
  }

  /** Every assignment of the texts of its choices to each variable is one of
      the combinations. */
  lemma {:induction false} ExpandEnvComplete(env: seq<(string, EnvValue)>, m: map<string, string>)
    requires DistinctKeys(env)
    requires m.Keys == KeySet(env)
    requires forall i | 0 <= i < |env| :: m[env[i].0] in Texts(env[i].1)
    ensures m in ExpandEnv(env)
  {
    if env == [] {
      assert m == map[];
    } else {
      var k := env[0].0;
      var xs := AsList(env[0].1);
      var rest := ExpandEnv(env[1..]);
      var others := m - {k};
      TailAssignment(env, m, others);
      ExpandEnvComplete(env[1..], others);
      var b :| 0 <= b < |rest| && rest[b] == others;
      var a := ChoiceIndex(env[0].1, m[k]);
      RestoreKey(m, k, rest[b], ToStr(xs[a]));
      var i := CombineHas(k, xs, rest, a, b);
    }
  }

  /** Removing the first variable of an assignment assigns the rest. */
  lemma TailAssignment(env: seq<(string, EnvValue)>, m: map<string, string>, others: map<string, string>)
    requires env != [] && DistinctKeys(env)
    requires m.Keys == KeySet(env)
    requires forall i | 0 <= i < |env| :: m[env[i].0] in Texts(env[i].1)
    requires others == m - {env[0].0}
    ensures DistinctKeys(env[1..])
    ensures others.Keys == KeySet(env[1..])
    ensures forall i | 0 <= i < |env[1..]| :: others[env[1..][i].0] in Texts(env[1..][i].1)
    ensures env[0].0 in m
  {
    var k := env[0].0;
    assert KeySet(env) == {k} + KeySet(env[1..]);
    assert k !in KeySet(env[1..]) by {
      forall i | 0 <= i < |env[1..]| ensures env[1..][i].0 != k {
        assert env[1..][i] == env[i + 1];
      }
    }
    forall i | 0 <= i < |env[1..]| ensures others[env[1..][i].0] in Texts(env[1..][i].1) {
      assert env[1..][i] == env[i + 1];
    }
  }

  /** The position of a choice with the given text. */
  lemma ChoiceIndex(v: EnvValue, t: string) returns (a: nat)
    requires t in Texts(v)
    ensures a < |AsList(v)| && ToStr(AsList(v)[a]) == t
  {
    var x :| x in AsList(v) && ToStr(x) == t;
    a :| a < |AsList(v)| && AsList(v)[a] == x;
  }

  // ---------------------------------------------------------------------------
  // program_args
  // ---------------------------------------------------------------------------

  const ArgsTypeError := "program_args must be string or list of strings"

  /** What one element of a `program_args` list contributes: a string is
      split shell-fashion (`split` stands for `shlex.split`), anything else
      is kept as the one argument `str(elem)` (`show`). */
  function ArgPieces(x: Json, split: string -> seq<string>, show: Json -> string): seq<string> {
    if x.JStr? then split(x.s) else [show(x)]
  }

  /** The arguments of a list, element by element. */
  function FlattenArgs(xs: seq<Json>, split: string -> seq<string>, show: Json -> string): seq<string> {
    if xs == [] then []
    else FlattenArgs(xs[..|xs| - 1], split, show) + ArgPieces(xs[|xs| - 1], split, show)
  }

  /** `_normalize_args(raw)`: nothing for `None`, the split of a string, the
      flattened pieces of a list, and a `TypeError` for anything else. */
  function NormalizedArgs(raw: Json, split: string -> seq<string>, show: Json -> string): (r: Result<seq<string>>)
    ensures r.Err? <==> !(raw.JNull? || raw.JStr? || raw.JList?)
    ensures r.Err? ==> r.error == ArgsTypeError
    ensures raw.JNull? ==> r == Ok([])
    ensures raw.JStr? ==> r == Ok(split(raw.s))
  {
    match raw
    case JNull => Ok([])
    case JStr(s) => Ok(split(s))
    case JList(xs) => Ok(FlattenArgs(xs, split, show))
    case _ => Err(ArgsTypeError)
  }

  /** `_normalize_args(raw)` with its merging loop. */
  method NormalizeArgs(raw: Json, split: string -> seq<string>, show: Json -> string) returns (r: Result<seq<string>>)
    ensures r == NormalizedArgs(raw, split, show)
  {
    if raw.JNull? {
      return Ok([]);
    }
    if raw.JStr? {
      return Ok(split(raw.s));
    }
    if raw.JList? {
      var merged: seq<string> := [];
      for i := 0 to |raw.items|
        invariant merged == FlattenArgs(raw.items[..i], split, show)
      {
        assert raw.items[..i + 1][..i] == raw.items[..i];
        var elem := raw.items[i];
        if elem.JStr? {
          merged := merged + split(elem.s);
        } else {
          merged := merged + [show(elem)];
        }
      }
      assert raw.items[..|raw.items|] == raw.items;
      return Ok(merged);
    }
    return Err(ArgsTypeError);
  }

  /** Normalising a list is normalising each part and concatenating: a list
      can be split anywhere. */
  lemma {:induction false} FlattenArgsAppend(xs: seq<Json>, ys: seq<Json>, split: string -> seq<string>, show: Json -> string)
    ensures FlattenArgs(xs + ys, split, show) == FlattenArgs(xs, split, show) + FlattenArgs(ys, split, show)
    decreases |ys|
  {
    if ys != [] {
      var n := |ys|;
      assert (xs + ys)[..|xs + ys| - 1] == xs + ys[..n - 1];
      FlattenArgsAppend(xs, ys[..n - 1], split, show);
    } else {
      assert xs + ys == xs;
    }
  }

  /** A list of strings is the concatenation of their splits; a list without
      strings keeps one argument per element. */
  lemma {:induction false} FlattenNonStrings(xs: seq<Json>, split: string -> seq<string>, show: Json -> string)
    requires forall i | 0 <= i < |xs| :: !xs[i].JStr?
    ensures FlattenArgs(xs, split, show) == seq(|xs|, i requires 0 <= i < |xs| => show(xs[i]))
  {
    if xs != [] {
      FlattenNonStrings(xs[..|xs| - 1], split, show);
    }
  }
}
