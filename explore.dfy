/** The exploration of explore.py: the directions and the sampler the study
    is created with, the per-trial objective (sample flags and environment,
    build, measure, extract the objective values) and the CSV table written
    from the study's trials. */
module Explore {
  import opened Wrappers
  import opened PyStr
  import opened Values
  import opened Trials
  import Config
  import Misc
  import Measure

  // ---------------------------------------------------------------------------
  // Study set-up
  // ---------------------------------------------------------------------------

  /** The optimisation direction of every objective, in order: `minimize`
      for goal `min` and `maximize` for anything else. */
  function Directions(objectives: seq<Config.Objective>): (r: seq<string>)
    ensures |r| == |objectives|
    ensures forall i | 0 <= i < |r| :: r[i] == "minimize" <==> objectives[i].goal == "min"
    ensures forall i | 0 <= i < |r| :: r[i] == "maximize" <==> objectives[i].goal != "min"
  {
    if objectives == [] then []
    else Directions(objectives[..|objectives| - 1]) + [if objectives[|objectives| - 1].goal == "min" then "minimize" else "maximize"]
  }

  /** The sampler a study is created with. */
  datatype SamplerChoice = NsgaIII(populationSize: int, seed: Json) | Tpe(nStartupTrials: int)

  /** `nsga3` selects NSGA-III with the configured population and seed; any
      other sampler setting selects TPE with the configured start-up trials. */
  function ChooseSampler(search: Config.SearchSpec): (r: SamplerChoice)
    ensures r.NsgaIII? <==> search.sampler == JStr("nsga3")
    ensures r.NsgaIII? ==> r.populationSize == search.populationSize && r.seed == search.randomSeed
    ensures r.Tpe? ==> r.nStartupTrials == search.nStartupTrials
  {
    if search.sampler == JStr("nsga3") then NsgaIII(search.populationSize, search.randomSeed)
    else Tpe(search.nStartupTrials)
  }

  /** For a loaded configuration, whose goals are all `min` or `max`, an
      objective is maximised exactly when its goal is `max`. */
  lemma LoadedDirections(raw: Json, split: string -> seq<string>, show: Json -> string)
    requires Config.Load(raw, split, show).Valid?
    ensures var objs := Config.Load(raw, split, show).value.objectives;
      var d := Directions(objs);
      d != [] && forall i | 0 <= i < |d| :: d[i] == "maximize" <==> objs[i].goal == "max"
  {
    Config.LoadObjectives(raw, split, show);
  }

  // ---------------------------------------------------------------------------
  // Work directories
  // ---------------------------------------------------------------------------

  /** `f"trial_{number:05d}"`. */
  function WorkDirName(number: nat): (r: string)
    ensures |r| >= 11 && r[..6] == "trial_"
  {
    "trial_" + ZeroPad(number, 5)
  }

  /** Different trials get different work directories. */
  lemma WorkDirsDiffer(m: nat, n: nat)
    requires m != n
    ensures WorkDirName(m) != WorkDirName(n)
  {
  }

  // ---------------------------------------------------------------------------
  // Collaborators
  // ---------------------------------------------------------------------------

  /** What is asked of the build step: `compile_single_source` into `a.out`
      of the work directory, or `compile_project` in the work directory. */
  datatype BuildRequest =
    | SingleSource(compiler: string, source: string, flags: string, out: string)
    | ProjectBuild(project: Config.BuildProject, compiler: string, flags: string, workdir: string)

  /** The build step of build.py, as an oracle: the path of the binary, `None`
      when a build command failed, or an exception. */
  type Builder = BuildRequest -> Result<Option<string>>

  const NoProject := "'NoneType' object has no attribute 'build_system'"

  /** The request `trial_objective` makes for a trial with the given flags
      and work directory. */
  function Request(cfg: Config.Config, flags: string, workdir: string): (r: Result<BuildRequest>)
    ensures cfg.source.Some? ==> r == Ok(SingleSource(cfg.compiler, cfg.source.value, flags, workdir + "/a.out"))
    ensures cfg.source.None? && cfg.project.Some? ==> r == Ok(ProjectBuild(cfg.project.value, cfg.compiler, flags, workdir))
    ensures cfg.source.None? && cfg.project.None? ==> r == Err(NoProject)
  {
    if cfg.source.Some? then Ok(SingleSource(cfg.compiler, cfg.source.value, flags, workdir + "/a.out"))
    else if cfg.project.Some? then Ok(ProjectBuild(cfg.project.value, cfg.compiler, flags, workdir))
    else Err(NoProject)
  }

  const NoPerfBlock := "'NoneType' object has no attribute 'events'"
  const NoLikwidBlock := "'NoneType' object has no attribute 'metrics'"

  /** The measurement `trial_objective` asks for: one perf run, or as many
      likwid runs as the configuration's `runs`. */
  function Measured(cfg: Config.Config, bin: string, env: map<string, Val>, run: Measure.Runner): Result<map<string, real>> {
    if cfg.backend == "perf" then
      if cfg.perf.None? then Err(NoPerfBlock)
      else Measure.PerfMeasured(cfg.perf.value, bin, cfg.programArgs, env, run, 1)
    else
      if cfg.likwid.None? then Err(NoLikwidBlock)
      else Measure.LikwidMeasured(cfg.likwid.value, bin, cfg.programArgs, env, run, cfg.runs)
  }

  // ---------------------------------------------------------------------------
  // The objective
  // ---------------------------------------------------------------------------

  /** The user attributes of a completed trial. */
  datatype Attrs = Attrs(flags: string, env: map<string, Val>, metrics: map<string, real>, binary: string)

  /** How a trial ends: with its objective values and attributes, pruned
      with a reason (`TrialPruned`), or failed with an exception. */
  datatype Outcome = Completed(values: seq<real>, attrs: Attrs) | Pruned(reason: string) | Failed(error: string)

  const BuildFailed := "build failed"

  function MeasurementFailed(e: string): string { "measurement failed: " + e }

  function MetricMissing(m: string): string { "metric '" + m + "' missing" }

  /** The objective values in declared order, or the first objective whose
      metric was not measured. */
  function ObjectiveValues(objectives: seq<Config.Objective>, metrics: map<string, real>): (r: Result<seq<real>>) {
    if objectives == [] then Ok([])
    else
      var front :- ObjectiveValues(objectives[..|objectives| - 1], metrics);
      var m := objectives[|objectives| - 1].metric;
      if m in metrics then Ok(front + [metrics[m]]) else Err(MetricMissing(m))
  }

  /** The objective values are there exactly when every objective's metric
      was measured; then there is one per objective, in order, and otherwise
      the reason names the first objective whose metric is missing. */
  lemma {:induction false} ObjectiveValuesMeaning(objectives: seq<Config.Objective>, metrics: map<string, real>)
    ensures var r := ObjectiveValues(objectives, metrics);
      (r.Ok? <==> forall i | 0 <= i < |objectives| :: objectives[i].metric in metrics)
      && (r.Ok? ==>
            |r.value| == |objectives|
            && forall i | 0 <= i < |objectives| :: r.value[i] == metrics[objectives[i].metric])
      && (r.Err? ==> exists n | 0 <= n < |objectives| ::
            objectives[n].metric !in metrics && r.error == MetricMissing(objectives[n].metric)
            && forall j | 0 <= j < n :: objectives[j].metric in metrics)
  {
    if objectives != [] {
      var front := objectives[..|objectives| - 1];
      ObjectiveValuesMeaning(front, metrics);
      assert forall i | 0 <= i < |front| :: objectives[i] == front[i];
    }
  }

  /** What sampling leaves behind: the flag label, the flag string, the
      environment and the trial's parameters. */
  datatype Sample = Sample(flagKey: string, flags: string, env: map<string, Val>, params: map<string, Val>)

  /** `suggest_compiler_flags` and then `suggest_env`, on a trial that holds
      `params`. */
  function Sampled(cfg: Config.Config, s: Sampler, params: map<string, Val>): Result<Sample> {
    var d :- Misc.SampleFlags(s, cfg.compilerFlags, cfg.compilerParams, cfg.compilerFlagPool, params);
    var e :- Misc.SampleEnv(s, cfg.env, d.params);
    Ok(Sample(Misc.Label(d.tokens), Join(d.tokens, " "), e.env, e.params))
  }

  /** The objective once a binary exists: measure, then extract. */
  function AfterBuild(cfg: Config.Config, smp: Sample, bin: string, run: Measure.Runner): Outcome {
    match Measured(cfg, bin, smp.env, run)
    case Err(e) => Outcome.Pruned(MeasurementFailed(e))
    case Ok(metrics) =>
      match ObjectiveValues(cfg.objectives, metrics)
      case Err(reason) => Outcome.Pruned(reason)
      case Ok(values) => Completed(values, Attrs(smp.flagKey, smp.env, metrics, bin))
  }

  /** The objective once the flags and the environment are sampled: build,
      then go on with the binary. */
  function AfterSampling(cfg: Config.Config, smp: Sample, root: string, number: nat, build: Builder, run: Measure.Runner)
    : Outcome
  {
    match Request(cfg, smp.flags, root + "/" + WorkDirName(number))
    case Err(e) => Failed(e)
    case Ok(req) =>
      match build(req)
      case Err(e) => Failed(e)
      case Ok(None) => Outcome.Pruned(BuildFailed)
      case Ok(Some(bin)) => AfterBuild(cfg, smp, bin, run)
  }

  /** `trial_objective` for trial `number` on a trial that holds `params`,
      under the work directory root `root`. */
  function TrialOutcome(cfg: Config.Config, s: Sampler, params: map<string, Val>, root: string, number: nat,
                        build: Builder, run: Measure.Runner): Outcome
  {
    match Sampled(cfg, s, params)
    case Err(e) => Failed(e)
    case Ok(smp) => AfterSampling(cfg, smp, root, number, build, run)
  }

  /** `measure_perf` or `measure_likwid`, as the backend says. */
  method MeasureBackend(cfg: Config.Config, bin: string, env: map<string, Val>, run: Measure.Runner)
    returns (r: Result<map<string, real>>)
    ensures r == Measured(cfg, bin, env, run)
  {
    if cfg.backend == "perf" {
      if cfg.perf.None? {
        return Err(NoPerfBlock);
      }
      r := Measure.MeasurePerf(cfg.perf.value, bin, cfg.programArgs, env, run, 1);
    } else {
      if cfg.likwid.None? {
        return Err(NoLikwidBlock);
      }
      r := Measure.MeasureLikwid(cfg.likwid.value, bin, cfg.programArgs, env, run, cfg.runs);
    }
  }

  /** The objective-value loop of `trial_objective`. */
  method CollectObjectives(objectives: seq<Config.Objective>, metrics: map<string, real>) returns (r: Result<seq<real>>)
    ensures r == ObjectiveValues(objectives, metrics)
  {
    var values: seq<real> := [];
    var i := 0;
    while i < |objectives|
      invariant 0 <= i <= |objectives|
      invariant ObjectiveValues(objectives[..i], metrics) == Ok(values)
    {
      assert objectives[..i + 1][..i] == objectives[..i];
      var m := objectives[i].metric;
      if m !in metrics {
        ObjectiveErrorStays(objectives, i + 1, metrics);
        return Err(MetricMissing(m));
      }
      values := values + [metrics[m]];
      i := i + 1;
    }
    assert objectives[..i] == objectives;
    r := Ok(values);
  }

  lemma {:induction false} ObjectiveErrorStays(objectives: seq<Config.Objective>, k: nat, metrics: map<string, real>)
    requires k <= |objectives| && ObjectiveValues(objectives[..k], metrics).Err?
    ensures ObjectiveValues(objectives, metrics) == ObjectiveValues(objectives[..k], metrics)
    decreases |objectives| - k
  {
    if k < |objectives| {
      assert objectives[..k + 1][..k] == objectives[..k];
      ObjectiveErrorStays(objectives, k + 1, metrics);
    } else {
      assert objectives[..k] == objectives;
    }
  }

  /** The part of `trial_objective` after sampling: build, then measure and
      extract. */
  method BuildAndMeasure(cfg: Config.Config, smp: Sample, root: string, number: nat, build: Builder, run: Measure.Runner)
    returns (o: Outcome)
    ensures o == AfterSampling(cfg, smp, root, number, build, run)
  {
    var request := Request(cfg, smp.flags, root + "/" + WorkDirName(number));
    if request.Err? {
      return Failed(request.error);
    }
    var binary := build(request.value);
    if binary.Err? {
      return Failed(binary.error);
    }
    if binary.value.None? {
      return Outcome.Pruned(BuildFailed);
    }
    o := MeasureAndExtract(cfg, smp, binary.value.value, run);
  }

  /** The part of `trial_objective` once the binary exists: measure, then
      extract the objective values. */
  method MeasureAndExtract(cfg: Config.Config, smp: Sample, bin: string, run: Measure.Runner) returns (o: Outcome)
    ensures o == AfterBuild(cfg, smp, bin, run)
  {
    var metrics := MeasureBackend(cfg, bin, smp.env, run);
    if metrics.Err? {
      return Outcome.Pruned(MeasurementFailed(metrics.error));
    }
    var values := CollectObjectives(cfg.objectives, metrics.value);
    if values.Err? {
      return Outcome.Pruned(values.error);
    }
    o := Completed(values.value, Attrs(smp.flagKey, smp.env, metrics.value, bin));
  }

  /** `trial_objective(trial)`: sample, build, measure and extract; the
      user attributes are set only when the trial completes. */
  method TrialObjective(trial: Trial, cfg: Config.Config, root: string, build: Builder, run: Measure.Runner)
    returns (o: Outcome)
    modifies trial
    ensures o == TrialOutcome(cfg, trial.sampler, old(trial.params), root, trial.number, build, run)
    ensures Sampled(cfg, trial.sampler, old(trial.params)).Ok? ==>
      trial.params == Sampled(cfg, trial.sampler, old(trial.params)).value.params
    ensures o.Completed? ==>
      trial.flagsAttr == Some(o.attrs.flags) && trial.envAttr == Some(o.attrs.env)
      && trial.metricsAttr == Some(o.attrs.metrics) && trial.binaryAttr == Some(o.attrs.binary)
    ensures !o.Completed? ==>
      trial.flagsAttr == old(trial.flagsAttr) && trial.envAttr == old(trial.envAttr)
      && trial.metricsAttr == old(trial.metricsAttr) && trial.binaryAttr == old(trial.binaryAttr)
  {
    var smp := SampleTrial(trial, cfg);
    if smp.Err? {
      return Failed(smp.error);
    }
    o := BuildAndMeasure(cfg, smp.value, root, trial.number, build, run);
    if o.Completed? {
      trial.flagsAttr := Some(o.attrs.flags);
      trial.envAttr := Some(o.attrs.env);
      trial.metricsAttr := Some(o.attrs.metrics);
      trial.binaryAttr := Some(o.attrs.binary);
    }
  }

  /** The sampling part of `trial_objective`: `suggest_compiler_flags`, then
      `suggest_env`. */
  method SampleTrial(trial: Trial, cfg: Config.Config) returns (r: Result<Sample>)
    modifies trial`params
    ensures r == Sampled(cfg, trial.sampler, old(trial.params))
    ensures r.Ok? ==> trial.params == r.value.params
  {
    var flagged := Misc.SuggestCompilerFlags(trial, cfg.compilerFlags, cfg.compilerParams, cfg.compilerFlagPool);
    if flagged.Err? {
      return Err(flagged.error);
    }
    var (flagKey, flags) := flagged.value;
    var env := Misc.SuggestEnv(trial, cfg.env);
    if env.Err? {
      return Err(env.error);
    }
    r := Ok(Sample(flagKey, flags, env.value, trial.params));
  }

  // ---------------------------------------------------------------------------
  // Properties of the objective
  // ---------------------------------------------------------------------------

  /** A build that produces no binary prunes the trial with `build failed`,
      whatever the measurement would have done: it is never attempted. */
  lemma BuildFailurePrunes(cfg: Config.Config, smp: Sample, root: string, number: nat, build: Builder,
                           run1: Measure.Runner, run2: Measure.Runner)
    requires Request(cfg, smp.flags, root + "/" + WorkDirName(number)).Ok?
    requires build(Request(cfg, smp.flags, root + "/" + WorkDirName(number)).value) == Ok(None)
    ensures AfterSampling(cfg, smp, root, number, build, run1) == Outcome.Pruned(BuildFailed)
    ensures AfterSampling(cfg, smp, root, number, build, run1) == AfterSampling(cfg, smp, root, number, build, run2)
  {
  }

  /** Any failure of the measurement prunes the trial with the failure's
      message after `measurement failed: `. */
  lemma MeasurementFailurePrunes(cfg: Config.Config, smp: Sample, bin: string, run: Measure.Runner)
    requires Measured(cfg, bin, smp.env, run).Err?
    ensures AfterBuild(cfg, smp, bin, run) == Outcome.Pruned(MeasurementFailed(Measured(cfg, bin, smp.env, run).error))
  {
  }

  /** A completed trial has one value per objective, in declared order, each
      the measured value of the objective's metric, and carries the flag
      label, the environment, all measured metrics and the binary. */
  lemma CompletedValues(cfg: Config.Config, smp: Sample, bin: string, run: Measure.Runner)
    ensures var o := AfterBuild(cfg, smp, bin, run);
      o.Completed? ==>
        Measured(cfg, bin, smp.env, run) == Ok(o.attrs.metrics)
        && o.attrs == Attrs(smp.flagKey, smp.env, o.attrs.metrics, bin)
        && |o.values| == |cfg.objectives|
        && forall i | 0 <= i < |cfg.objectives| ::
             cfg.objectives[i].metric in o.attrs.metrics && o.values[i] == o.attrs.metrics[cfg.objectives[i].metric]
  {
    var m := Measured(cfg, bin, smp.env, run);
    if m.Ok? {
      ObjectiveValuesMeaning(cfg.objectives, m.value);
    }
  }

  /** A trial whose measurement succeeded but lacks an objective's metric is
      pruned naming the first such objective. */
  lemma MissingMetricPrunes(cfg: Config.Config, smp: Sample, bin: string, run: Measure.Runner)
    requires Measured(cfg, bin, smp.env, run).Ok?
    ensures var m := Measured(cfg, bin, smp.env, run).value;
      (exists i | 0 <= i < |cfg.objectives| :: cfg.objectives[i].metric !in m) ==>
        exists n | 0 <= n < |cfg.objectives| ::
          AfterBuild(cfg, smp, bin, run) == Outcome.Pruned(MetricMissing(cfg.objectives[n].metric))
          && cfg.objectives[n].metric !in m
          && forall j | 0 <= j < n :: cfg.objectives[j].metric in m
  {
    ObjectiveValuesMeaning(cfg.objectives, Measured(cfg, bin, smp.env, run).value);
  }

  /** The perf backend measures a single run and reports what `perf_parse`
      found in it. */
  lemma PerfBackendOneRun(cfg: Config.Config, bin: string, env: map<string, Val>, run: Measure.Runner)
    requires cfg.backend == "perf" && cfg.perf.Some?
    ensures Measured(cfg, bin, env, run) == Measure.PerfRun(cfg.perf.value, bin, cfg.programArgs, env, run, 0)
  {
    Measure.PerfSingleRun(cfg.perf.value, bin, cfg.programArgs, env, run);
  }

  /** A trial is pruned after its build only for a failed measurement or a
      missing metric. */
  lemma MeasurePruneReasons(cfg: Config.Config, smp: Sample, bin: string, run: Measure.Runner)
    ensures var o := AfterBuild(cfg, smp, bin, run);
      o.Pruned? ==>
        (exists e :: o.reason == MeasurementFailed(e))
        || (exists i | 0 <= i < |cfg.objectives| :: o.reason == MetricMissing(cfg.objectives[i].metric))
  {
    var m := Measured(cfg, bin, smp.env, run);
    if m.Ok? {
      ObjectiveValuesMeaning(cfg.objectives, m.value);
    }
  }

  /** A trial is pruned only for a failed build, a failed measurement or a
      missing metric. */
  lemma PruneReasons(cfg: Config.Config, s: Sampler, params: map<string, Val>, root: string, number: nat,
                     build: Builder, run: Measure.Runner)
    ensures var o := TrialOutcome(cfg, s, params, root, number, build, run);
      o.Pruned? ==>
        o.reason == BuildFailed
        || (exists e :: o.reason == MeasurementFailed(e))
        || (exists i | 0 <= i < |cfg.objectives| :: o.reason == MetricMissing(cfg.objectives[i].metric))
  {
    var smp := Sampled(cfg, s, params);
    if smp.Ok? {
      var req := Request(cfg, smp.value.flags, root + "/" + WorkDirName(number));
      if req.Ok? {
        var bin := build(req.value);
        if bin.Ok? && bin.value.Some? {
          MeasurePruneReasons(cfg, smp.value, bin.value.value, run);
        }
      }
    }
  }

  // ---------------------------------------------------------------------------
  // The study's record of a trial
  // ---------------------------------------------------------------------------

  /** What the study keeps of trial `number` once its objective returned
      `o`: a completed trial holds its values and user attributes; a pruned or
      failed one neither. The trial's attributes start unset. */
  function Record(number: nat, o: Outcome): (t: FrozenTrial)
    ensures t.number == number
    ensures (t.state == Complete) <==> o.Completed?
    ensures t.values.Some? <==> o.Completed?
    ensures t.metricsAttr.Some? <==> o.Completed?
  {
    match o
    case Completed(values, a) =>
      FrozenTrial(number, Complete, Some(values), None, Some(a.flags), Some(a.env), Some(a.metrics), Some(a.binary))
    case Pruned(reason) => FrozenTrial(number, TrialState.Pruned, None, Some(reason), None, None, None, None)
    case Failed(e) => FrozenTrial(number, Fail, None, Some(e), None, None, None, None)
  }

  // ---------------------------------------------------------------------------
  // The CSV table
  // ---------------------------------------------------------------------------

  /** A CSV cell: a number, a text, or an environment that `json.dumps`
      renders. */
  datatype Cell = Num(x: real) | Text(s: string) | EnvJson(env: map<string, Val>)

  /** `t.user_attrs.get("metrics", {})`. */
  function MetricsOf(t: FrozenTrial): map<string, real> {
    t.metricsAttr.GetOr(map[])
  }

  /** The names of all metrics any of the trials carries. */
  function MetricKeys(trials: seq<FrozenTrial>): set<string> {
    if trials == [] then {}
    else MetricKeys(trials[..|trials| - 1]) + MetricsOf(trials[|trials| - 1]).Keys
  }

  lemma {:induction false} MetricKeysMeaning(trials: seq<FrozenTrial>, k: string)
    ensures k in MetricKeys(trials) <==> exists i | 0 <= i < |trials| :: k in MetricsOf(trials[i])
  {
    if trials != [] {
      var front := trials[..|trials| - 1];
      MetricKeysMeaning(front, k);
      assert forall i | 0 <= i < |front| :: trials[i] == front[i];
    }
  }

  /** The metric names of the objectives, in order. */
  function ObjectiveMetrics(objectives: seq<Config.Objective>): (r: seq<string>)
    ensures |r| == |objectives|
    ensures forall i | 0 <= i < |r| :: r[i] == objectives[i].metric
  {
    if objectives == [] then []
    else ObjectiveMetrics(objectives[..|objectives| - 1]) + [objectives[|objectives| - 1].metric]
  }

  /** The header for the sorted extra metric names `extras`. */
  function Header(objectives: seq<Config.Objective>, extras: seq<string>): seq<string> {
    ObjectiveMetrics(objectives) + ["compiler_flags", "env", "binary"] + extras
  }

  /** `extra_metrics.update(...)` over the trials. */
  method ExtraMetrics(trials: seq<FrozenTrial>) returns (extra: set<string>)
    ensures extra == MetricKeys(trials)
  {
    extra := {};
    var i := 0;
    while i < |trials|
      invariant 0 <= i <= |trials|
      invariant extra == MetricKeys(trials[..i])
    {
      assert trials[..i + 1][..i] == trials[..i];
      extra := extra + MetricsOf(trials[i]).Keys;
      i := i + 1;
    }
    assert trials[..i] == trials;
  }

  /** `sorted(keys)`: the strictly ascending list of the set's strings. */
  method SortedNames(keys: set<string>) returns (r: seq<string>)
    ensures Enumerates(r, keys)
  {
    var listed: seq<string> := [];
    var todo := keys;
    while todo != {}
      invariant todo <= keys
      invariant Distinct(listed)
      invariant (set x | x in listed) == keys - todo
      decreases todo
    {
      var k :| k in todo;
      assert (set x | x in listed + [k]) == (set x | x in listed) + {k};
      listed := listed + [k];
      todo := todo - {k};
    }
    r := SortStrings(listed);
    SortEnumerates(listed, keys);
  }

  /** The header row of the CSV log and the sorted extra metric names. */
  method CsvHeader(objectives: seq<Config.Objective>, trials: seq<FrozenTrial>) returns (header: seq<string>, extras: seq<string>)
    ensures Enumerates(extras, MetricKeys(trials))
    ensures header == Header(objectives, extras)
  {
    header := [];
    var i := 0;
    while i < |objectives|
      invariant 0 <= i <= |objectives|
      invariant header == ObjectiveMetrics(objectives[..i])
    {
      assert objectives[..i + 1][..i] == objectives[..i];
      header := header + [objectives[i].metric];
      i := i + 1;
    }
    assert objectives[..i] == objectives;
    header := header + ["compiler_flags", "env", "binary"];
    var extra := ExtraMetrics(trials);
    extras := SortedNames(extra);
    header := header + extras;
  }

  /** A trial has a row exactly when it completed with values. */
  predicate Written(t: FrozenTrial) {
    t.state == Complete && t.values.Some?
  }

  /** The extra-metric cells of a row: the metric's value, or `""`. */
  function MetricCells(m: map<string, real>, extras: seq<string>): (r: seq<Cell>)
    ensures |r| == |extras|
    ensures forall j | 0 <= j < |extras| :: r[j] == if extras[j] in m then Num(m[extras[j]]) else Text("")
  {
    if extras == [] then []
    else MetricCells(m, extras[..|extras| - 1]) + [if extras[|extras| - 1] in m then Num(m[extras[|extras| - 1]]) else Text("")]
  }

  function Nums(xs: seq<real>): (r: seq<Cell>)
    ensures |r| == |xs|
    ensures forall i | 0 <= i < |xs| :: r[i] == Num(xs[i])
  {
    if xs == [] then [] else Nums(xs[..|xs| - 1]) + [Num(xs[|xs| - 1])]
  }

  /** The row of a written trial. */
  function Row(t: FrozenTrial, extras: seq<string>): seq<Cell>
    requires Written(t)
  {
    Nums(t.values.value)
      + [Text(t.flagsAttr.GetOr("")), EnvJson(t.envAttr.GetOr(map[])), Text(t.binaryAttr.GetOr(""))]
      + MetricCells(MetricsOf(t), extras)
  }

  /** The rows, one per written trial, in trial order. */
  function Rows(trials: seq<FrozenTrial>, extras: seq<string>): seq<seq<Cell>> {
    if trials == [] then []
    else
      var t := trials[|trials| - 1];
      Rows(trials[..|trials| - 1], extras) + (if Written(t) then [Row(t, extras)] else [])
  }

  /** The row loop of the CSV log. */
  method CsvRows(trials: seq<FrozenTrial>, extras: seq<string>) returns (rows: seq<seq<Cell>>)
    ensures rows == Rows(trials, extras)
  {
    rows := [];
    var i := 0;
    while i < |trials|
      invariant 0 <= i <= |trials|
      invariant rows == Rows(trials[..i], extras)
    {
      assert trials[..i + 1][..i] == trials[..i];
      var t := trials[i];
      if t.state != Complete || t.values.None? {
        i := i + 1;
        continue;
      }
      var row := Nums(t.values.value);
      row := row + [Text(t.flagsAttr.GetOr("")), EnvJson(t.envAttr.GetOr(map[])), Text(t.binaryAttr.GetOr(""))];
      var j := 0;
      while j < |extras|
        invariant 0 <= j <= |extras|
        invariant row == Nums(t.values.value)
          + [Text(t.flagsAttr.GetOr("")), EnvJson(t.envAttr.GetOr(map[])), Text(t.binaryAttr.GetOr(""))]
          + MetricCells(MetricsOf(t), extras[..j])
      {
        assert extras[..j + 1][..j] == extras[..j];
        var k := extras[j];
        row := row + [if k in MetricsOf(t) then Num(MetricsOf(t)[k]) else Text("")];
        j := j + 1;
      }
      assert extras[..j] == extras;
      rows := rows + [row];
      i := i + 1;
    }
    assert trials[..i] == trials;
  }

  /** The trials that have a row, in order. */
  function WrittenTrials(trials: seq<FrozenTrial>): (r: seq<FrozenTrial>)
    ensures forall i | 0 <= i < |r| :: Written(r[i])
  {
    if trials == [] then []
    else
      var t := trials[|trials| - 1];
      WrittenTrials(trials[..|trials| - 1]) + (if Written(t) then [t] else [])
  }

  /** There is one row per trial that completed with values, in trial order,
      and a trial has a row exactly when it did. */
  lemma {:induction false} RowsOfWritten(trials: seq<FrozenTrial>, extras: seq<string>)
    ensures var w := WrittenTrials(trials);
      |Rows(trials, extras)| == |w|
      && (forall i | 0 <= i < |w| :: Rows(trials, extras)[i] == Row(w[i], extras))
      && (forall t :: t in w <==> t in trials && Written(t))
  {
    if trials != [] {
      var front := trials[..|trials| - 1];
      RowsOfWritten(front, extras);
      assert trials == front + [trials[|trials| - 1]];
    }
  }

  /** A row of a trial with one value per objective is as wide as the
      header; under each objective's name is that objective's value, and
      under each extra metric name is the trial's value of that metric, or
      `""` when it has none. */
  lemma RowAligned(objectives: seq<Config.Objective>, extras: seq<string>, t: FrozenTrial)
    requires Written(t) && |t.values.value| == |objectives|
    ensures var h := Header(objectives, extras);
      var row := Row(t, extras);
      var n := |objectives| + 3;
      |row| == |h|
      && (forall i | 0 <= i < |objectives| :: h[i] == objectives[i].metric && row[i] == Num(t.values.value[i]))
      && h[|objectives|..n] == ["compiler_flags", "env", "binary"]
      && row[|objectives|..n] == [Text(t.flagsAttr.GetOr("")), EnvJson(t.envAttr.GetOr(map[])), Text(t.binaryAttr.GetOr(""))]
      && forall j | n <= j < |h| ::
           row[j] == if h[j] in MetricsOf(t) then Num(MetricsOf(t)[h[j]]) else Text("")
  {
  }

  /** The header lists every metric of every trial, each once. */
  lemma HeaderCovers(objectives: seq<Config.Objective>, trials: seq<FrozenTrial>, extras: seq<string>, i: nat, k: string)
    requires Enumerates(extras, MetricKeys(trials))
    requires i < |trials| && k in MetricsOf(trials[i])
    ensures exists j | |objectives| + 3 <= j < |Header(objectives, extras)| :: Header(objectives, extras)[j] == k
    ensures Distinct(extras)
  {
    MetricKeysMeaning(trials, k);
    assert k in extras;
    var j :| 0 <= j < |extras| && extras[j] == k;
    var h := Header(objectives, extras);
    assert h[|objectives| + 3..] == extras;
    assert h[|objectives| + 3 + j] == k;
    EnumerationDistinct(extras, MetricKeys(trials));
  }

  lemma EnumerationDistinct(a: seq<string>, keys: set<string>)
    requires Enumerates(a, keys)
    ensures Distinct(a)
  {
    forall i, j | 0 <= i < j < |a| ensures a[i] != a[j] {
      LessIrreflexive(a[i]);
    }
  }

  /** Trials recorded from this objective have a row exactly when they
      completed, and then the row is as wide as the header. */
  lemma RecordedRow(cfg: Config.Config, s: Sampler, params: map<string, Val>, root: string, number: nat,
                    build: Builder, run: Measure.Runner, extras: seq<string>)
    ensures var o := TrialOutcome(cfg, s, params, root, number, build, run);
      var t := Record(number, o);
      (Written(t) <==> o.Completed?)
      && (Written(t) ==> |Row(t, extras)| == |Header(cfg.objectives, extras)| && MetricsOf(t) == o.attrs.metrics)
  {
    var o := TrialOutcome(cfg, s, params, root, number, build, run);
    if o.Completed? {
      var smp := Sampled(cfg, s, params).value;
      var bin := build(Request(cfg, smp.flags, root + "/" + WorkDirName(number)).value).value.value;
      CompletedValues(cfg, smp, bin, run);
      RowAligned(cfg.objectives, extras, Record(number, o));
    }
  }
}
