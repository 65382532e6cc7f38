/** The measurement drivers of metrics.py, `measure_perf` and
    `measure_likwid`: run the binary under `perf stat` or `likwid-perfctr` a
    number of times, parse each run's output, collect every metric of a
    pre-declared set of buckets over the runs, and average each bucket that
    received a sample. */
module Measure {
  import opened Wrappers
  import opened PyStr
  import opened Values
  import opened Stats
  import Config
  import Metrics

  /** What `_run` hands back: the captured output streams. */
  datatype Proc = Proc(stdout: string, stderr: string)

  /** The process runner behind `_run`, as an oracle: the `k`-th run
      (counting from 0) of a command line under the trial's environment either
      completes with its captured output or raises, which is `Err`. */
  type Runner = (seq<string>, map<string, Val>, nat) -> Result<Proc>

  const PerfEmpty := "Perf parse failure – received no matching events."
  const LikwidEmpty := "LIKWID parse failure – no metrics captured."

  // ---------------------------------------------------------------------------
  // Command lines
  // ---------------------------------------------------------------------------

  /** `if cfg.core_list:` */
  predicate Pinned(coreList: Option<string>) {
    coreList.Some? && coreList.value != ""
  }

  /** The command `measure_perf` runs: `perf stat` with the requested events
      joined by commas, the binary and its arguments, behind `taskset -c` when
      a core list is set. */
  function PerfCommand(cfg: Config.PerfConfig, bin: string, args: seq<string>): seq<string> {
    var cmd := ["perf", "stat", "-e", Join(cfg.events, ","), "--", bin] + args;
    if Pinned(cfg.coreList) then ["taskset", "-c", cfg.coreList.value] + cmd else cmd
  }

  /** The event list `likwid-perfctr -g` receives: the group when one is set,
      otherwise the raw events joined by commas. */
  function LikwidGroupArg(cfg: Config.LikwidConfig): string {
    if cfg.group.Some? && cfg.group.value != "" then cfg.group.value else Join(cfg.events, ",")
  }

  /** The command `measure_likwid` runs. */
  function LikwidCommand(cfg: Config.LikwidConfig, bin: string, args: seq<string>): seq<string> {
    var pin := if Pinned(cfg.coreList) then ["-C", cfg.coreList.value] else [];
    ["likwid-perfctr"] + pin + ["-g", LikwidGroupArg(cfg)] + [bin] + args
  }

  /** The perf command line: the optional `taskset` prefix, then `perf stat`,
      whose event argument splits back into the requested events, then the
      binary and its arguments unchanged at the end. */
  lemma PerfCommandShape(cfg: Config.PerfConfig, bin: string, args: seq<string>)
    requires cfg.events != [] && forall i | 0 <= i < |cfg.events| :: ',' !in cfg.events[i]
    ensures var cmd := PerfCommand(cfg, bin, args);
      var p := if Pinned(cfg.coreList) then 3 else 0;
      |cmd| == p + 6 + |args|
      && (Pinned(cfg.coreList) ==> cmd[..3] == ["taskset", "-c", cfg.coreList.value])
      && cmd[p..p + 3] == ["perf", "stat", "-e"] && cmd[p + 4] == "--"
      && Split(cmd[p + 3], ',') == cfg.events
      && cmd[p + 5] == bin && cmd[p + 6..] == args
  {
    SplitJoin(cfg.events, ',');
  }

  /** The likwid command line: `likwid-perfctr`, the optional `-C` core list,
      `-g` with the group or the raw events, then the binary and its
      arguments unchanged at the end. */
  lemma LikwidCommandShape(cfg: Config.LikwidConfig, bin: string, args: seq<string>)
    ensures var cmd := LikwidCommand(cfg, bin, args);
      var p := if Pinned(cfg.coreList) then 3 else 1;
      |cmd| == p + 3 + |args|
      && cmd[0] == "likwid-perfctr"
      && (Pinned(cfg.coreList) ==> cmd[1..3] == ["-C", cfg.coreList.value])
      && cmd[p] == "-g" && cmd[p + 2] == bin && cmd[p + 3..] == args
      && (cfg.group.Some? && cfg.group.value != "" ==> cmd[p + 1] == cfg.group.value)
      && (cfg.group.None? || cfg.group.value == "" ==> cmd[p + 1] == Join(cfg.events, ","))
  {
  }

  // ---------------------------------------------------------------------------
  // Buckets
  // ---------------------------------------------------------------------------

  /** The samples each pre-declared metric received so far. */
  type Buckets = map<string, seq<real>>

  /** Every name of `keys` with no sample yet. */
  function EmptyBuckets(keys: set<string>): (b: Buckets)
    ensures b.Keys == keys
    ensures forall k | k in b :: b[k] == []
  {
    map k | k in keys :: []
  }

  /** `measure_perf`'s buckets: the requested events and CPI. */
  function PerfKeys(cfg: Config.PerfConfig): (r: set<string>)
    ensures forall e | e in r :: e in cfg.events || e == "CPI"
  {
    (set e | e in cfg.events) + {"CPI"}
  }

  /** `measure_likwid`'s buckets: every spec's name, and the `_var` name of
      every spec that asks for the variance. */
  function LikwidKeys(specs: seq<Config.MetricSpec>): (r: set<string>)
    ensures forall k :: k in r <==> Metrics.WantedKey(specs, k)
  {
    (set i | 0 <= i < |specs| :: specs[i].name)
      + (set i | 0 <= i < |specs| && specs[i].withVariance :: specs[i].name + "_var")
  }

  /** One run's data appended to the buckets it names; keys outside the
      buckets are dropped. */
  function Append(buckets: Buckets, data: map<string, real>): Buckets {
    map k | k in buckets :: if k in data then buckets[k] + [data[k]] else buckets[k]
  }

  /** The buckets after the runs, in order; the first failing run ends the
      measurement with its error. */
  function Collect(buckets: Buckets, runs: seq<Result<map<string, real>>>): Result<Buckets> {
    if runs == [] then Ok(buckets)
    else
      var front :- Collect(buckets, runs[..|runs| - 1]);
      var data :- runs[|runs| - 1];
      Ok(Append(front, data))
  }

  /** `{k: mean(v) for k, v in buckets.items() if v}`. */
  function Means(buckets: Buckets): map<string, real> {
    map k | k in buckets && buckets[k] != [] :: Mean(buckets[k])
  }

  // ---------------------------------------------------------------------------
  // The runs
  // ---------------------------------------------------------------------------

  /** `range(runs)` for an `int` or a `bool`; any other JSON value makes
      `range` raise `TypeError`. */
  function RunCount(runs: Json): (r: Result<nat>)
    ensures r.Err? <==> !runs.JInt? && !runs.JBool?
    ensures runs.JInt? ==> r == Ok(if runs.i < 0 then 0 else runs.i)
    ensures r.Err? ==> r.error == "'" + TypeName(runs) + "' object cannot be interpreted as an integer"
  {
    var count: Result<nat> :=
      match runs
      case JInt(i) => Ok(if i < 0 then 0 else i)
      case JBool(b) => Ok(if b then 1 else 0)
      case _ => Result<nat>.Err("'" + TypeName(runs) + "' object cannot be interpreted as an integer");
    count
  }

  /** The data of the `k`-th perf run: its stderr parsed by `perf_parse`,
      which must report something. */
  function PerfRun(cfg: Config.PerfConfig, bin: string, args: seq<string>, env: map<string, Val>, run: Runner, k: nat)
    : Result<map<string, real>>
  {
    var proc :- run(PerfCommand(cfg, bin, args), env, k);
    var data := Metrics.PerfParsed(proc.stderr, cfg.events);
    if data == map[] then Err(PerfEmpty) else Ok(data)
  }

  function PerfRuns(cfg: Config.PerfConfig, bin: string, args: seq<string>, env: map<string, Val>, run: Runner, n: nat)
    : (r: seq<Result<map<string, real>>>)
    ensures |r| == n
    ensures forall k | 0 <= k < n :: r[k] == PerfRun(cfg, bin, args, env, run, k)
  {
    seq(n, k requires 0 <= k => PerfRun(cfg, bin, args, env, run, k))
  }

  /** `measure_perf(cfg, bin, args, env, runs)`. */
  function PerfMeasured(cfg: Config.PerfConfig, bin: string, args: seq<string>, env: map<string, Val>, run: Runner, runs: int)
    : Result<map<string, real>>
  {
    var n := if runs < 0 then 0 else runs;
    var buckets :- Collect(EmptyBuckets(PerfKeys(cfg)), PerfRuns(cfg, bin, args, env, run, n));
    Ok(Means(buckets))
  }

  /** The data of the `k`-th likwid run: its stdout parsed by
      `likwid_parse`, whose error propagates, and which must report
      something. */
  function LikwidRun(cfg: Config.LikwidConfig, bin: string, args: seq<string>, env: map<string, Val>, run: Runner, k: nat)
    : Result<map<string, real>>
  {
    var proc :- run(LikwidCommand(cfg, bin, args), env, k);
    var data :- Metrics.LikwidParsed(proc.stdout, cfg.metrics);
    if data == map[] then Err(LikwidEmpty) else Ok(data)
  }

  function LikwidRuns(cfg: Config.LikwidConfig, bin: string, args: seq<string>, env: map<string, Val>, run: Runner, n: nat)
    : (r: seq<Result<map<string, real>>>)
    ensures |r| == n
    ensures forall k | 0 <= k < n :: r[k] == LikwidRun(cfg, bin, args, env, run, k)
  {
    seq(n, k requires 0 <= k => LikwidRun(cfg, bin, args, env, run, k))
  }

  /** `measure_likwid(cfg, bin, args, env, runs)`, where `runs` is whatever
      the configuration holds. */
  function LikwidMeasured(cfg: Config.LikwidConfig, bin: string, args: seq<string>, env: map<string, Val>, run: Runner, runs: Json)
    : Result<map<string, real>>
  {
    var n :- RunCount(runs);
    LikwidCollected(cfg, bin, args, env, run, n)
  }

  /** The measurement over `n` likwid runs. */
  function LikwidCollected(cfg: Config.LikwidConfig, bin: string, args: seq<string>, env: map<string, Val>, run: Runner, n: nat)
    : Result<map<string, real>>
  {
    var buckets :- Collect(EmptyBuckets(LikwidKeys(cfg.metrics)), LikwidRuns(cfg, bin, args, env, run, n));
    Ok(Means(buckets))
  }

  // ---------------------------------------------------------------------------
  // The drivers
  // ---------------------------------------------------------------------------

  /** `measure_perf`'s inner loop over the buckets: each bucket the run
      reported gets the run's value. */
  method AppendPerf(buckets: Buckets, data: map<string, real>) returns (r: Buckets)
    ensures r == Append(buckets, data)
  {
    r := buckets;
    var todo := buckets.Keys;
    while todo != {}
      invariant todo <= buckets.Keys && r.Keys == buckets.Keys
      invariant forall k | k in buckets :: r[k] == if k !in todo && k in data then buckets[k] + [data[k]] else buckets[k]
      decreases todo
    {
      var k :| k in todo;
      if k in data {
        r := r[k := r[k] + [data[k]]];
      }
      todo := todo - {k};
    }
  }

  /** `measure_likwid`'s inner loop over the run's data: each reported
      metric that has a bucket is appended to it. */
  method AppendLikwid(buckets: Buckets, data: map<string, real>) returns (r: Buckets)
    ensures r == Append(buckets, data)
  {
    r := buckets;
    var todo := data.Keys;
    while todo != {}
      invariant todo <= data.Keys && r.Keys == buckets.Keys
      invariant forall k | k in buckets :: r[k] == if k !in todo && k in data then buckets[k] + [data[k]] else buckets[k]
      decreases todo
    {
      var k :| k in todo;
      if k in r {
        r := r[k := r[k] + [data[k]]];
      }
      todo := todo - {k};
    }
  }

  lemma CollectSnoc(buckets: Buckets, runs: seq<Result<map<string, real>>>, k: nat)
    requires k < |runs|
    ensures Collect(buckets, runs[..k + 1]) == (
      match Collect(buckets, runs[..k])
      case Err(e) => Err(e)
      case Ok(front) => if runs[k].Err? then Err(runs[k].error) else Ok(Append(front, runs[k].value)))
  {
    assert runs[..k + 1][..k] == runs[..k];
  }

  lemma CollectStep(buckets: Buckets, runs: seq<Result<map<string, real>>>, k: nat, front: Buckets, data: map<string, real>)
    requires k < |runs| && Collect(buckets, runs[..k]) == Ok(front) && runs[k] == Ok(data)
    ensures Collect(buckets, runs[..k + 1]) == Ok(Append(front, data))
  {
    CollectSnoc(buckets, runs, k);
  }

  lemma CollectFailStep(buckets: Buckets, runs: seq<Result<map<string, real>>>, k: nat, front: Buckets)
    requires k < |runs| && Collect(buckets, runs[..k]) == Ok(front) && runs[k].Err?
    ensures Collect(buckets, runs) == Err(runs[k].error)
  {
    CollectSnoc(buckets, runs, k);
    CollectErrorStays(buckets, runs, k + 1);
  }

  /** Once a run has failed, the later runs change nothing. */
  lemma {:induction false} CollectErrorStays(buckets: Buckets, runs: seq<Result<map<string, real>>>, k: nat)
    requires k <= |runs| && Collect(buckets, runs[..k]).Err?
    ensures Collect(buckets, runs) == Collect(buckets, runs[..k])
    decreases |runs| - k
  {
    if k < |runs| {
      CollectSnoc(buckets, runs, k);
      CollectErrorStays(buckets, runs, k + 1);
    } else {
      assert runs[..k] == runs;
    }
  }

  /** One pass of `measure_perf`'s loop up to the bucketing: build the
      command, run it and parse its stderr. */
  method PerfOnce(cfg: Config.PerfConfig, bin: string, args: seq<string>, env: map<string, Val>, run: Runner, k: nat)
    returns (d: Result<map<string, real>>)
    ensures d == PerfRun(cfg, bin, args, env, run, k)
  {
    var cmd := ["perf", "stat", "-e", Join(cfg.events, ","), "--", bin] + args;
    if Pinned(cfg.coreList) {
      cmd := ["taskset", "-c", cfg.coreList.value] + cmd;
    }
    var proc := run(cmd, env, k);
    if proc.Err? {
      return Err(proc.error);
    }
    var data := Metrics.PerfParse(proc.value.stderr, cfg.events);
    if data == map[] {
      return Err(PerfEmpty);
    }
    d := Ok(data);
  }

  /** `measure_perf(cfg, bin, args, env, runs)`. */
  method MeasurePerf(cfg: Config.PerfConfig, bin: string, args: seq<string>, env: map<string, Val>, run: Runner, runs: int)
    returns (r: Result<map<string, real>>)
    ensures r == PerfMeasured(cfg, bin, args, env, run, runs)
  {
    var buckets := EmptyBuckets(PerfKeys(cfg));
    ghost var start := buckets;
    ghost var rs := PerfRuns(cfg, bin, args, env, run, if runs < 0 then 0 else runs);
    var k := 0;
    while k < runs
      invariant 0 <= k <= |rs|
      invariant Collect(start, rs[..k]) == Ok(buckets)
    {
      var data := PerfOnce(cfg, bin, args, env, run, k);
      assert rs[k] == data;
      if data.Err? {
        CollectFailStep(start, rs, k, buckets);
        return Err(data.error);
      }
      CollectStep(start, rs, k, buckets, data.value);
      buckets := AppendPerf(buckets, data.value);
      assert Collect(start, rs[..k + 1]) == Ok(buckets);
      k := k + 1;
    }
    assert rs[..k] == rs;
    r := Ok(Means(buckets));
  }

  /** One pass of `measure_likwid`'s loop up to the bucketing: build the
      command, run it and parse its stdout. */
  method LikwidOnce(cfg: Config.LikwidConfig, bin: string, args: seq<string>, env: map<string, Val>, run: Runner, k: nat)
    returns (d: Result<map<string, real>>)
    ensures d == LikwidRun(cfg, bin, args, env, run, k)
  {
    var cmd := ["likwid-perfctr"];
    if Pinned(cfg.coreList) {
      cmd := cmd + ["-C", cfg.coreList.value];
    }
    if cfg.group.Some? && cfg.group.value != "" {
      cmd := cmd + ["-g", cfg.group.value];
    } else {
      cmd := cmd + ["-g", Join(cfg.events, ",")];
    }
    cmd := cmd + [bin] + args;
    assert cmd == LikwidCommand(cfg, bin, args);
    var proc := run(cmd, env, k);
    if proc.Err? {
      return Err(proc.error);
    }
    var data := Metrics.LikwidParse(proc.value.stdout, cfg.metrics);
    if data.Err? {
      return Err(data.error);
    }
    if data.value == map[] {
      return Err(LikwidEmpty);
    }
    d := data;
  }

  /** `measure_likwid(cfg, bin, args, env, runs)`. */
  method MeasureLikwid(cfg: Config.LikwidConfig, bin: string, args: seq<string>, env: map<string, Val>, run: Runner, runs: Json)
    returns (r: Result<map<string, real>>)
    ensures r == LikwidMeasured(cfg, bin, args, env, run, runs)
  {
    var buckets := EmptyBuckets(LikwidKeys(cfg.metrics));
    var count := RunCount(runs);
    if count.Err? {
      return Err(count.error);
    }
    r := LikwidLoop(cfg, bin, args, env, run, count.value, buckets);
  }

  /** The run loop of `measure_likwid` over `n` runs. */
  method LikwidLoop(cfg: Config.LikwidConfig, bin: string, args: seq<string>, env: map<string, Val>, run: Runner, n: nat,
                    buckets: Buckets)
    returns (r: Result<map<string, real>>)
    requires buckets == EmptyBuckets(LikwidKeys(cfg.metrics))
    ensures r == LikwidCollected(cfg, bin, args, env, run, n)
  {
    ghost var rs := LikwidRuns(cfg, bin, args, env, run, n);
    var acc := buckets;
    var k := 0;
    while k < n
      invariant 0 <= k <= n
      invariant Collect(buckets, rs[..k]) == Ok(acc)
    {
      var next := LikwidStep(cfg, bin, args, env, run, n, buckets, k, acc);
      if next.Err? {
        CollectErrorStays(buckets, rs, k + 1);
        assert rs[..n] == rs;
        return Err(next.error);
      }
      acc := next.value;
      k := k + 1;
    }
    assert rs[..k] == rs;
    r := Ok(Means(acc));
  }

  /** Run `k` of `measure_likwid`'s loop: its data joins the buckets, or its
      failure ends the measurement. */
  method LikwidStep(cfg: Config.LikwidConfig, bin: string, args: seq<string>, env: map<string, Val>, run: Runner, n: nat,
                    buckets: Buckets, k: nat, acc: Buckets)
    returns (next: Result<Buckets>)
    requires k < n && Collect(buckets, LikwidRuns(cfg, bin, args, env, run, n)[..k]) == Ok(acc)
    ensures next == Collect(buckets, LikwidRuns(cfg, bin, args, env, run, n)[..k + 1])
  {
    ghost var rs := LikwidRuns(cfg, bin, args, env, run, n);
    var data := LikwidOnce(cfg, bin, args, env, run, k);
    assert rs[k] == data;
    CollectSnoc(buckets, rs, k);
    if data.Err? {
      return Err(data.error);
    }
    var added := AppendLikwid(acc, data.value);
    next := Ok(added);
  }

  // ---------------------------------------------------------------------------
  // What a measurement reports
  // ---------------------------------------------------------------------------

  /** Run `n` is the first that failed. */
  predicate FirstFailed(runs: seq<Result<map<string, real>>>, n: nat) {
    n < |runs| && runs[n].Err? && forall j | 0 <= j < n :: runs[j].Ok?
  }

  /** Some run reported `key`. */
  predicate SeenIn(runs: seq<Result<map<string, real>>>, key: string) {
    exists k | 0 <= k < |runs| :: runs[k].Ok? && key in runs[k].value
  }

  /** The samples of `key` over the runs, in run order: one per run that
      reported it. */
  function Reported(runs: seq<Result<map<string, real>>>, key: string): seq<real> {
    if runs == [] then []
    else
      var last := runs[|runs| - 1];
      Reported(runs[..|runs| - 1], key) + (if last.Ok? && key in last.value then [last.value[key]] else [])
  }

  /** A measurement fails exactly when one of its runs fails, and then with
      the error of the first failing run. */
  lemma {:induction false} CollectFails(buckets: Buckets, runs: seq<Result<map<string, real>>>)
    ensures Collect(buckets, runs).Err? <==> exists k | 0 <= k < |runs| :: runs[k].Err?
    ensures Collect(buckets, runs).Err? ==>
      exists n: nat :: FirstFailed(runs, n) && Collect(buckets, runs).error == runs[n].error
  {
    if runs != [] {
      var front := runs[..|runs| - 1];
      CollectFails(buckets, front);
      assert forall k | 0 <= k < |front| :: runs[k] == front[k];
      if Collect(buckets, front).Err? {
        var n: nat :| FirstFailed(front, n) && Collect(buckets, front).error == front[n].error;
        assert FirstFailed(runs, n);
      } else if runs[|runs| - 1].Err? {
        assert FirstFailed(runs, |runs| - 1);
      }
    }
  }

  /** Each bucket ends with its initial samples followed by the samples the
      runs reported for it; no bucket is added or lost. */
  lemma {:induction false} CollectBuckets(buckets: Buckets, runs: seq<Result<map<string, real>>>)
    ensures Collect(buckets, runs).Ok? ==> Collect(buckets, runs).value.Keys == buckets.Keys
    ensures Collect(buckets, runs).Ok? ==>
      forall key | key in buckets :: Collect(buckets, runs).value[key] == buckets[key] + Reported(runs, key)
  {
    if runs != [] {
      var front := runs[..|runs| - 1];
      CollectBuckets(buckets, front);
      if Collect(buckets, runs).Ok? {
        forall key | key in buckets
          ensures Collect(buckets, runs).value[key] == buckets[key] + Reported(runs, key)
        {
          assert buckets[key] + Reported(front, key) + Reported(runs, key)[|Reported(front, key)|..]
            == buckets[key] + Reported(runs, key);
        }
      }
    }
  }

  /** A metric has samples exactly when some run reported it. */
  lemma {:induction false} ReportedSeen(runs: seq<Result<map<string, real>>>, key: string)
    ensures Reported(runs, key) != [] <==> SeenIn(runs, key)
  {
    if runs != [] {
      var front := runs[..|runs| - 1];
      ReportedSeen(front, key);
      assert forall k | 0 <= k < |front| :: runs[k] == front[k];
    }
  }

  /** Starting from empty buckets that cover everything any run reports, the
      averaged result holds a metric exactly when some run reported it, and
      then the mean of its samples, which lies between their minimum and
      maximum. */
  lemma MeansOfRuns(buckets: Buckets, runs: seq<Result<map<string, real>>>, key: string)
    requires forall k | k in buckets :: buckets[k] == []
    requires SeenIn(runs, key) ==> key in buckets
    requires Collect(buckets, runs).Ok?
    ensures Reported(runs, key) != [] <==> SeenIn(runs, key)
    ensures var m := Means(Collect(buckets, runs).value);
      (key in m <==> SeenIn(runs, key))
      && (SeenIn(runs, key) ==> m[key] == Mean(Reported(runs, key)))
  {
    var r := Collect(buckets, runs).value;
    CollectBuckets(buckets, runs);
    ReportedSeen(runs, key);
    if key in buckets {
      assert r[key] == Reported(runs, key);
    }
  }

  lemma MeanOfOne(x: real)
    ensures Mean([x]) == x
  {
    assert [x][..0] == [];
    assert Sum([x]) == x;
    assert |[x]| as real == 1.0;
  }

  /** One run into empty buckets that cover its keys averages to that run's
      data. */
  lemma OneRun(buckets: Buckets, data: map<string, real>)
    requires forall k | k in buckets :: buckets[k] == []
    requires data.Keys <= buckets.Keys
    ensures Means(Append(buckets, data)) == data
  {
    var m := Means(Append(buckets, data));
    forall k ensures (k in m <==> k in data) && (k in data ==> m[k] == data[k]) {
      OneRunAt(buckets, data, k);
    }
  }

  lemma OneRunAt(buckets: Buckets, data: map<string, real>, k: string)
    requires forall k | k in buckets :: buckets[k] == []
    requires data.Keys <= buckets.Keys
    ensures var m := Means(Append(buckets, data));
      (k in m <==> k in data) && (k in data ==> m[k] == data[k])
  {
    AppendToEmpty(buckets, data, k);
    if k in data {
      MeanOfOne(data[k]);
    }
  }

  lemma AppendToEmpty(buckets: Buckets, data: map<string, real>, k: string)
    requires forall k | k in buckets :: buckets[k] == []
    requires data.Keys <= buckets.Keys
    ensures k in Append(buckets, data) <==> k in buckets
    ensures k in data ==> Append(buckets, data)[k] == [data[k]]
    ensures k in buckets && k !in data ==> Append(buckets, data)[k] == []
  {
  }

  /** Every metric a perf run reports has a bucket. */
  lemma PerfRunKeys(cfg: Config.PerfConfig, bin: string, args: seq<string>, env: map<string, Val>, run: Runner, k: nat)
    ensures PerfRun(cfg, bin, args, env, run, k).Ok? ==> PerfRun(cfg, bin, args, env, run, k).value.Keys <= PerfKeys(cfg)
  {
    var proc := run(PerfCommand(cfg, bin, args), env, k);
    if proc.Ok? {
      Metrics.PerfKeys(proc.value.stderr, cfg.events);
    }
  }

  /** Every metric a likwid run reports has a bucket. */
  lemma LikwidRunKeys(cfg: Config.LikwidConfig, bin: string, args: seq<string>, env: map<string, Val>, run: Runner, k: nat)
    ensures LikwidRun(cfg, bin, args, env, run, k).Ok? ==> LikwidRun(cfg, bin, args, env, run, k).value.Keys <= LikwidKeys(cfg.metrics)
  {
    var proc := run(LikwidCommand(cfg, bin, args), env, k);
    if proc.Ok? {
      Metrics.LikwidKeys(proc.value.stdout, cfg.metrics);
    }
  }

  /** `measure_perf` fails exactly when one of its runs fails (the runner
      raises, or `perf_parse` finds nothing), with the first failure's
      error. */
  lemma PerfMeasuredFails(cfg: Config.PerfConfig, bin: string, args: seq<string>, env: map<string, Val>, run: Runner, runs: int)
    ensures var rs := PerfRuns(cfg, bin, args, env, run, if runs < 0 then 0 else runs);
      var r := PerfMeasured(cfg, bin, args, env, run, runs);
      (r.Err? <==> exists k | 0 <= k < |rs| :: rs[k].Err?)
      && (r.Err? ==> exists n: nat :: FirstFailed(rs, n) && r.error == rs[n].error)
  {
    CollectFails(EmptyBuckets(PerfKeys(cfg)), PerfRuns(cfg, bin, args, env, run, if runs < 0 then 0 else runs));
  }

  /** What `measure_perf` reports: a metric exactly when some run reported
      it, as the mean of its samples over those runs. */
  lemma PerfMeasuredValues(cfg: Config.PerfConfig, bin: string, args: seq<string>, env: map<string, Val>, run: Runner, runs: int,
                           key: string)
    ensures var rs := PerfRuns(cfg, bin, args, env, run, if runs < 0 then 0 else runs);
      var r := PerfMeasured(cfg, bin, args, env, run, runs);
      r.Ok? ==>
        (Reported(rs, key) != [] <==> SeenIn(rs, key))
        && (key in r.value <==> SeenIn(rs, key))
        && (SeenIn(rs, key) ==>
              r.value[key] == Mean(Reported(rs, key))
              && Min(Reported(rs, key)) <= r.value[key] <= Max(Reported(rs, key)))
  {
    var rs := PerfRuns(cfg, bin, args, env, run, if runs < 0 then 0 else runs);
    if SeenIn(rs, key) {
      var k :| 0 <= k < |rs| && rs[k].Ok? && key in rs[k].value;
      PerfRunKeys(cfg, bin, args, env, run, k);
    }
    if PerfMeasured(cfg, bin, args, env, run, runs).Ok? {
      MeansOfRuns(EmptyBuckets(PerfKeys(cfg)), rs, key);
      if SeenIn(rs, key) {
        MeanBounds(Reported(rs, key));
      }
    }
  }

  /** The single run `trial_objective` asks `measure_perf` for reports what
      `perf_parse` found in it. */
  lemma PerfSingleRun(cfg: Config.PerfConfig, bin: string, args: seq<string>, env: map<string, Val>, run: Runner)
    ensures PerfMeasured(cfg, bin, args, env, run, 1) == PerfRun(cfg, bin, args, env, run, 0)
  {
    var rs := PerfRuns(cfg, bin, args, env, run, 1);
    var b := EmptyBuckets(PerfKeys(cfg));
    assert rs[..0] == [] && rs[..1] == rs;
    PerfRunKeys(cfg, bin, args, env, run, 0);
    if rs[0].Ok? {
      CollectStep(b, rs, 0, b, rs[0].value);
      OneRun(b, rs[0].value);
    } else {
      CollectFailStep(b, rs, 0, b);
    }
  }

  /** `measure_likwid` fails when `runs` is not a count, and otherwise
      exactly when one of its runs fails (the runner raises, `likwid_parse`
      raises, or it finds nothing), with the first failure's error. */
  lemma LikwidMeasuredFails(cfg: Config.LikwidConfig, bin: string, args: seq<string>, env: map<string, Val>, run: Runner, runs: Json)
    ensures RunCount(runs).Err? ==> LikwidMeasured(cfg, bin, args, env, run, runs) == Err(RunCount(runs).error)
    ensures RunCount(runs).Ok? ==>
      var rs := LikwidRuns(cfg, bin, args, env, run, RunCount(runs).value);
      var r := LikwidMeasured(cfg, bin, args, env, run, runs);
      (r.Err? <==> exists k | 0 <= k < |rs| :: rs[k].Err?)
      && (r.Err? ==> exists n: nat :: FirstFailed(rs, n) && r.error == rs[n].error)
  {
    if RunCount(runs).Ok? {
      CollectFails(EmptyBuckets(LikwidKeys(cfg.metrics)), LikwidRuns(cfg, bin, args, env, run, RunCount(runs).value));
    }
  }

  /** What `measure_likwid` reports over `n` runs: a metric exactly when some
      run reported it, as the mean of its samples over those runs. */
  lemma LikwidMeasuredValues(cfg: Config.LikwidConfig, bin: string, args: seq<string>, env: map<string, Val>, run: Runner, n: nat,
                             key: string)
    ensures var rs := LikwidRuns(cfg, bin, args, env, run, n);
      var r := LikwidMeasured(cfg, bin, args, env, run, JInt(n));
      r.Ok? ==>
        (Reported(rs, key) != [] <==> SeenIn(rs, key))
        && (key in r.value <==> SeenIn(rs, key))
        && (SeenIn(rs, key) ==>
              r.value[key] == Mean(Reported(rs, key))
              && Min(Reported(rs, key)) <= r.value[key] <= Max(Reported(rs, key)))
  {
    var rs := LikwidRuns(cfg, bin, args, env, run, n);
    if SeenIn(rs, key) {
      var k :| 0 <= k < |rs| && rs[k].Ok? && key in rs[k].value;
      LikwidRunKeys(cfg, bin, args, env, run, k);
    }
    if LikwidMeasured(cfg, bin, args, env, run, JInt(n)).Ok? {
      MeansOfRuns(EmptyBuckets(LikwidKeys(cfg.metrics)), rs, key);
      if SeenIn(rs, key) {
        MeanBounds(Reported(rs, key));
      }
    }
  }

  /** With no runs there is nothing to average: the result is empty. */
  lemma LikwidNoRuns(cfg: Config.LikwidConfig, bin: string, args: seq<string>, env: map<string, Val>, run: Runner, runs: int)
    requires runs <= 0
    ensures LikwidMeasured(cfg, bin, args, env, run, JInt(runs)) == Ok(map[])
  {
    assert LikwidRuns(cfg, bin, args, env, run, 0) == [];
  }
}
