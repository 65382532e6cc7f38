# A verified model of the DSE tool's sampling, parsing, trial and configuration logic

The tool explores compiler flags and runtime environments for a benchmark.
Each Optuna trial samples a flag set and an environment, builds the program,
runs it under `perf stat` or `likwid-perfctr`, and turns the parsed counters
into objective values. This project models the logic around those steps in
Dafny:

- **Sampling** (`src/misc.py`), in module `Misc`:
  - `suggest_compiler_flags`: the variant, the parametric flags with their
    `when` predicates, and the flag pool, giving the flag string and its
    `|` label;
  - `suggest_env`: one pass over the env schema;
  - `_expand_env`: the Cartesian product of env value lists;
  - `_normalize_args`: flattening of program arguments.

  The Optuna trial is the class `Trials.Trial`. Its `params` field is updated
  in place, and its sampler is an oracle that always answers a member of the
  domain it is asked about.
- **Measurement** (`src/metrics.py`):
  - in module `Metrics`: `perf_parse`, the tolerant number reader
    `_parse_num`, and `likwid_parse` with its STAT rows, per-thread rows and
    reductions;
  - in module `Measure`: the drivers `measure_perf` and `measure_likwid`,
    with their command lines, per-run buckets and averaging.
- **The trial objective and the CSV log** (`src/explore.py`), in module
  `Explore`:
  - the outcome machine of `trial_objective`: sample, build, measure, then
    extract objectives. A failed build (`build failed`), a failed
    measurement (`measurement failed: <message>`) or a missing objective
    metric prunes the trial; any other error, such as a sampling error or a
    builder error, fails it. The trial's user attributes are set only on
    success;
  - the mapping from objectives to study directions;
  - the choice of sampler;
  - the header and rows of the CSV log.
- **Configuration** (`src/config.py`), in module `Config`: the `from_dict`
  and `from_any` constructors and the checks of `Config.load` on the decoded
  JSON tree.

Supporting modules:

- `Values`: Python values and the JSON tree. An object keeps its members
  as written, and `Values.Entries` gives the dict `json.load` builds from
  them: a repeated key keeps its first position and its last value.
- `PyStr`: Python string operations, namely `strip`, `split`, `join`,
  `lower`, `int()` of a string, decimal rendering and string order with
  `sorted`.
- `Stats`: `mean`, `median`, `max`, `min` and sample `variance` over exact
  reals.
- `Wrappers`: `Option` and `Result`.

Errors that the source raises are `Err`/`Invalid` values carrying the
source's message.

Where the code loops and mutates, the model has a method with loop
invariants. Each such method is proved equal to a specification function,
and the properties are proved about that function. Examples:

| method | specification function |
|---|---|
| `Misc.SuggestCompilerFlags` | `Misc.SampleFlags` |
| `Metrics.PerfParse` | `Metrics.PerfParsed` |
| `Metrics.LikwidParse` | `Metrics.LikwidParsed` |
| `Measure.MeasurePerf` | `Measure.PerfMeasured` |
| `Explore.TrialObjective` | `Explore.TrialOutcome` |
| `Explore.CsvRows` | `Explore.Rows` |

A STAT row takes the fourth non-blank value cell (index 3) as the average,
so `| Runtime STAT | 1 | 2 | 3.5 | 4 |` records 4, as
`Metrics.StatRowExample` proves.

A configuration without `runs` stores `None` (src/config.py:248). With
the likwid backend, `range(None)` then raises `TypeError` inside the
measurement (src/metrics.py:188), so every trial that reaches measurement
is pruned with
`measurement failed: 'NoneType' object cannot be interpreted as an
integer`. `Measure.RunCount` and `Measure.LikwidMeasuredFails` state this
outcome.

## Model

| member | source | states |
|---|---|---|
| Trials.Suggest | src/misc.py:64 | `suggest_categorical` fails exactly when the choice list is empty; otherwise the answer is one of the choices |
| Trials.Trial.SuggestCategorical | src/misc.py:68 | the answer is one of the choices, it is recorded in `trial.params` under the name, and no other parameter changes |
| Misc.Choose | src/misc.py:61-70 | a non-container spec raises `'<type>' object has no attribute 'get'`; a conditional entry whose `when` fails is skipped without asking the sampler; an applicable entry fails exactly when its domain is empty (an object without `values` raises `KeyError`) and otherwise yields a member of the domain |
| Misc.ValueTokens | src/misc.py:71-82 | a boolean value contributes the bare option exactly when true and nothing when false; any other value, including 0 and 1, contributes exactly one rendered token |
| Misc.RenderRecoverable | src/misc.py:76-82 | the token is `opt` followed by the value when `opt` ends in `=` or a space, and `opt`, `=`, value otherwise |
| Misc.BooleanPresence | src/misc.py:72-82 | `-funroll-loops` true/false gives the bare flag/nothing; `-O` 1 gives `-O=1`; `-march=` and `-I ` are followed directly by the value |
| Misc.VariantDraw | src/misc.py:55-58 | with variants, `flag_variant` is asked once, its answer is a variant, is recorded and becomes the first token; without variants nothing happens |
| Misc.ParamStep | src/misc.py:61-82 | a skipped entry changes nothing; an applied entry records one value in the domain under its option name and appends exactly that value's tokens |
| Misc.ParamDraws | src/misc.py:61-82 | the parametric pass only appends tokens, at most one per schema entry |
| Misc.ParamDrawsFrame | src/misc.py:61-82 | the pass records only schema options and leaves every other parameter as it was |
| Misc.ParamDrawsErr | src/misc.py:61-70 | the first failing entry ends the whole pass with its error |
| Misc.PoolStep | src/misc.py:84-87 | each pool flag is asked with domain [0, 1], recorded, and appended exactly when the answer is 1 |
| Misc.PoolDraws | src/misc.py:84-87 | the pool pass records every pool flag, keeps other parameters, and appends at most one token per flag |
| Misc.ParamFlag | src/misc.py:61-82 | one parametric entry on the trial: the tokens and new `trial.params` are those of `ParamStep` |
| Misc.ParamFlags | src/misc.py:61-82 | the parametric loop's tokens and new `trial.params` are those of `ParamDraws`, and its error is the same |
| Misc.PoolFlags | src/misc.py:84-87 | the pool loop's tokens and new `trial.params` are those of `PoolDraws` |
| Misc.SuggestCompilerFlags | src/misc.py:47-91 | returns the label and the space-joined flag string of the tokens `SampleFlags` draws, and leaves `trial.params` at that draw's assignment |
| Misc.ParamTokensRendered | src/misc.py:61-82 | with fresh, distinct option names, the parametric tokens are the final assignment rendered in schema order |
| Misc.PoolTokensSelected | src/misc.py:84-87 | with fresh, distinct flags, the pool tokens are the pool flags whose recorded answer is 1, in pool order |
| Misc.FlagsFromAssignment | src/misc.py:55-87 | the token list is determined by the final assignment: variant first, then parametric tokens in schema order, then pool flags in pool order |
| Misc.SameAssignmentSameFlags | src/misc.py:47-91 | two samplers that end in the same assignment produce the same tokens, and hence the same label and flag string |
| Misc.LabelSplits | src/misc.py:89-90 | the label of non-empty tokens free of the bar character splits back into those tokens |
| Misc.EmptyFlagsLabel | src/misc.py:89-90 | no tokens give label `default` and an empty flag string |
| Misc.EnvStep | src/misc.py:102-112 | a skipped variable changes nothing; an assigned variable gets a domain member in both the env and the trial's params |
| Misc.SuggestEnv | src/misc.py:95-114 | the env loop returns the env of `SampleEnv` and leaves `trial.params` at its assignment, or fails with its error |
| Misc.EnvDrawsErr | src/misc.py:102-112 | the first failing variable ends the pass with its error |
| Misc.EnvDrawsKeys | src/misc.py:102-112 | the result's keys are schema keys |
| Misc.EnvAssignedIff | src/misc.py:102-112 | a variable is in the env exactly when its predicate holds on the variables assigned before it in this pass, and then holds a domain member |
| Misc.EnvListsAssigned | src/misc.py:103-106 | every list-valued variable is assigned |
| Misc.EnvForwardReferenceInert | src/misc.py:108-111 | a predicate naming a variable not yet reached holds only if it asks for `null`, whatever the trial's compiler params hold; otherwise the variable stays unassigned |
| Misc.WithKey | src/misc.py:143 | every map of the rest gets the key set to the value |
| Misc.Combine | src/misc.py:142-143 | one more key multiplies the number of combinations by its list length |
| Misc.CombineIndex | src/misc.py:142-143 | the combination at position a times the number of rest maps plus b is the b-th rest map with the key set to the a-th value |
| Misc.CombineSound | src/misc.py:142-143 | every combination is some rest map with the key set to one of its values |
| Misc.ExpandEnv | src/misc.py:131-143 | the number of combinations is the product of the list lengths, with a scalar counting as one; an empty env gives exactly one empty map |
| Misc.ExpandEnvKeys | src/misc.py:139-143 | every combination has exactly the env's keys |
| Misc.ExpandEnvSound | src/misc.py:139-143 | every combination maps each key to the string of one of its values |
| Misc.ExpandEnvComplete | src/misc.py:139-143 | every map choosing one value's string per key occurs among the combinations |
| Misc.NormalizedArgs | src/misc.py:118-128 | `None` gives `[]`, a string gives its split, a list gives the flattening, and any other type raises the `TypeError` |
| Misc.NormalizeArgs | src/misc.py:118-128 | the merging loop returns `NormalizedArgs` |
| Misc.FlattenArgsAppend | src/misc.py:123-127 | flattening distributes over concatenation, keeping element order |
| Misc.FlattenNonStrings | src/misc.py:126 | non-string elements contribute their `str()` each, one per element |
| Metrics.SplitLines | src/metrics.py:71 | no line contains a newline; only empty text has no lines |
| Metrics.MatchPerfLine | src/metrics.py:66 | a match yields a count made of digits and commas |
| Metrics.PerfLineMatches | src/metrics.py:66 | a match consists of leading blanks, a digit/comma run, blanks, and an event run with no blank or `#`, and yields those two runs |
| Metrics.PerfLineComplete | src/metrics.py:66 | every line of that form matches with those two runs |
| Metrics.BaseEvent | src/metrics.py:80 | the base event has no `/` |
| Metrics.CountValue | src/metrics.py:76-79 | a parsed count is non-negative |
| Metrics.LineCount | src/metrics.py:71-82 | a line contributes only to a requested event, with a non-negative count |
| Metrics.Counts | src/metrics.py:71-82 | each line is read independently, in order |
| Metrics.AddGroup | src/metrics.py:76-83 | one matched line adds its comma-free count to the accumulator, as `TallyStep` says |
| Metrics.AddCount | src/metrics.py:79-83 | an unparsable count or an unrequested event leaves the accumulator unchanged; otherwise the count is added |
| Metrics.AddLine | src/metrics.py:72-83 | one line updates the accumulator as `TallyStep` says |
| Metrics.TallyLines | src/metrics.py:71-83 | the line loop computes `Tally(Counts(...))` |
| Metrics.PerfParse | src/metrics.py:69-86 | the parser returns `PerfParsed` |
| Metrics.TallyTotals | src/metrics.py:83 | an event is in the tally exactly when some line counted it, and then holds the sum over those lines |
| Metrics.PerfTotals | src/metrics.py:72-83 | every tallied event is requested, and holds the sum of its counts over all lines |
| Metrics.PerfKeys | src/metrics.py:69-86 | every key is a requested event or `CPI` |
| Metrics.PerfCpi | src/metrics.py:84-85 | `CPI` is present exactly when cycles and instructions were both seen and the instruction total is non-zero, and it is their ratio |
| Metrics.PerfCyclesInstructions | src/metrics.py:69-86 | a cycles line followed by an instructions line gives both counts and their ratio as CPI |
| Metrics.PerfExample | src/metrics.py:66-86 | `1,000,000 cycles` and `500,000 instructions` give cycles 1000000, instructions 500000 and CPI 2 |
| Metrics.KeepFrom | src/metrics.py:107 | removing separators never lengthens the text |
| Metrics.DecComma | src/metrics.py:108 | text without a comma is unchanged |
| Metrics.ParseNumPadded | src/metrics.py:113 | white space around a cell does not change the number read from it |
| Metrics.ParseNumDigits | src/metrics.py:111-121 | a digit string reads as its decimal value |
| Metrics.ParseNumDecimalComma | src/metrics.py:108-117 | `a,b` with digit runs reads as `a.b` |
| Metrics.ParseNumDecimalPoint | src/metrics.py:107-119 | `a.b` with `b` not exactly three digits reads as `a.b` |
| Metrics.ParseNumThousands | src/metrics.py:107-114 | a separator followed by exactly three digits is removed |
| Metrics.ParseNumTwoGroups | src/metrics.py:107-114 | two separated three-digit groups are both removed |
| Metrics.ParseNumRefuses | src/metrics.py:118-121 | a character that no float can contain makes the result `None` |
| Metrics.GroupedExample | src/metrics.py:107-121 | `1.234.567`, `1'234'567` and the narrow-space form read as 1234567 |
| Metrics.ThousandsExample | src/metrics.py:107-121 | `1.234` reads as 1234 |
| Metrics.DecimalExample | src/metrics.py:108-121 | `3,5` and `3.5` both read as 3.5 |
| Metrics.RefusedExample | src/metrics.py:118-121 | `abc` reads as `None` |
| Metrics.MatchRow | src/metrics.py:106 | a table row yields a label free of the bar character and a non-empty cell text |
| Metrics.Aggregate | src/metrics.py:164-170 | an unknown mode raises `Unknown agg mode`; avg/max/min/median lie between the samples' minimum and maximum |
| Metrics.RowSamples | src/metrics.py:151-154 | the cell loop collects the parsed non-blank cells, as `CellSamples` says |
| Metrics.CellOnce | src/metrics.py:152-154 | one cell contributes its value when it parses and nothing otherwise |
| Metrics.ScanLine | src/metrics.py:132-154 | one line updates the per-thread and STAT buckets as `ScanStep` says |
| Metrics.ScanLines | src/metrics.py:128-154 | the scanning loop computes `Scanned` over the lines |
| Metrics.ScannedKeys | src/metrics.py:128-154 | the per-thread buckets are exactly the wanted names; STAT averages only for wanted names |
| Metrics.StatRowRecords | src/metrics.py:139-147 | a STAT row of a wanted base with a readable fourth cell records it as that base's average |
| Metrics.StatRowSkips | src/metrics.py:139-147 | any other STAT row changes nothing; in particular it never adds per-thread samples |
| Metrics.SampleRow | src/metrics.py:150-154 | a wanted ordinary row appends its parsed cells to its bucket |
| Metrics.IgnoredRow | src/metrics.py:133-135 | a non-table line or an unwanted row changes nothing |
| Metrics.StatAverageIsFourth | src/metrics.py:142-144 | with four value cells the average read is the fourth |
| Metrics.StatRowExample | src/metrics.py:139-147 | the row `Runtime STAT` with cells 1, 2, 3.5 and 4 records 4 as the Runtime average |
| Metrics.ReduceSpec | src/metrics.py:158-177 | one spec's reduction updates the result as `ReduceStep` says |
| Metrics.LikwidParse | src/metrics.py:124-179 | the parser returns `LikwidParsed` |
| Metrics.ReduceStepFails | src/metrics.py:164-170 | one reduction fails exactly for an unknown mode with samples and no usable STAT average, with that message |
| Metrics.ReduceStepEntry | src/metrics.py:159-177 | avg with a STAT average uses it; otherwise samples are aggregated; no samples omit the metric; `_var` is the sample variance when asked and there are more than one |
| Metrics.ReducedFails | src/metrics.py:158-177 | the reduction fails exactly when some spec cannot be reduced |
| Metrics.ReducedFirstError | src/metrics.py:158-177 | the error is that of the first such spec |
| Metrics.ReducedKeys | src/metrics.py:157-179 | every key is a spec name or a spec name with `_var` whose spec asks for the variance |
| Metrics.ReducedReports | src/metrics.py:157-179 | with non-clashing names, every spec's entry is as `ReduceStepEntry` describes |
| Metrics.LikwidFails | src/metrics.py:124-179 | `likwid_parse` raises exactly when some spec cannot be reduced, with the first one's message |
| Metrics.LikwidKeys | src/metrics.py:124-179 | result keys are among the spec names and their `_var` names |
| Metrics.LikwidReports | src/metrics.py:124-179 | every spec's reported value is the one its reduction rule gives on the scanned table |
| Measure.PerfCommandShape | src/metrics.py:92-94 | the optional `taskset -c` prefix, `perf stat -e`, an event argument that splits back into the events, `--`, the binary, and the arguments |
| Measure.LikwidCommandShape | src/metrics.py:189-197 | `likwid-perfctr`, optional `-C` list, `-g` with the group or the joined events, the binary, and the arguments |
| Measure.EmptyBuckets | src/metrics.py:90 | one empty bucket per pre-declared key |
| Measure.PerfKeys | src/metrics.py:90 | perf buckets are the requested events and `CPI` |
| Measure.LikwidKeys | src/metrics.py:184-187 | likwid buckets are the spec names and the `_var` names of specs asking for the variance |
| Measure.RunCount | src/metrics.py:188 | `range(runs)` accepts an int or a bool and raises `TypeError` for any other value |
| Measure.PerfRuns | src/metrics.py:91-98 | the runs are numbered in order, each parsed from its own stderr |
| Measure.LikwidRuns | src/metrics.py:188-202 | the runs are numbered in order, each parsed from its own stdout |
| Measure.AppendPerf | src/metrics.py:99-101 | the bucket loop appends the run's value to each bucket it reported |
| Measure.AppendLikwid | src/metrics.py:203-205 | the data loop appends each reported key that has a bucket |
| Measure.PerfOnce | src/metrics.py:92-98 | one perf run gives `PerfRun`: the runner's failure, the empty-parse `RuntimeError`, or the parsed data |
| Measure.LikwidOnce | src/metrics.py:189-202 | one likwid run gives `LikwidRun` |
| Measure.MeasurePerf | src/metrics.py:89-102 | the driver returns `PerfMeasured` |
| Measure.LikwidLoop | src/metrics.py:188-206 | the run loop returns `LikwidCollected` |
| Measure.MeasureLikwid | src/metrics.py:182-206 | the driver returns `LikwidMeasured` |
| Measure.CollectFails | src/metrics.py:91-101 | a measurement fails exactly when some run fails, with the first failing run's error |
| Measure.CollectBuckets | src/metrics.py:99-101 | each bucket ends with the samples the runs reported for it, in run order; no bucket appears or disappears |
| Measure.ReportedSeen | src/metrics.py:99-101 | a bucket has samples exactly when some run reported its key |
| Measure.MeansOfRuns | src/metrics.py:102 | the averaged result holds a key exactly when some run reported it, as the mean of those samples |
| Measure.OneRun | src/metrics.py:102 | a single run averages to that run's data |
| Measure.PerfMeasuredFails | src/metrics.py:89-102 | `measure_perf` fails exactly when a run fails, with the first failure's message |
| Measure.PerfMeasuredValues | src/metrics.py:89-102 | each reported key is the mean over the runs that reported it, between their minimum and maximum |
| Measure.PerfSingleRun | src/metrics.py:89-102 | with one run the result is that run's parsed data |
| Measure.LikwidMeasuredFails | src/metrics.py:182-206 | a non-integer `runs` raises; otherwise `measure_likwid` fails exactly when a run fails, with the first failure's message |
| Measure.LikwidMeasuredValues | src/metrics.py:182-206 | each reported key is the mean over the runs that reported it, between their minimum and maximum |
| Measure.LikwidNoRuns | src/metrics.py:188-206 | zero or negative runs give an empty result |
| Stats.Max | src/metrics.py:166 | the maximum is a sample and bounds all samples |
| Stats.Min | src/metrics.py:167 | the minimum is a sample and is bounded by all samples |
| Stats.SortReals | src/metrics.py:168 | the sort `median` uses is ascending and a permutation |
| Stats.Variance | src/metrics.py:177 | the sample variance is non-negative |
| Stats.MeanBounds | src/metrics.py:165 | the mean lies between minimum and maximum |
| Stats.MedianBounds | src/metrics.py:168 | the median lies between minimum and maximum |
| Stats.ConstantSamples | src/metrics.py:165-177 | equal samples have that value as mean, max and min, and no deviation |
| PyStr.Strip | src/metrics.py:113 | the result is the input less its leading and trailing whitespace, and starts and ends with a non-space |
| PyStr.StripOf | src/metrics.py:113 | `strip()` of white space, a text with non-space ends, and white space is that text |
| PyStr.StripPadding | src/metrics.py:113 | white space added around any text does not change what `strip()` leaves |
| PyStr.StripStripped | src/config.py:92 | `strip()` is idempotent: a stripped text has nothing more to strip |
| PyStr.ParseInt | src/config.py:141-142 | `int()` of a string: a stripped digit string reads as its value, and any accepted text contains a digit |
| PyStr.ParseIntDecimal | src/config.py:141-142 | `int(str(i)) == i` for every integer |
| PyStr.ParseIntPadded | src/config.py:141-142 | white space around the text does not change what `int()` reads |
| PyStr.StripEmptyIffBlank | src/metrics.py:142 | a cell strips to empty exactly when it is all whitespace |
| PyStr.Split | src/metrics.py:142 | the pieces contain no separator and join back to the input |
| PyStr.SplitJoin | src/metrics.py:92 | joining separator-free parts and splitting again gives the parts |
| PyStr.JoinEmpty | src/misc.py:90 | a join is empty exactly for no parts or one empty part |
| PyStr.Remove | src/metrics.py:77 | the removed character no longer occurs, and nothing new appears |
| PyStr.RemoveAppend | src/metrics.py:77 | removal distributes over concatenation |
| PyStr.Lower | src/config.py:39 | no upper-case letter remains, and other characters are kept |
| PyStr.LowerIdempotent | src/config.py:193 | lowering twice is lowering once |
| PyStr.IntToDecimal | src/misc.py:78 | the rendering of an int reads back as that int |
| PyStr.ZeroPad | src/explore.py:109 | the padded number has at least the width and reads back as the number |
| PyStr.SortStrings | src/explore.py:175 | `sorted` returns an ordered permutation |
| PyStr.SortEnumerates | src/explore.py:175 | sorting the distinct keys lists each key once, in order |
| PyStr.EnumerationUnique | src/explore.py:175 | there is only one ordered duplicate-free listing of a key set |
| Values.Keys | src/config.py:191 | the keys of an object's members, one per member, in document order |
| Values.Lookup | src/config.py:191 | `.get` finds a key exactly when some member has it, and answers one of that key's members |
| Values.LookupLast | src/config.py:191 | a repeated key reads its last member, as in the dict `json.load` builds |
| Values.DictKeys | src/config.py:191 | the dict's keys: each key of the object once, and no other |
| Values.Entries | src/config.py:208 | the dict's items: no key twice, the object's keys exactly, each with the value `.get` reads |
| Values.EntriesOfUnique | src/config.py:208 | an object without repeated keys has its members as its items |
| Config.Members | src/config.py:193 | `.get` on a non-object raises `AttributeError` |
| Config.LowerOf | src/config.py:39 | `.lower()` works exactly on strings |
| Config.OptText | src/config.py:56 | a falsy value is absent; a truthy string is kept |
| Config.Strings | src/config.py:239 | a list field is read exactly when it is a list of strings, and then holds exactly its items' strings |
| Config.Iterate | src/config.py:97-99 | iterating a truthy value: a list's items, a string's characters, an object's distinct keys; numbers raise `TypeError` |
| Config.PyInt | src/config.py:141-142 | `int()` of an int, a bool, a float (truncated toward zero) or a string (its integer literal); `null`, lists and objects raise `TypeError`; never unsupported |
| Config.IntOfText | src/config.py:141-142 | `int()` of a string succeeds exactly on an integer literal, with its value, and otherwise raises `ValueError` naming the text |
| Config.IntOfDecimalText | src/config.py:141-142 | `int()` of a rendered integer, padded with white space, gives that integer |
| Config.PathArg | src/config.py:120 | `Path()` accepts exactly strings and raises `TypeError` naming the type otherwise |
| Config.TruncTowardZero | src/config.py:141-142 | truncation moves toward zero by less than one |
| Config.ObjectiveFromDict | src/config.py:38-42 | a non-object raises `AttributeError`; a non-string goal raises the `.lower()` `AttributeError`; a goal whose lower-case form is not `min` or `max` raises `ValueError`; otherwise the objective holds the given (default `CPI`) metric string and the lowered (default `min`) goal |
| Config.GoalChecked | src/config.py:39-41 | a goal is refused exactly when its lower-case form is neither `min` nor `max`, and is stored lower-cased |
| Config.ObjectiveDefaults | src/config.py:38-42 | an empty block gives metric `CPI` and goal `min` |
| Config.MetricSpecFromAny | src/config.py:67-75 | a string gives (name, `avg`, no variance); a dict needs `name` (`KeyError`), and with a string name gives exactly (name, `agg` lowered or `avg` when absent, truth of `var`), or the `.lower()` `AttributeError` for a non-string `agg`; other types raise `TypeError` |
| Config.MetricSpecs | src/config.py:99 | every entry is converted, in order |
| Config.NonBlank | src/config.py:92 | no blank entry survives, and no entry is longer than the parts |
| Config.NonBlankKeeps | src/config.py:92 | every part that is not blank is kept, stripped |
| Config.NonBlankSource | src/config.py:92 | every kept entry is some part stripped |
| Config.NonBlankStripped | src/config.py:92 | every kept entry is stripped already |
| Config.NonBlankMembers | src/config.py:92 | a text is kept exactly when it is non-empty and some part strips to it |
| Config.NonBlankSingle | src/config.py:92 | one part gives its stripped self, or nothing when it is blank |
| Config.NonBlankAppend | src/config.py:92 | the filter works piece by piece: the kept entries of two runs of parts are those of the first followed by those of the second, so order and repeats are kept |
| Config.SplitEvents | src/config.py:92 | the names are non-empty and comma-free; a comma-free string gives its stripped self, or nothing when blank |
| Config.SplitEventsMembers | src/config.py:92 | a name is kept exactly when it is non-empty and some comma piece strips to it |
| Config.SplitEventsExample | src/config.py:92 | `" a, ,b "` gives `["a", "b"]` |
| Config.LikwidEvents | src/config.py:90-92 | a string `events` is split; a list is read exactly when all its items are strings and is then kept item by item |
| Config.EventNames | src/config.py:98 | inferred metric names are the event names before `:` |
| Config.MetricItems | src/config.py:96-98 | explicit metrics are used when truthy, else the event names, else the group |
| Config.LikwidFromDict | src/config.py:87-106 | a non-object raises `AttributeError`; a falsy group with falsy events (after a string of events is split at commas) raises `ValueError` before either is converted; a built block has the block's group, its events as `LikwidEvents` reads them, its core list, and either the explicit `metrics` converted entry by entry or the inferred ones |
| Config.InferredSpecs | src/config.py:97-99 | the inferred specs are one plain spec per event name, or the group |
| Config.LikwidNeedsGroupOrEvents | src/config.py:88-94 | no group, and events that are falsy or a string whose comma pieces are all blank, raise `ValueError` |
| Config.PerfFromDict | src/config.py:53-57 | a non-object raises `AttributeError`; the block is read exactly when its events and core list are; the events are the given list's strings (default cycles and instructions) and the core list is the given one when truthy |
| Config.PerfEventsGiven | src/config.py:53-57 | a block with a list of event strings and no core list gives exactly those events and no core list |
| Config.SearchFromDict | src/config.py:137-144 | the block must be an object; it loads exactly when both sizes pass `int()`, the first failing `int()` is the error, the sizes are the `int()` values (defaults 10 and 50), and method, sampler and seed are kept as given (defaults optuna, tpe, none) |
| Config.SearchSizesFromText | src/config.py:141-142 | sizes written as decimal strings load as their numbers |
| Config.ProjectFromDict | src/config.py:118-125 | a project that is not an object raises `TypeError` on subscripting; one without `dir` raises `KeyError`; a non-string `dir` raises the `Path` `TypeError`; a built project's dir is the string given |
| Config.SpecOf | src/config.py:208-214 | a list is an unconditional domain; an object is conditional, with `values` exactly when the key is present |
| Config.ExpectedOf | src/misc.py:67 | a `when` value of `null` asks for an unassigned variable, and a scalar choice for an equal value |
| Config.WhenMap | src/misc.py:66-67 | a `when` object becomes a predicate over exactly its keys, each key with its last value |
| Config.WhenItems | src/misc.py:67 | the predicate has the object's keys, each compared with the value `.get` reads |
| Config.SchemaOf | src/config.py:166 | the schema keeps every entry, in order |
| Config.ParamsSchema | src/misc.py:61 | the parameter schema is read from the dict's items, so it names each option once and names exactly the object's keys |
| Config.SchemaNames | src/config.py:166 | a schema read from items without repeats names each entry once, and names exactly the object's keys |
| Config.CheckEnv | src/config.py:208-214 | the env check passes exactly when every entry is a list or an object with `values`, and otherwise names the first offending variable in dict order |
| Config.EnvBlock | src/config.py:204-214 | the env must be a non-empty object whose dict items pass the check; the schema is those items |
| Config.EnvCheckUsesLastValue | src/config.py:204-214 | a repeated variable is checked by its last value only |
| Config.Objectives | src/config.py:229 | every objective is converted, in order |
| Config.ObjectiveItems | src/config.py:220-227 | without `objectives`, the backend block's `objective` is the single item |
| Config.RequireObjective | src/config.py:230-231 | an empty objective list raises `ValueError` |
| Config.ObjectivesOf | src/config.py:220-231 | the objectives are non-empty, all goals are min or max, and the fallback is exactly one objective |
| Config.BackendOf | src/config.py:193-195 | the backend defaults to `likwid`, is lower-cased, and must be perf or likwid |
| Config.Validate | src/config.py:189-231 | a validated config satisfies every check of `load` up to the constructor call |
| Config.BackendBlocks | src/config.py:244-245 | only the selected backend's block is built |
| Config.Construct | src/config.py:233-252 | the constructed config keeps the validated backend, objectives, arguments and env, and has exactly one of source and project |
| Config.BuildInputs | src/config.py:235-236 | a source path is present exactly when `source` is truthy and a project exactly when `project` is, each converted by `Path` or `BuildProject.from_dict` |
| Config.CompilerInputs | src/config.py:237-241 | the compiler, flag variants, parameter schema and flag pool are the converted fields with their defaults |
| Config.LoadAsWrittenNeverLoads | src/config.py:181-250 | `load` as written never returns a config: any input that passes every check ends in the constructor's `TypeError` |
| Config.LoadBackend | src/config.py:193-195 | a loaded config's backend is perf or likwid and only its block is present |
| Config.BackendChecked | src/config.py:193-195 | a missing backend loads as likwid; any other string than perf/likwid is refused |
| Config.LoadSourceXorProject | src/config.py:198-201 | a loaded config has exactly one of source and project, and both or neither are refused |
| Config.LoadEnvShape | src/config.py:204-214 | a loaded env is non-empty, names each variable once, and every entry is a list or a conditional with values |
| Config.LoadObjectives | src/config.py:220-231 | a loaded config has at least one objective, all min or max, taken from the backend block when `objectives` is absent |
| Config.MinimalConfigLoads | src/config.py:189-252 | a minimal config loads under the corrected constructor and fails as written |
| Explore.Directions | src/explore.py:91 | one direction per objective, in order: `minimize` exactly for goal `min` |
| Explore.ChooseSampler | src/explore.py:86-89 | `nsga3` selects NSGA-III with the population size and seed; anything else selects TPE with the startup trials |
| Explore.LoadedDirections | src/explore.py:91 | a loaded config gives a non-empty direction list, `maximize` exactly for goal `max` |
| Explore.WorkDirName | src/explore.py:109 | the work directory is `trial_` and at least five digits |
| Explore.WorkDirsDiffer | src/explore.py:109 | different trial numbers give different work directories |
| Explore.Request | src/explore.py:111-114 | a source builds one file into `a.out`; otherwise the project is built |
| Explore.ObjectiveValuesMeaning | src/explore.py:132-136 | values are taken in objective order, one per objective; the first missing metric gives `metric '<m>' missing` |
| Explore.CollectObjectives | src/explore.py:132-136 | the extraction loop returns `ObjectiveValues` |
| Explore.MeasureBackend | src/explore.py:121-125 | perf is measured once; likwid with the configured runs |
| Explore.SampleTrial | src/explore.py:98-104 | flags, then env, are sampled on the trial |
| Explore.MeasureAndExtract | src/explore.py:121-145 | measurement and extraction give `AfterBuild` |
| Explore.BuildAndMeasure | src/explore.py:109-145 | build, measurement and extraction give `AfterSampling` |
| Explore.TrialObjective | src/explore.py:94-145 | the objective returns `TrialOutcome`; the four user attributes are set on completion and untouched otherwise |
| Explore.BuildFailurePrunes | src/explore.py:115-116 | a failed build prunes with `build failed`, whatever the measurement would do |
| Explore.MeasurementFailurePrunes | src/explore.py:126-127 | a failed measurement prunes with `measurement failed: <msg>` |
| Explore.CompletedValues | src/explore.py:132-145 | a completed trial has one value per objective, each its metric's value, and the attributes hold the label, env, metrics and binary |
| Explore.MissingMetricPrunes | src/explore.py:133-135 | a missing objective metric prunes with the first missing one |
| Explore.PerfBackendOneRun | src/explore.py:122-123 | the perf backend measures exactly one run |
| Explore.MeasurePruneReasons | src/explore.py:121-136 | after a build, a trial is pruned only for a failed measurement or a missing metric |
| Explore.PruneReasons | src/explore.py:94-145 | a trial is pruned only for a failed build, a failed measurement or a missing metric |
| Explore.Record | src/explore.py:94-145 | a recorded trial is complete, and has values and metrics, exactly when its objective completed |
| Explore.MetricKeysMeaning | src/explore.py:172-174 | a key is collected exactly when some trial's metrics contain it |
| Explore.ObjectiveMetrics | src/explore.py:171 | the header starts with the objectives' metrics, in order |
| Explore.ExtraMetrics | src/explore.py:172-174 | the loop collects exactly the union of the trials' metric keys |
| Explore.SortedNames | src/explore.py:175 | the extra columns list each collected key once, sorted |
| Explore.CsvHeader | src/explore.py:171-175 | the header is the objective metrics, `compiler_flags`, `env`, `binary`, then the sorted extra keys |
| Explore.MetricCells | src/explore.py:185 | one cell per extra column: the metric when present, `""` otherwise |
| Explore.Nums | src/explore.py:184 | the objective values open the row, in order |
| Explore.WrittenTrials | src/explore.py:181-182 | only complete trials with values are written |
| Explore.CsvRows | src/explore.py:178-186 | the row loop produces `Rows` |
| Explore.RowsOfWritten | src/explore.py:178-186 | one row per written trial, in trial order, and no other rows |
| Explore.RowAligned | src/explore.py:171-185 | each row has the header's length and every cell lines up with its column |
| Explore.HeaderCovers | src/explore.py:172-175 | every metric key of every trial has exactly one column among the extra columns that follow the objective and fixed columns (a metric named like an objective metric heads an objective column as well) |
| Explore.RecordedRow | src/explore.py:94-186 | a trial is written exactly when its objective completed, with a row as wide as the header and its recorded metrics |

## Findings

| source | as written | input that shows it | evidently intended | confidence | as-written member | corrected member |
|---|---|---|---|---|---|---|
| src/config.py:250 | `Config.load` passes `fail_log=` to a dataclass whose field is `fai_log_log` (src/config.py:181), so the constructor always raises `TypeError` | `{"source": "a.cpp", "env": {"OMP": ["1"]}, "likwid": {"group": "FLOPS"}}`, or any other input that passes every check | the failed-builds path is stored in the config's field and `load` returns the config | not executed | Config.LoadAsWritten, Config.LoadAsWrittenNeverLoads | Config.Load, Config.MinimalConfigLoads |

The rest of the model, including `Explore`, uses `Config.Load`.

## Left out

- Optuna itself is left out: `create_study`, `optimize`, the TPE and NSGA-III algorithms, storage, and the Pareto front read from `study.best_trials`, which this code does not compute. The sampler is an oracle that answers a member of the requested non-empty domain. `Explore.ChooseSampler` only records which sampler is chosen.
- Trials.Suggest: every call is a fresh draw recorded under its name. Optuna instead answers the value already recorded when a name is suggested twice in one trial, and raises `ValueError` when the second call lists different choices. The tool reaches this when a `compiler_params` key is `flag_variant`, or when a flag is both a `compiler_params` key and in `compiler_flag_pool`; there the model may overwrite the recorded value.
- `src/build.py` is not part of this model. `compile_single_source`/`compile_project` are the oracle `Explore.Builder`, and `_run` is the oracle `Measure.Runner`. `os.environ` merging, `tempfile` and `mkdir` are left out.
- `json.load`, `json.dumps`, the CSV writer and the SQLite copy are I/O. The model starts from the decoded `Json` tree. An env cell is a structured `EnvJson` value rather than its JSON text.
- `shlex.split` and `str()` of a JSON value are function parameters of `Misc.NormalizedArgs`. `str()` of a sampled value is `Values.ToStr`.
- Misc.NormalizedArgs: `split` stands for `shlex.split` and is total. The `ValueError` that `shlex.split` raises on an unclosed quotation or a trailing backslash (src/misc.py:122, 126) is not modelled, so such `program_args` load in the model while `load` raises.
- Floats are exact reals, so `mean`, `median`, `variance` and the CPI ratio carry no rounding.
- Metrics.ParseNum: `float()` is modelled for optionally signed decimals with at most one point and single underscores between digits. Exponents, `inf` and `nan` are outside the model and give `None`.
- Metrics.ParseNum: digits are ASCII only. Python's `\d`, `\w` and `float()` also accept other Unicode decimal digits, so Python reads `"١٢٣"` as 123.0 while the model gives `None`.
- PyStr.ParseInt: digits are ASCII only. Python's `int()` also accepts other Unicode decimal digits.
- PyStr.Lower: only ASCII letters are lower-cased. Python's `str.lower()` also maps other letters, so `"li\u212Awid".lower() == "likwid"` in Python. The model refuses such a backend or goal.
- `str.splitlines` is modelled as splitting on `\n` only. A trailing newline does not produce an extra line.
- Config: `Unsupported(field)` marks a JSON type the model gives no meaning to, where `load` itself raises nothing. The places are listed below; everywhere else, including `int()`, `Path()`, project subscripting and `null` in `when`, the model follows Python.
- Config.Text: a non-string `compiler`, `objective.metric` or metrics entry `name` is unsupported. Python stores the value as it is.
- Config.OptText: a truthy non-string `likwid.group`, `likwid.core_list` or `perf.core_list` is unsupported. Python stores it, and a group may then stand in as the inferred metric entry.
- Config.Strings: a `perf.events`, `likwid.events`, `compiler_flags` or `compiler_flag_pool` that is not a list of strings is unsupported. Python stores it; for `likwid.events` without explicit metrics it may also raise while inferring metric names from it. A falsy `likwid.events` (`null`, `{}`, `0`, `false`) with no group raises `ValueError` in both.
- Config.ChoiceList: a `values` that is not a list, or a choice that is a float, `null`, a list or an object, is unsupported. Such choices are outside `Val`.
- Config.WhenMap: a `when` that is not an object is unsupported. Python raises `AttributeError` on `.items()`, but only when the sampler reaches that entry.
- Config.ParamsSchema: a `compiler_params` that is not an object is unsupported. Python stores it, and `.items()` fails later in the flag sampler.
- Config.IntOfText: the `ValueError` message quotes the text in single quotes; the escaping `repr` applies to quotes and control characters is not modelled.
- Config.PathArg: the `TypeError` message is the one Python 3.8 to 3.11 give; Python 3.12 words it differently.
- Misc.Choose: a sampled value that is a float, a list or an object is outside `Val`. Domains hold only booleans, integers and strings.
- Stats.Variance: only its sign is stated, and `Stats.ConstantSamples` states that equal samples deviate by zero. Its value is the sample variance formula itself, with no second definition to compare against.
- `main.py` and the miniBUDE benchmark are not part of this model.
