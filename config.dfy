/** `src/config.py`: the typed configuration and its loader, which validates
    and defaults the JSON tree that `json.load` returns. */
module Config {
  import opened Wrappers
  import opened PyStr
  import opened Values
  import Misc

  /** The outcome of reading a part of the configuration: the typed value,
      the exception the loader raises (by its message), or a JSON type the
      model does not give a Python meaning to (named by its field). */
  datatype Checked<+T> = Valid(value: T) | Invalid(error: string) | Unsupported(field: string) {
    predicate IsFailure() { !Valid? }

    function PropagateFailure<U>(): Checked<U>
      requires IsFailure()
    {
      if Invalid? then Invalid(error) else Unsupported(field)
    }

    function Extract(): T
      requires Valid?
    {
      value
    }
  }

  function FromResult<T>(r: Result<T>): (c: Checked<T>)
    ensures r.Ok? ==> c == Valid(r.value)
    ensures r.Err? ==> c == Invalid(r.error)
  {
    match r
    case Ok(v) => Valid(v)
    case Err(e) => Invalid(e)
  }

  // ---------------------------------------------------------------------------
  // Python operations on decoded JSON
  // ---------------------------------------------------------------------------

  /** The members of `d`, for `d.get(...)`; anything but an object has no
      `.get`. */
  function Members(d: Json): (r: Checked<seq<(string, Json)>>)
    ensures d.JObj? <==> r.Valid?
    ensures r.Valid? ==> r.value == d.members
    ensures !d.JObj? ==> r == Invalid(Misc.NoGet(TypeName(d)))
  {
    if d.JObj? then Valid(d.members) else Invalid(Misc.NoGet(TypeName(d)))
  }

  /** `x.lower()`. */
  function LowerOf(j: Json): (r: Checked<string>)
    ensures j.JStr? <==> r.Valid?
    ensures r.Valid? ==> r.value == Lower(j.s)
    ensures !j.JStr? ==> r == Invalid("'" + TypeName(j) + "' object has no attribute 'lower'")
  {
    if j.JStr? then Valid(Lower(j.s))
    else Invalid("'" + TypeName(j) + "' object has no attribute 'lower'")
  }

  /** A field the program uses as a string. */
  function Text(j: Json, field: string): (r: Checked<string>)
    ensures j.JStr? <==> r.Valid?
    ensures r.Valid? ==> r.value == j.s
    ensures !j.JStr? ==> r == Unsupported(field)
  {
    if j.JStr? then Valid(j.s) else Unsupported(field)
  }

  /** A field the program only tests for truthiness and otherwise uses as a
      string: a falsy value is absent. */
  function OptText(j: Json, field: string): (r: Checked<Option<string>>)
    ensures !JTruthy(j) ==> r == Valid(None)
    ensures JTruthy(j) && j.JStr? ==> r == Valid(Some(j.s))
    ensures r.Valid? && r.value.Some? ==> r.value.value != ""
  {
    if !JTruthy(j) then Valid(None)
    else if j.JStr? then Valid(Some(j.s))
    else Unsupported(field)
  }

  /** A field the program uses as a list of strings. */
  function Strings(j: Json, field: string): (r: Checked<seq<string>>)
    ensures r.Valid? <==> j.JList? && forall i | 0 <= i < |j.items| :: j.items[i].JStr?
    ensures r.Valid? ==> j.JList? && |r.value| == |j.items|
    ensures r.Valid? ==> forall i | 0 <= i < |j.items| :: j.items[i] == JStr(r.value[i])
    ensures !r.Valid? ==> r == Unsupported(field)
  {
    if !j.JList? then Unsupported(field) else StringItems(j.items, field)
  }

  function StringItems(xs: seq<Json>, field: string): (r: Checked<seq<string>>)
    ensures r.Valid? <==> forall i | 0 <= i < |xs| :: xs[i].JStr?
    ensures r.Valid? ==> |r.value| == |xs| && forall i | 0 <= i < |xs| :: xs[i] == JStr(r.value[i])
    ensures !r.Valid? ==> r == Unsupported(field)
  {
    if xs == [] then Valid([])
    else
      var front :- StringItems(xs[..|xs| - 1], field);
      var last :- Text(xs[|xs| - 1], field);
      Valid(front + [last])
  }

  /** The one-character strings of `s`, as iterating a string yields them. */
  function CharStrs(s: string): (r: seq<Json>)
    ensures |r| == |s|
    ensures forall i | 0 <= i < |s| :: r[i] == JStr([s[i]])
  {
    if s == [] then [] else CharStrs(s[..|s| - 1]) + [JStr([s[|s| - 1]])]
  }

  /** The keys of an object, as iterating a dict yields them. */
  function KeyStrs(ms: seq<(string, Json)>): (r: seq<Json>)
    ensures |r| == |ms|
    ensures forall i | 0 <= i < |ms| :: r[i] == JStr(ms[i].0)
  {
    if ms == [] then [] else KeyStrs(ms[..|ms| - 1]) + [JStr(ms[|ms| - 1].0)]
  }

  /** The elements `for x in j` visits: the items of a list, the
      one-character strings of a string, the keys of an object (each once,
      in the order of their first appearance). */
  function Iterate(j: Json): (r: Checked<seq<Json>>)
    requires JTruthy(j)
    ensures j.JList? ==> r == Valid(j.items)
    ensures j.JStr? ==> r == Valid(CharStrs(j.s))
    ensures j.JObj? ==> r == Valid(KeyStrs(Entries(j.members)))
    ensures j.JInt? || j.JNum? || j.JBool? ==> r == Invalid("'" + TypeName(j) + "' object is not iterable")
    ensures r.Valid? ==> r.value != []
  {
    match j
    case JList(xs) => Valid(xs)
    case JStr(s) => Valid(CharStrs(s))
    case JObj(ms) => Valid(KeyStrs(Entries(ms)))
    case _ => Invalid("'" + TypeName(j) + "' object is not iterable")
  }

  /** `int(x)` on a float. */
  function Trunc(x: real): int {
    if x >= 0.0 then x.Floor else -((-x).Floor)
  }

  /** `int(x)` truncates toward zero. */
  lemma TruncTowardZero(x: real)
    ensures x >= 0.0 ==> 0 <= Trunc(x) && Trunc(x) as real <= x < Trunc(x) as real + 1.0
    ensures x < 0.0 ==> Trunc(x) <= 0 && Trunc(x) as real - 1.0 < x <= Trunc(x) as real
  {
  }

  /** The message of `int(x)` on a value of another type. */
  function IntArgError(typeName: string): string {
    "int() argument must be a string, a bytes-like object or a real number, not '" + typeName + "'"
  }

  /** The message of `int(s)` on a string that is no integer literal. */
  function IntLiteralError(s: string): string {
    "invalid literal for int() with base 10: '" + s + "'"
  }

  /** `int(x)` on a decoded JSON value. */
  function PyInt(j: Json): (r: Checked<int>)
    ensures j.JInt? ==> r == Valid(j.i)
    ensures j.JBool? ==> r == Valid(if j.b then 1 else 0)
    ensures j.JNum? ==> r == Valid(Trunc(j.r))
    ensures j.JStr? ==> r == IntOfText(j.s)
    ensures !j.JInt? && !j.JBool? && !j.JNum? && !j.JStr? ==> r == Invalid(IntArgError(TypeName(j)))
    ensures !r.Unsupported?
  {
    if j.JInt? then Valid(j.i)
    else if j.JBool? then Valid(if j.b then 1 else 0)
    else if j.JNum? then Valid(Trunc(j.r))
    else if j.JStr? then IntOfText(j.s)
    else Invalid(IntArgError(TypeName(j)))
  }

  /** `int(s)` on a string: the integer literal it holds, or `ValueError`. */
  function IntOfText(s: string): (r: Checked<int>)
    ensures r.Valid? <==> ParseInt(s).Some?
    ensures r.Valid? ==> r.value == ParseInt(s).value
    ensures !r.Valid? ==> r == Invalid(IntLiteralError(s))
  {
    match ParseInt(s)
    case Some(n) => Valid(n)
    case None => Invalid(IntLiteralError(s))
  }

  /** `int()` of a decimal text reads the number it renders, white space
      around it included. */
  lemma IntOfDecimalText(w: string, i: int, v: string)
    requires Blank(w) && Blank(v)
    ensures PyInt(JStr(w + IntToDecimal(i) + v)) == Valid(i)
  {
    ParseIntPadded(w, IntToDecimal(i), v);
    ParseIntDecimal(i);
  }

  /** `Path(x)`: anything but a string raises `TypeError`. */
  function PathArg(j: Json): (r: Checked<string>)
    ensures j.JStr? <==> r.Valid?
    ensures r.Valid? ==> r.value == j.s
    ensures !j.JStr? ==> r == Invalid("expected str, bytes or os.PathLike object, not " + TypeName(j))
  {
    if j.JStr? then Valid(j.s) else Invalid("expected str, bytes or os.PathLike object, not " + TypeName(j))
  }

  /** The message of `x[key]` with a string key on a value that is not an
      object. */
  function SubscriptError(j: Json): string {
    match j
    case JStr(_) => "string indices must be integers, not 'str'"
    case JList(_) => "list indices must be integers or slices, not str"
    case _ => "'" + TypeName(j) + "' object is not subscriptable"
  }

  // ---------------------------------------------------------------------------
  // Objective
  // ---------------------------------------------------------------------------

  datatype Objective = Objective(metric: string, goal: string)

  const GoalError := "objective.goal must be 'min' or 'max'"

  /** `Objective.from_dict(d)`: `goal` defaults to `min` and is lowercased,
      `metric` defaults to `CPI`. */
  function ObjectiveFromDict(d: Json): (r: Checked<Objective>)
    ensures r.Valid? ==> r.value.goal == "min" || r.value.goal == "max"
    ensures !d.JObj? ==> r == Invalid(Misc.NoGet(TypeName(d)))
    ensures d.JObj? ==>
      var goal := Get(d.members, "goal", JStr("min"));
      var metric := Get(d.members, "metric", JStr("CPI"));
      (!goal.JStr? ==> r == LowerOf(goal).PropagateFailure())
      && (goal.JStr? && Lower(goal.s) != "min" && Lower(goal.s) != "max" ==> r == Invalid(GoalError))
      && (goal.JStr? && (Lower(goal.s) == "min" || Lower(goal.s) == "max") && metric.JStr? ==>
            r == Valid(Objective(metric.s, Lower(goal.s))))
    ensures d.JObj? && Lookup(d.members, "goal").None? && Get(d.members, "metric", JStr("CPI")).JStr? ==>
      r == Valid(Objective(Get(d.members, "metric", JStr("CPI")).s, "min"))
    ensures d.JObj? && Lookup(d.members, "metric").None? && r.Valid? ==> r.value.metric == "CPI"
  {
    LowerMin();
    var ms :- Members(d);
    var goal :- LowerOf(Get(ms, "goal", JStr("min")));
    if goal != "min" && goal != "max" then Invalid(GoalError)
    else
      var metric :- Text(Get(ms, "metric", JStr("CPI")), "objective.metric");
      Valid(Objective(metric, goal))
  }

  /** An objective block may spell its goal in any case; any other goal is
      rejected. */
  lemma GoalChecked(ms: seq<(string, Json)>, g: string)
    requires Lookup(ms, "goal") == Some(JStr(g))
    ensures ObjectiveFromDict(JObj(ms)) == Invalid(GoalError) <==> Lower(g) != "min" && Lower(g) != "max"
    ensures ObjectiveFromDict(JObj(ms)).Valid? ==> ObjectiveFromDict(JObj(ms)).value.goal == Lower(g)
  {
  }

  /** An empty objective block minimises CPI. */
  lemma ObjectiveDefaults()
    ensures ObjectiveFromDict(JObj([])) == Valid(Objective("CPI", "min"))
  {
  }

  lemma LowerMin()
    ensures Lower("min") == "min"
  {
    assert Lower("min") == [LowerChar('m')] + Lower("in");
    assert Lower("in") == [LowerChar('i')] + Lower("n");
  }

  // ---------------------------------------------------------------------------
  // MetricSpec
  // ---------------------------------------------------------------------------

  /** A LIKWID metric row to read, how to aggregate its samples, and whether
      to report their variance as well. */
  datatype MetricSpec = MetricSpec(name: string, agg: string, withVariance: bool)

  const MetricTypeError := "metrics entries must be string or object"

  /** `MetricSpec.from_any(raw)`. */
  function MetricSpecFromAny(raw: Json): (r: Checked<MetricSpec>)
    ensures raw.JStr? ==> r == Valid(MetricSpec(raw.s, "avg", false))
    ensures !raw.JStr? && !raw.JObj? ==> r == Invalid(MetricTypeError)
    ensures raw.JObj? && "name" !in Keys(raw.members) ==> r == Invalid("'name'")
    ensures raw.JObj? && r.Valid? ==>
      Lookup(raw.members, "name") == Some(JStr(r.value.name))
      && r.value.withVariance == JTruthy(Get(raw.members, "var", JBool(false)))
    ensures raw.JObj? && r.Valid? ==> LowerOf(Get(raw.members, "agg", JStr("avg"))) == Valid(r.value.agg)
    ensures raw.JObj? && r.Valid? && Lookup(raw.members, "agg").None? ==> r.value.agg == "avg"
    ensures raw.JObj? && "name" in Keys(raw.members) && Lookup(raw.members, "name").value.JStr? ==>
      var agg := Get(raw.members, "agg", JStr("avg"));
      (agg.JStr? ==> r == Valid(MetricSpec(Lookup(raw.members, "name").value.s, Lower(agg.s),
                                           JTruthy(Get(raw.members, "var", JBool(false))))))
      && (!agg.JStr? ==> r == LowerOf(agg).PropagateFailure())
    ensures r.Valid? ==> Lower(r.value.agg) == r.value.agg
  {
    LowerAvg();
    match raw
    case JStr(s) => Valid(MetricSpec(s, "avg", false))
    case JObj(ms) =>
      var nameJ :- if "name" in Keys(ms) then Valid(Lookup(ms, "name").value) else Invalid("'name'");
      var name :- Text(nameJ, "metrics[].name");
      var agg :- LowerOf(Get(ms, "agg", JStr("avg")));
      LowerIdempotent(agg);
      Valid(MetricSpec(name, agg, JTruthy(Get(ms, "var", JBool(false)))))
    case _ => Invalid(MetricTypeError)
  }

  lemma LowerAvg()
    ensures Lower("avg") == "avg"
  {
    assert Lower("avg") == [LowerChar('a')] + Lower("vg");
    assert Lower("vg") == [LowerChar('v')] + Lower("g");
  }

  /** Converting one more entry extends the converted list by its value. */
  lemma ConvertedSnoc<T>(items: seq<Json>, front: seq<T>, last: T, convert: Json -> Checked<T>)
    requires items != [] && |front| == |items| - 1
    requires forall i | 0 <= i < |front| :: convert(items[..|items| - 1][i]) == Valid(front[i])
    requires convert(items[|items| - 1]) == Valid(last)
    ensures forall i | 0 <= i < |items| :: convert(items[i]) == Valid((front + [last])[i])
  {
    forall i | 0 <= i < |items| ensures convert(items[i]) == Valid((front + [last])[i]) {
      if i < |front| { assert items[..|items| - 1][i] == items[i]; }
    }
  }

  /** `[MetricSpec.from_any(m) for m in items]`. */
  function MetricSpecs(items: seq<Json>): (r: Checked<seq<MetricSpec>>)
    ensures r.Valid? ==> |r.value| == |items|
    ensures r.Valid? ==> forall i | 0 <= i < |items| :: MetricSpecFromAny(items[i]) == Valid(r.value[i])
  {
    if items == [] then Valid([])
    else
      var front :- MetricSpecs(items[..|items| - 1]);
      var last :- MetricSpecFromAny(items[|items| - 1]);
      ConvertedSnoc(items, front, last, MetricSpecFromAny);
      Valid(front + [last])
  }

  // ---------------------------------------------------------------------------
  // LikwidConfig and PerfConfig
  // ---------------------------------------------------------------------------

  datatype LikwidConfig = LikwidConfig(group: Option<string>, events: seq<string>, metrics: seq<MetricSpec>, coreList: Option<string>)

  datatype PerfConfig = PerfConfig(events: seq<string>, coreList: Option<string>)

  const GroupOrEvents := "Need either 'group' or 'events' in likwid block"

  /** The stripped non-blank pieces, in order. */
  function NonBlank(parts: seq<string>): (r: seq<string>)
    ensures |r| <= |parts|
    ensures forall i | 0 <= i < |r| :: r[i] != ""
  {
    if parts == [] then []
    else
      var t := Strip(parts[|parts| - 1]);
      if t == "" then NonBlank(parts[..|parts| - 1]) else NonBlank(parts[..|parts| - 1]) + [t]
  }

  /** Some part strips to `x`. */
  predicate StripsTo(parts: seq<string>, x: string) {
    exists j | 0 <= j < |parts| :: Strip(parts[j]) == x
  }

  /** Every non-blank part is kept, stripped. */
  lemma {:induction false} NonBlankKeeps(parts: seq<string>, j: nat)
    requires j < |parts| && Strip(parts[j]) != ""
    ensures Strip(parts[j]) in NonBlank(parts)
  {
    var front := parts[..|parts| - 1];
    if j < |front| {
      assert front[j] == parts[j];
      NonBlankKeeps(front, j);
    }
  }

  /** Every kept text is a part, stripped. */
  lemma {:induction false} NonBlankSource(parts: seq<string>, i: nat) returns (j: nat)
    requires i < |NonBlank(parts)|
    ensures j < |parts| && Strip(parts[j]) == NonBlank(parts)[i]
  {
    var front, t := parts[..|parts| - 1], Strip(parts[|parts| - 1]);
    assert NonBlank(parts) == if t == "" then NonBlank(front) else NonBlank(front) + [t];
    if i < |NonBlank(front)| {
      assert NonBlank(parts)[i] == NonBlank(front)[i];
      j := NonBlankSource(front, i);
      assert front[j] == parts[j];
    } else {
      j := |parts| - 1;
    }
  }

  /** Every kept entry is stripped already. */
  lemma NonBlankStripped(parts: seq<string>, i: nat)
    requires i < |NonBlank(parts)|
    ensures Strip(NonBlank(parts)[i]) == NonBlank(parts)[i]
  {
    var j := NonBlankSource(parts, i);
    StripStripped(parts[j]);
  }

  /** A text is kept exactly when it is a non-blank part, stripped. */
  lemma NonBlankMembers(parts: seq<string>, x: string)
    ensures x in NonBlank(parts) <==> x != "" && StripsTo(parts, x)
  {
    if x in NonBlank(parts) {
      var i :| 0 <= i < |NonBlank(parts)| && NonBlank(parts)[i] == x;
      var j := NonBlankSource(parts, i);
    }
    if x != "" && exists j | 0 <= j < |parts| :: Strip(parts[j]) == x {
      var j :| 0 <= j < |parts| && Strip(parts[j]) == x;
      NonBlankKeeps(parts, j);
    }
  }

  /** Filtering is piecewise: the kept pieces of two runs of parts are the
      kept pieces of each, in order. */
  lemma {:induction false} NonBlankAppend(a: seq<string>, b: seq<string>)
    ensures NonBlank(a + b) == NonBlank(a) + NonBlank(b)
    decreases |b|
  {
    if b == [] {
      assert a + b == a;
    } else {
      var b' := b[..|b| - 1];
      assert (a + b)[..|a + b| - 1] == a + b';
      assert (a + b)[|a + b| - 1] == b[|b| - 1];
      NonBlankAppend(a, b');
    }
  }

  /** Stripping and dropping blanks introduces no character. */
  lemma {:induction false} NonBlankWithout(parts: seq<string>, c: char)
    requires forall j | 0 <= j < |parts| :: c !in parts[j]
    ensures forall i | 0 <= i < |NonBlank(parts)| :: c !in NonBlank(parts)[i]
  {
    if parts != [] {
      NonBlankWithout(parts[..|parts| - 1], c);
      StripWithout(parts[|parts| - 1], c);
    }
  }

  lemma StripWithout(s: string, c: char)
    requires c !in s
    ensures c !in Strip(s)
  {
    var k := StripStart(s);
    forall i | 0 <= i < |Strip(s)| ensures Strip(s)[i] != c {
      assert Strip(s)[i] == s[k + i];
    }
  }

  /** `[e.strip() for e in s.split(",") if e.strip()]`. */
  function SplitEvents(s: string): (r: seq<string>)
    ensures forall i | 0 <= i < |r| :: r[i] != "" && ',' !in r[i]
    ensures ',' !in s ==> r == (if Strip(s) == "" then [] else [Strip(s)])
  {
    NonBlankWithout(Split(s, ','), ',');
    NonBlank(Split(s, ','))
  }

  /** An event name is kept exactly when it is a non-blank comma piece,
      stripped. */
  lemma SplitEventsMembers(s: string, x: string)
    ensures x in SplitEvents(s) <==> x != "" && StripsTo(Split(s, ','), x)
  {
    assert SplitEvents(s) == NonBlank(Split(s, ','));
    NonBlankMembers(Split(s, ','), x);
  }

  /** The pieces are trimmed, and blank ones dropped. */
  lemma SplitEventsExample()
    ensures SplitEvents(" a, ,b ") == ["a", "b"]
  {
    var parts := [" a", " ", "b "];
    assert Split(" a, ,b ", ',') == parts by {
      assert Join(parts, [',']) == " a, ,b ";
      SplitJoin(parts, ',');
    }
    NonBlankExample();
  }

  lemma NonBlankExample()
    ensures NonBlank([" a", " ", "b "]) == ["a", "b"]
  {
    StripExamples();
    NonBlankSingle(" a");
    NonBlankSingle(" ");
    NonBlankSingle("b ");
    NonBlankAppend([" a"], [" "]);
    NonBlankAppend([" a", " "], ["b "]);
    assert [" a"] + [" "] == [" a", " "];
    assert [" a", " "] + ["b "] == [" a", " ", "b "];
  }

  lemma NonBlankSingle(p: string)
    ensures NonBlank([p]) == if Strip(p) == "" then [] else [Strip(p)]
  {
    assert [p][..0] == [];
  }

  lemma StripExamples()
    ensures Strip(" a") == "a" && Strip(" ") == "" && Strip("b ") == "b"
  {
    StripLeading();
    StripTrailing();
    StripEmptyIffBlank(" ");
  }

  lemma StripLeading()
    ensures Strip(" a") == "a"
  {
    assert " a" == " " + "a" + "";
    StripOf(" ", "a", "");
  }

  lemma StripTrailing()
    ensures Strip("b ") == "b"
  {
    assert "b " == "" + "b" + " ";
    StripOf("", "b", " ");
  }




  /** `events` of a likwid block: a comma-separated string or a list. */
  function LikwidEvents(j: Json): (r: Checked<seq<string>>)
    ensures j.JStr? ==> r == Valid(SplitEvents(j.s))
    ensures !j.JStr? ==> r == Strings(j, "likwid.events")
    ensures j.JList? ==> (r.Valid? <==> forall i | 0 <= i < |j.items| :: j.items[i].JStr?)
    ensures j.JList? && r.Valid? ==> |r.value| == |j.items| && forall i | 0 <= i < |j.items| :: j.items[i] == JStr(r.value[i])
  {
    if j.JStr? then Valid(SplitEvents(j.s)) else Strings(j, "likwid.events")
  }

  /** The metric names inferred from raw events: the part before `:`. */
  function EventNames(events: seq<string>): (r: seq<Json>)
    ensures |r| == |events|
    ensures forall i | 0 <= i < |events| :: r[i] == JStr(Split(events[i], ':')[0])
  {
    if events == [] then [] else EventNames(events[..|events| - 1]) + [JStr(Split(events[|events| - 1], ':')[0])]
  }

  /** The metrics of a block without an explicit list: the event names
      before `:`, or the group when there are no events, each averaged and
      without variance. */
  predicate InferredMetrics(c: LikwidConfig) {
    if c.events != []
    then |c.metrics| == |c.events|
      && forall i | 0 <= i < |c.events| :: c.metrics[i] == MetricSpec(Split(c.events[i], ':')[0], "avg", false)
    else c.group.Some? && c.metrics == [MetricSpec(c.group.value, "avg", false)]
  }

  /** The metric entries of a block: the explicit `metrics`, else the ones
      inferred from the events or the group. */
  function MetricItems(metricsRaw: Json, group: Option<string>, events: seq<string>): (r: Checked<seq<Json>>)
    requires group.Some? || events != []
    ensures JTruthy(metricsRaw) ==> r == Iterate(metricsRaw)
    ensures !JTruthy(metricsRaw) && events != [] ==> r == Valid(EventNames(events))
    ensures !JTruthy(metricsRaw) && events == [] ==> r == Valid([JStr(group.value)])
  {
    if JTruthy(metricsRaw) then Iterate(metricsRaw)
    else if events != [] then Valid(EventNames(events))
    else Valid([JStr(group.value)])
  }

  /** `not events` once a string of events has been split at commas. */
  predicate NoEvents(j: Json) {
    if j.JStr? then SplitEvents(j.s) == [] else !JTruthy(j)
  }

  /** `LikwidConfig.from_dict(d)`. */
  function LikwidFromDict(d: Json): (r: Checked<LikwidConfig>)
    ensures r.Valid? ==> r.value.group.Some? || r.value.events != []
    ensures r.Valid? && r.value.group.Some? ==> r.value.group.value != ""
    ensures r.Valid? ==> d.JObj? && (JTruthy(Get(d.members, "metrics", JNull)) || InferredMetrics(r.value))
    ensures !d.JObj? ==> r == Invalid(Misc.NoGet(TypeName(d)))
    ensures d.JObj? && r.Valid? ==>
      var metrics := Get(d.members, "metrics", JNull);
      OptText(Get(d.members, "group", JNull), "likwid.group") == Valid(r.value.group)
      && LikwidEvents(Get(d.members, "events", JList([]))) == Valid(r.value.events)
      && OptText(Get(d.members, "core_list", JNull), "likwid.core_list") == Valid(r.value.coreList)
      && (JTruthy(metrics) ==> Iterate(metrics).Valid? && MetricSpecs(Iterate(metrics).value) == Valid(r.value.metrics))
    ensures d.JObj? && !JTruthy(Get(d.members, "group", JNull)) && NoEvents(Get(d.members, "events", JList([]))) ==>
              r == Invalid(GroupOrEvents)
  {
    var ms :- Members(d);
    var groupRaw := Get(ms, "group", JNull);
    var eventsRaw := Get(ms, "events", JList([]));
    if !JTruthy(groupRaw) && NoEvents(eventsRaw) then Invalid(GroupOrEvents)
    else
    var group :- OptText(groupRaw, "likwid.group");
    var events :- LikwidEvents(eventsRaw);
    if group.None? && events == [] then Invalid(GroupOrEvents)
    else
      var metricsRaw := Get(ms, "metrics", JNull);
      var items :- MetricItems(metricsRaw, group, events);
      var metrics :- MetricSpecs(items);
      var coreList :- OptText(Get(ms, "core_list", JNull), "likwid.core_list");
      var c := LikwidConfig(group, events, metrics, coreList);
      assert JTruthy(metricsRaw) || InferredMetrics(c) by {
        if !JTruthy(metricsRaw) { InferredSpecs(c, items); }
      }
      Valid(c)
  }

  /** Specs read from the inferred entries are the inferred metrics. */
  lemma InferredSpecs(c: LikwidConfig, items: seq<Json>)
    requires c.group.Some? || c.events != []
    requires items == (if c.events != [] then EventNames(c.events) else [JStr(c.group.value)])
    requires MetricSpecs(items) == Valid(c.metrics)
    ensures InferredMetrics(c)
  {
    if c.events != [] {
      forall i | 0 <= i < |c.events| ensures c.metrics[i] == MetricSpec(Split(c.events[i], ':')[0], "avg", false) {
        assert items[i] == JStr(Split(c.events[i], ':')[0]);
      }
    } else {
      assert MetricSpecFromAny(items[0]) == Valid(c.metrics[0]);
    }
  }

  /** A block with no group, and events that are falsy or a string of
      blank comma pieces, is rejected. */
  lemma LikwidNeedsGroupOrEvents(ms: seq<(string, Json)>)
    requires !JTruthy(Get(ms, "group", JNull))
    requires var e := Get(ms, "events", JList([]));
      if e.JStr? then forall i | 0 <= i < |Split(e.s, ',')| :: Strip(Split(e.s, ',')[i]) == ""
      else !JTruthy(e)
    ensures LikwidFromDict(JObj(ms)) == Invalid(GroupOrEvents)
  {
    var e := Get(ms, "events", JList([]));
    if e.JStr? && SplitEvents(e.s) != [] {
      SplitEventsMembers(e.s, SplitEvents(e.s)[0]);
      assert false;
    }
  }

  /** `PerfConfig.from_dict(d)`: the events default to cycles and
      instructions. */
  function PerfFromDict(d: Json): (r: Checked<PerfConfig>)
    ensures !d.JObj? ==> r == Invalid(Misc.NoGet(TypeName(d)))
    ensures d.JObj? ==>
      var events := Get(d.members, "events", JList([JStr("cycles"), JStr("instructions")]));
      var coreList := Get(d.members, "core_list", JNull);
      (r.Valid? <==> Strings(events, "perf.events").Valid? && OptText(coreList, "perf.core_list").Valid?)
      && (r.Valid? ==>
            events.JList? && |r.value.events| == |events.items|
            && (forall i | 0 <= i < |events.items| :: events.items[i] == JStr(r.value.events[i]))
            && r.value.coreList == (if JTruthy(coreList) then Some(coreList.s) else None))
    ensures d.JObj? && Lookup(d.members, "events").None? && r.Valid? ==> r.value.events == ["cycles", "instructions"]
  {
    var ms :- Members(d);
    var events :- Strings(Get(ms, "events", JList([JStr("cycles"), JStr("instructions")])), "perf.events");
    var coreList :- OptText(Get(ms, "core_list", JNull), "perf.core_list");
    Valid(PerfConfig(events, coreList))
  }

  /** A block listing its events as strings and no core list keeps the
      events as given. */
  lemma PerfEventsGiven(ms: seq<(string, Json)>, events: seq<string>)
    requires Lookup(ms, "events") == Some(JList(seq(|events|, i requires 0 <= i < |events| => JStr(events[i]))))
    requires Lookup(ms, "core_list").None?
    ensures PerfFromDict(JObj(ms)) == Valid(PerfConfig(events, None))
  {
    var r := PerfFromDict(JObj(ms));
    assert r.Valid?;
    assert r.value.events == events;
  }

  // ---------------------------------------------------------------------------
  // SearchSpec and BuildProject
  // ---------------------------------------------------------------------------

  datatype SearchSpec = SearchSpec(searchMethod: Json, sampler: Json, nStartupTrials: int, populationSize: int, randomSeed: Json)

  /** `SearchSpec.from_dict(d)`: the two sizes go through `int()`, and
      the method, the sampler and the seed are kept as given. */
  function SearchFromDict(d: Json): (r: Checked<SearchSpec>)
    ensures !d.JObj? ==> r == Invalid(Misc.NoGet(TypeName(d)))
    ensures d.JObj? ==>
      var startup := PyInt(Get(d.members, "n_startup_trials", JInt(10)));
      var population := PyInt(Get(d.members, "population_size", JInt(50)));
      (r.Valid? <==> startup.Valid? && population.Valid?)
      && (!startup.Valid? ==> r == Invalid(startup.error))
      && (startup.Valid? && !population.Valid? ==> r == Invalid(population.error))
    ensures r.Valid? ==>
      var ms := d.members;
      PyInt(Get(ms, "n_startup_trials", JInt(10))) == Valid(r.value.nStartupTrials)
      && PyInt(Get(ms, "population_size", JInt(50))) == Valid(r.value.populationSize)
      && r.value.searchMethod == Get(ms, "method", JStr("optuna"))
      && r.value.sampler == Get(ms, "sampler", JStr("tpe"))
      && r.value.randomSeed == Get(ms, "random_seed", JNull)
    ensures d == JObj([]) ==> r == Valid(SearchSpec(JStr("optuna"), JStr("tpe"), 10, 50, JNull))
  {
    var ms :- Members(d);
    var startup :- PyInt(Get(ms, "n_startup_trials", JInt(10)));
    var population :- PyInt(Get(ms, "population_size", JInt(50)));
    Valid(SearchSpec(Get(ms, "method", JStr("optuna")), Get(ms, "sampler", JStr("tpe")), startup, population,
                     Get(ms, "random_seed", JNull)))
  }

  /** A size written as decimal text reads as its number. */
  lemma SearchSizesFromText(ms: seq<(string, Json)>, n: int, p: int)
    requires Lookup(ms, "n_startup_trials") == Some(JStr(IntToDecimal(n)))
    requires Lookup(ms, "population_size") == Some(JStr(IntToDecimal(p)))
    ensures SearchFromDict(JObj(ms)).Valid?
    ensures SearchFromDict(JObj(ms)).value.nStartupTrials == n
    ensures SearchFromDict(JObj(ms)).value.populationSize == p
  {
    assert PyInt(Get(ms, "n_startup_trials", JInt(10))) == Valid(n) by {
      ParseIntDecimal(n);
    }
    assert PyInt(Get(ms, "population_size", JInt(50))) == Valid(p) by {
      ParseIntDecimal(p);
    }
  }

  datatype BuildProject = BuildProject(dir: string, buildSystem: Json, target: Json, makeVars: Json, cmakeDefs: Json)

  /** `BuildProject.from_dict(d)`: `dir` is required and must be a
      path. */
  function ProjectFromDict(d: Json): (r: Checked<BuildProject>)
    ensures !d.JObj? ==> r == Invalid(SubscriptError(d))
    ensures d.JObj? && "dir" !in Keys(d.members) ==> r == Invalid("'dir'")
    ensures d.JObj? && "dir" in Keys(d.members) && !Lookup(d.members, "dir").value.JStr? ==>
      r == PathArg(Lookup(d.members, "dir").value).PropagateFailure()
    ensures r.Valid? ==> d.JObj? && Lookup(d.members, "dir") == Some(JStr(r.value.dir))
    ensures !r.Unsupported?
  {
    if !d.JObj? then Invalid(SubscriptError(d))
    else
      var ms := d.members;
      var dirJ :- if "dir" in Keys(ms) then Valid(Lookup(ms, "dir").value) else Invalid("'dir'");
      var dir :- PathArg(dirJ);
      Valid(BuildProject(dir, Get(ms, "build_system", JStr("cmake")), Get(ms, "target", JNull),
                         Get(ms, "make_vars", JObj([])), Get(ms, "cmake_defs", JList([]))))
  }

  // ---------------------------------------------------------------------------
  // Schemas
  // ---------------------------------------------------------------------------

  function Choice(j: Json, field: string): (r: Checked<Val>)
    ensures r.Valid? ==> ToVal(j) == Some(r.value)
  {
    match ToVal(j)
    case Some(v) => Valid(v)
    case None => Unsupported(field)
  }

  function ChoiceList(j: Json, field: string): (r: Checked<seq<Val>>)
    ensures r.Valid? ==> j.JList? && |r.value| == |j.items|
  {
    if !j.JList? then Unsupported(field) else ChoiceItems(j.items, field)
  }

  function ChoiceItems(xs: seq<Json>, field: string): (r: Checked<seq<Val>>)
    ensures r.Valid? ==> |r.value| == |xs|
  {
    if xs == [] then Valid([])
    else
      var front :- ChoiceItems(xs[..|xs| - 1], field);
      var last :- Choice(xs[|xs| - 1], field);
      Valid(front + [last])
  }

  /** What `guard.get(k) == v` compares with, for a JSON value `v`. */
  function ExpectedOf(j: Json): (r: Misc.Expected)
    ensures j.JNull? <==> r == Misc.Unassigned
    ensures ToVal(j).Some? ==> r == Misc.Equals(ToVal(j).value)
  {
    match j
    case JNull => Misc.Unassigned
    case JNum(x) => Misc.EqualsNum(x)
    case JList(_) => Misc.NeverEqual
    case JObj(_) => Misc.NeverEqual
    case _ => Misc.Equals(ToVal(j).value)
  }

  /** A `when` object, as a dict: a later duplicate key wins, as in
      `json.load`. */
  function WhenMap(j: Json, field: string): (r: Checked<map<string, Misc.Expected>>)
    ensures j.JObj? ==> r.Valid?
    ensures r.Valid? ==> j.JObj? && forall k :: k in r.value <==> k in Keys(j.members)
    ensures r.Valid? ==> forall k | k in r.value :: r.value[k] == ExpectedOf(Lookup(j.members, k).value)
  {
    if !j.JObj? then Unsupported(field) else Valid(WhenItems(j.members))
  }

  function WhenItems(ms: seq<(string, Json)>): (r: map<string, Misc.Expected>)
    ensures forall k :: k in r <==> k in Keys(ms)
    ensures forall k | k in r :: r[k] == ExpectedOf(Lookup(ms, k).value)
  {
    if ms == [] then map[]
    else
      var front := ms[..|ms| - 1];
      assert Keys(ms) == Keys(front) + [ms[|ms| - 1].0];
      WhenItems(front)[ms[|ms| - 1].0 := ExpectedOf(ms[|ms| - 1].1)]
  }

  /** One schema entry: a list of choices, an object with `when` and
      `values`, or a value of another type, which the samplers reject. */
  function SpecOf(j: Json, field: string): (r: Checked<Misc.Spec>)
    ensures r.Valid? && j.JList? ==> r.value.Choices?
    ensures r.Valid? && j.JObj? ==> r.value.Conditional? && (r.value.values.Some? <==> "values" in Keys(j.members))
    ensures !j.JList? && !j.JObj? ==> r == Valid(Misc.Unusable(TypeName(j)))
  {
    match j
    case JList(_) =>
      var xs :- ChoiceList(j, field);
      Valid(Misc.Choices(xs))
    case JObj(ms) =>
      var when :- WhenMap(Get(ms, "when", JObj([])), field);
      var values :- match Lookup(ms, "values")
        case None => Valid(None)
        case Some(v) => (var xs :- ChoiceList(v, field); Valid(Some(xs)));
      Valid(Misc.Conditional(when, values))
    case _ => Valid(Misc.Unusable(TypeName(j)))
  }

  /** A schema object, entry by entry. */
  function SchemaOf(ms: seq<(string, Json)>, field: string): (r: Checked<Misc.Schema>)
    ensures r.Valid? ==> |r.value| == |ms|
    ensures r.Valid? ==> forall i | 0 <= i < |ms| :: r.value[i].0 == ms[i].0 && SpecOf(ms[i].1, field) == Valid(r.value[i].1)
  {
    if ms == [] then Valid([])
    else
      var front :- SchemaOf(ms[..|ms| - 1], field);
      var last :- SpecOf(ms[|ms| - 1].1, field);
      Valid(front + [(ms[|ms| - 1].0, last)])
  }

  /** `compiler_params`, which must be an object; its items are those of
      the dict `json.load` builds, so each option is named once. */
  function ParamsSchema(j: Json): (r: Checked<Misc.Schema>)
    ensures r.Valid? ==> j.JObj? && Misc.DistinctNames(r.value)
    ensures r.Valid? ==> forall k :: k in Misc.NameSet(r.value) <==> k in Keys(j.members)
  {
    if j.JObj? then
      var r := SchemaOf(Entries(j.members), "compiler_params");
      SchemaNames(Entries(j.members), "compiler_params", r);
      r
    else Unsupported("compiler_params")
  }

  /** A schema read from an object's items names each entry once, and names
      exactly the object's keys. */
  lemma SchemaNames(ms: seq<(string, Json)>, field: string, r: Checked<Misc.Schema>)
    requires r == SchemaOf(ms, field)
    ensures r.Valid? && UniqueKeys(ms) ==> Misc.DistinctNames(r.value)
    ensures r.Valid? ==> forall k :: k in Misc.NameSet(r.value) <==> k in Keys(ms)
  {
    if r.Valid? {
      assert forall i | 0 <= i < |ms| :: r.value[i].0 == ms[i].0;
      assert forall k :: k in Keys(ms) ==> exists i | 0 <= i < |ms| :: ms[i].0 == k;
    }
  }

  // ---------------------------------------------------------------------------
  // Config.load
  // ---------------------------------------------------------------------------

  datatype Config = Config(
    backend: string,
    source: Option<string>,
    project: Option<BuildProject>,
    compiler: string,
    compilerFlagsBase: Json,
    compilerFlags: seq<string>,
    compilerParams: Misc.Schema,
    compilerFlagPool: seq<string>,
    programArgs: seq<string>,
    env: Misc.Schema,
    perf: Option<PerfConfig>,
    likwid: Option<LikwidConfig>,
    objectives: seq<Objective>,
    search: SearchSpec,
    runs: Json,
    csvLog: Json,
    failLog: Json,
    sqliteLog: Json)

  const BackendError := "backend must be 'perf' or 'likwid'"
  const SourceOrProject := "Provide exactly one of 'source' or 'project'."
  const EnvMissing := "Config must contain a non-empty 'env' object."
  const NoObjective := "At least one objective required."

  function EnvEntryError(name: string): string {
    "'env." + name + "' must be a list or an object with a 'values' key"
  }

  /** An entry of the `env` block passes the loader's check. */
  predicate EnvEntryOk(j: Json) {
    j.JList? || (j.JObj? && "values" in Keys(j.members))
  }

  /** The loader's pass over the `env` block: the first bad entry is named. */
  function CheckEnv(ms: seq<(string, Json)>): (r: Checked<()>)
    ensures r.Valid? <==> forall i | 0 <= i < |ms| :: EnvEntryOk(ms[i].1)
    ensures r.Invalid? ==> exists i | 0 <= i < |ms| ::
      !EnvEntryOk(ms[i].1) && r.error == EnvEntryError(ms[i].0) && forall j | 0 <= j < i :: EnvEntryOk(ms[j].1)
    ensures !r.Unsupported?
  {
    if ms == [] then Valid(())
    else if !EnvEntryOk(ms[0].1) then Invalid(EnvEntryError(ms[0].0))
    else
      var rest := CheckEnv(ms[1..]);
      assert forall i | 1 <= i < |ms| :: ms[i] == ms[1..][i - 1];
      assert rest.Invalid? ==> exists i | 0 <= i < |ms| ::
        !EnvEntryOk(ms[i].1) && rest.error == EnvEntryError(ms[i].0) && forall j | 0 <= j < i :: EnvEntryOk(ms[j].1)
      by {
        if rest.Invalid? {
          var k :| 0 <= k < |ms[1..]| && !EnvEntryOk(ms[1..][k].1) && rest.error == EnvEntryError(ms[1..][k].0)
            && forall j | 0 <= j < k :: EnvEntryOk(ms[1..][j].1);
          assert forall j | 0 <= j < k + 1 :: EnvEntryOk(ms[j].1) by {
            forall j | 0 <= j < k + 1 ensures EnvEntryOk(ms[j].1) {
              if j > 0 { assert ms[j] == ms[1..][j - 1]; }
            }
          }
          assert ms[k + 1] == ms[1..][k];
        }
      }
      rest
  }

  /** `[Objective.from_dict(o) for o in items]`. */
  function Objectives(items: seq<Json>): (r: Checked<seq<Objective>>)
    ensures r.Valid? ==> |r.value| == |items|
    ensures r.Valid? ==> forall i | 0 <= i < |items| :: ObjectiveFromDict(items[i]) == Valid(r.value[i])
  {
    if items == [] then Valid([])
    else
      var front :- Objectives(items[..|items| - 1]);
      var last :- ObjectiveFromDict(items[|items| - 1]);
      ConvertedSnoc(items, front, last, ObjectiveFromDict);
      Valid(front + [last])
  }

  /** The objective entries: the `objectives` list, or the backend block's
      single `objective`. */
  function ObjectiveItems(top: seq<(string, Json)>, backend: string): (r: Checked<seq<Json>>)
    ensures r.Valid? ==> r.value != []
    ensures !JTruthy(Get(top, "objectives", JNull)) && r.Valid? ==>
      Get(top, backend, JObj([])).JObj? && r.value == [Get(Get(top, backend, JObj([])).members, "objective", JObj([]))]
  {
    var raw := Get(top, "objectives", JNull);
    if JTruthy(raw) then Iterate(raw)
    else
      var block :- Members(Get(top, backend, JObj([])));
      Valid([Get(block, "objective", JObj([]))])
  }

  /** `if not objectives: raise ...`. */
  function RequireObjective(objectives: seq<Objective>): (r: Checked<seq<Objective>>)
    ensures objectives != [] ==> r == Valid(objectives)
    ensures objectives == [] ==> r == Invalid(NoObjective)
  {
    if objectives == [] then Invalid(NoObjective) else Valid(objectives)
  }

  /** The objectives of a configuration. The "at least one objective" check
      never rejects: once every entry has converted, the result is valid,
      because the entries are never empty. */
  function ObjectivesOf(top: seq<(string, Json)>, backend: string): (r: Checked<seq<Objective>>)
    ensures ObjectiveItems(top, backend).Valid? && Objectives(ObjectiveItems(top, backend).value).Valid? ==>
      r == Objectives(ObjectiveItems(top, backend).value)
    ensures r.Valid? ==> r.value != [] && forall i | 0 <= i < |r.value| :: r.value[i].goal in {"min", "max"}
    ensures r.Valid? && !JTruthy(Get(top, "objectives", JNull)) ==>
      Get(top, backend, JObj([])).JObj?
      && |r.value| == 1
      && ObjectiveFromDict(Get(Get(top, backend, JObj([])).members, "objective", JObj([]))) == Valid(r.value[0])
  {
    var items :- ObjectiveItems(top, backend);
    var objectives :- Objectives(items);
    RequireObjective(objectives)
  }

  /** `raw.get("backend", "likwid").lower()`, which must name a backend. */
  function BackendOf(top: seq<(string, Json)>): (r: Checked<string>)
    ensures r.Valid? ==> r.value == "perf" || r.value == "likwid"
    ensures Lookup(top, "backend").None? ==> r == Valid("likwid")
    ensures Lookup(top, "backend").Some? && Lookup(top, "backend").value.JStr? ==>
      var b := Lower(Lookup(top, "backend").value.s);
      r == if b == "perf" || b == "likwid" then Valid(b) else Invalid(BackendError)
  {
    var backend :- LowerOf(Get(top, "backend", JStr("likwid")));
    if backend != "perf" && backend != "likwid" then Invalid(BackendError) else Valid(backend)
  }

  /** The `env` block, which must be a non-empty object whose items pass
      the loader's check. */
  function EnvBlock(top: seq<(string, Json)>): (r: Checked<seq<(string, Json)>>)
    ensures r.Valid? <==>
      Get(top, "env", JNull).JObj? && Get(top, "env", JNull).members != []
      && forall i | 0 <= i < |Entries(Get(top, "env", JNull).members)| :: EnvEntryOk(Entries(Get(top, "env", JNull).members)[i].1)
    ensures r.Valid? ==> r.value == Entries(Get(top, "env", JNull).members)
    ensures !(Get(top, "env", JNull).JObj? && Get(top, "env", JNull).members != []) ==> r == Invalid(EnvMissing)
    ensures !r.Unsupported?
  {
    var envRaw := Get(top, "env", JNull);
    if !envRaw.JObj? || envRaw.members == [] then Invalid(EnvMissing)
    else
      var items := Entries(envRaw.members);
      var _ :- CheckEnv(items);
      Valid(items)
  }

  /** A repeated variable is checked by its last value only, as the dict
      `json.load` builds keeps only that one. */
  lemma EnvCheckUsesLastValue(top: seq<(string, Json)>)
    requires Get(top, "env", JNull).JObj? && Get(top, "env", JNull).members != []
    requires var ms := Get(top, "env", JNull).members;
      forall k | k in Keys(ms) :: EnvEntryOk(Lookup(ms, k).value)
    ensures EnvBlock(top).Valid?
  {
    var ms := Get(top, "env", JNull).members;
    var items := Entries(ms);
    forall i | 0 <= i < |items| ensures EnvEntryOk(items[i].1) {
      assert items[i].0 in Keys(items);
    }
  }

  /** What `Config.load` has established before its constructor call. */
  datatype Checks = Checks(
    top: seq<(string, Json)>,
    backend: string,
    source: Json,
    project: Json,
    env: seq<(string, Json)>,
    args: seq<string>,
    objectives: seq<Objective>)

  /** The checks of `Config.load` after `json.load`, in source order.
      `split` stands for `shlex.split` and `show` for `str`. */
  function Validate(raw: Json, split: string -> seq<string>, show: Json -> string): (r: Checked<Checks>)
    ensures r.Valid? ==>
      var c := r.value;
      raw == JObj(c.top)
      && BackendOf(c.top) == Valid(c.backend)
      && c.source == Get(c.top, "source", JNull) && c.project == Get(c.top, "project", JNull)
      && JTruthy(c.source) != JTruthy(c.project)
      && EnvBlock(c.top) == Valid(c.env)
      && Misc.NormalizedArgs(Get(c.top, "program_args", JNull), split, show) == Ok(c.args)
      && ObjectivesOf(c.top, c.backend) == Valid(c.objectives)
  {
    var top :- Members(raw);
    var backend :- BackendOf(top);
    var source := Get(top, "source", JNull);
    var project := Get(top, "project", JNull);
    if JTruthy(source) == JTruthy(project) then Invalid(SourceOrProject)
    else
      var env :- EnvBlock(top);
      var args :- FromResult(Misc.NormalizedArgs(Get(top, "program_args", JNull), split, show));
      var objectives :- ObjectivesOf(top, backend);
      Valid(Checks(top, backend, source, project, env, args, objectives))
  }

  /** The backend blocks: only the chosen backend's block is read. */
  function BackendBlocks(top: seq<(string, Json)>, backend: string): (r: Checked<(Option<PerfConfig>, Option<LikwidConfig>)>)
    ensures r.Valid? ==> (r.value.0.Some? <==> backend == "perf") && (r.value.1.Some? <==> backend == "likwid")
    ensures r.Valid? && backend == "perf" ==> PerfFromDict(Get(top, "perf", JObj([]))) == Valid(r.value.0.value)
    ensures r.Valid? && backend == "likwid" ==> LikwidFromDict(Get(top, "likwid", JObj([]))) == Valid(r.value.1.value)
  {
    var perf :- if backend == "perf" then (var p :- PerfFromDict(Get(top, "perf", JObj([]))); Valid(Some(p))) else Valid(None);
    var likwid :- if backend == "likwid" then (var l :- LikwidFromDict(Get(top, "likwid", JObj([]))); Valid(Some(l))) else Valid(None);
    Valid((perf, likwid))
  }

  /** The arguments of the constructor call, in the order Python evaluates
      them. */
  function Construct(c: Checks): (r: Checked<Config>)
    ensures r.Valid? ==>
      var cfg := r.value;
      cfg.backend == c.backend && cfg.objectives == c.objectives && cfg.programArgs == c.args
      && (cfg.source.Some? <==> JTruthy(c.source))
      && (cfg.project.Some? <==> JTruthy(c.project))
      && SchemaOf(c.env, "env") == Valid(cfg.env)
      && BackendBlocks(c.top, c.backend) == Valid((cfg.perf, cfg.likwid))
  {
    var top := c.top;
    var build :- BuildInputs(c.source, c.project);
    var compiler :- CompilerInputs(top);
    var env :- SchemaOf(c.env, "env");
    var blocks :- BackendBlocks(top, c.backend);
    var search :- SearchFromDict(Get(top, "search", JObj([])));
    Valid(Config(c.backend, build.0, build.1, compiler.0, Get(top, "compiler_flags_base", JStr("")), compiler.1,
                 compiler.2, compiler.3, c.args, env, blocks.0, blocks.1, c.objectives, search, Get(top, "runs", JNull),
                 Get(top, "csv_log", JNull), Get(top, "failed_builds", JNull), Get(top, "sqlite_log", JNull)))
  }

  /** `Path(source) if source` and `BuildProject.from_dict(project) if
      project`. */
  function BuildInputs(source: Json, project: Json): (r: Checked<(Option<string>, Option<BuildProject>)>)
    ensures r.Valid? ==> (r.value.0.Some? <==> JTruthy(source)) && (r.value.1.Some? <==> JTruthy(project))
    ensures r.Valid? && JTruthy(source) ==> PathArg(source) == Valid(r.value.0.value)
    ensures r.Valid? && JTruthy(project) ==> ProjectFromDict(project) == Valid(r.value.1.value)
  {
    var src :- if JTruthy(source) then (var s :- PathArg(source); Valid(Some(s))) else Valid(None);
    var proj :- if JTruthy(project) then (var p :- ProjectFromDict(project); Valid(Some(p))) else Valid(None);
    Valid((src, proj))
  }

  /** The compiler, the flag variants, the parameter schema and the flag
      pool, with their defaults. */
  function CompilerInputs(top: seq<(string, Json)>): (r: Checked<(string, seq<string>, Misc.Schema, seq<string>)>)
    ensures r.Valid? ==> Text(Get(top, "compiler", JStr("acpp")), "compiler") == Valid(r.value.0)
    ensures r.Valid? ==> Strings(Get(top, "compiler_flags", JList([])), "compiler_flags") == Valid(r.value.1)
    ensures r.Valid? ==> ParamsSchema(Get(top, "compiler_params", JObj([]))) == Valid(r.value.2)
    ensures r.Valid? ==> Strings(Get(top, "compiler_flag_pool", JList([])), "compiler_flag_pool") == Valid(r.value.3)
  {
    var compiler :- Text(Get(top, "compiler", JStr("acpp")), "compiler");
    var variants :- Strings(Get(top, "compiler_flags", JList([])), "compiler_flags");
    var params :- ParamsSchema(Get(top, "compiler_params", JObj([])));
    var pool :- Strings(Get(top, "compiler_flag_pool", JList([])), "compiler_flag_pool");
    Valid((compiler, variants, params, pool))
  }

  /** Every check, then every constructor argument. */
  function Build(raw: Json, split: string -> seq<string>, show: Json -> string): Checked<Config> {
    var c :- Validate(raw, split, show);
    Construct(c)
  }

  /** The message of the constructor call as written: it passes `fail_log=`
      to a dataclass whose field is spelled `fai_log_log`. */
  const UnexpectedFailLog := "Config.__init__() got an unexpected keyword argument 'fail_log'"

  /** `Config.load` as written: every check and argument is evaluated, and
      then the constructor call raises. */
  function LoadAsWritten(raw: Json, split: string -> seq<string>, show: Json -> string): Checked<Config> {
    var _ :- Build(raw, split, show);
    Invalid(UnexpectedFailLog)
  }

  /** `Config.load` with the field spelled `fail_log`, as the call intends. */
  function Load(raw: Json, split: string -> seq<string>, show: Json -> string): Checked<Config> {
    Build(raw, split, show)
  }

  /** As written, no configuration loads: a file that passes every check
      still ends in the constructor's `TypeError`. */
  lemma LoadAsWrittenNeverLoads(raw: Json, split: string -> seq<string>, show: Json -> string)
    ensures !LoadAsWritten(raw, split, show).Valid?
    ensures Load(raw, split, show).Valid? ==> LoadAsWritten(raw, split, show) == Invalid(UnexpectedFailLog)
    ensures !Load(raw, split, show).Valid? ==> LoadAsWritten(raw, split, show) == Load(raw, split, show)
  {
    var b := Build(raw, split, show);
    assert Load(raw, split, show) == b;
    if b.Valid? {
      assert LoadAsWritten(raw, split, show) == Invalid(UnexpectedFailLog);
    } else {
      assert LoadAsWritten(raw, split, show) == b.PropagateFailure();
    }
  }

  /** A loaded configuration names a known backend and carries exactly the
      block of that backend. */
  lemma LoadBackend(raw: Json, split: string -> seq<string>, show: Json -> string)
    requires Load(raw, split, show).Valid?
    ensures var c := Load(raw, split, show).value;
      (c.backend == "perf" || c.backend == "likwid")
      && (c.perf.Some? <==> c.backend == "perf")
      && (c.likwid.Some? <==> c.backend == "likwid")
  {
  }

  /** The backend defaults to LIKWID, and a backend other than perf or
      LIKWID, in any case, is rejected. */
  lemma BackendChecked(top: seq<(string, Json)>, split: string -> seq<string>, show: Json -> string)
    ensures Lookup(top, "backend").None? && Load(JObj(top), split, show).Valid? ==>
      Load(JObj(top), split, show).value.backend == "likwid"
    ensures (exists b :: Lookup(top, "backend") == Some(JStr(b)) && Lower(b) != "perf" && Lower(b) != "likwid") ==>
      Load(JObj(top), split, show) == Invalid(BackendError)
  {
  }

  /** A loaded configuration builds from exactly one of a source file and a
      project, and a file giving both or neither is rejected. */
  lemma LoadSourceXorProject(raw: Json, split: string -> seq<string>, show: Json -> string)
    ensures Load(raw, split, show).Valid? ==>
      var c := Load(raw, split, show).value;
      c.source.Some? != c.project.Some?
    ensures (raw.JObj? && BackendOf(raw.members).Valid?
      && JTruthy(Get(raw.members, "source", JNull)) == JTruthy(Get(raw.members, "project", JNull))) ==>
      Load(raw, split, show) == Invalid(SourceOrProject)
  {
  }

  /** A loaded environment schema is non-empty, names each variable once,
      and each entry is a list or an object that carries `values`. */
  lemma LoadEnvShape(raw: Json, split: string -> seq<string>, show: Json -> string)
    requires Load(raw, split, show).Valid?
    ensures var c := Load(raw, split, show).value;
      c.env != [] && Misc.DistinctNames(c.env)
      && forall i | 0 <= i < |c.env| :: c.env[i].1.Choices? || (c.env[i].1.Conditional? && c.env[i].1.values.Some?)
  {
    var v := Validate(raw, split, show).value;
    var c := Load(raw, split, show).value;
    assert Construct(v) == Valid(c);
    assert forall i | 0 <= i < |v.env| :: EnvEntryOk(v.env[i].1) by {
      assert EnvBlock(v.top) == Valid(v.env);
    }
    EnvSchemaShape(v.env, c.env);
    SchemaNames(v.env, "env", Valid(c.env));
  }

  /** The schema of `env` entries that pass the loader's check. */
  lemma EnvSchemaShape(ms: seq<(string, Json)>, schema: Misc.Schema)
    requires forall i | 0 <= i < |ms| :: EnvEntryOk(ms[i].1)
    requires SchemaOf(ms, "env") == Valid(schema)
    ensures |schema| == |ms|
    ensures forall i | 0 <= i < |schema| :: schema[i].1.Choices? || (schema[i].1.Conditional? && schema[i].1.values.Some?)
  {
    forall i | 0 <= i < |schema| ensures schema[i].1.Choices? || (schema[i].1.Conditional? && schema[i].1.values.Some?) {
      assert SpecOf(ms[i].1, "env") == Valid(schema[i].1);
    }
  }

  /** A loaded configuration has at least one objective, each with a goal of
      `min` or `max`; without an `objectives` list the one objective is the
      backend block's. */
  lemma LoadObjectives(raw: Json, split: string -> seq<string>, show: Json -> string)
    requires Load(raw, split, show).Valid?
    ensures var c := Load(raw, split, show).value;
      c.objectives != [] && forall i | 0 <= i < |c.objectives| :: c.objectives[i].goal in {"min", "max"}
    ensures var c := Load(raw, split, show).value;
      !JTruthy(Get(raw.members, "objectives", JNull)) ==>
        var block := Get(raw.members, c.backend, JObj([]));
        |c.objectives| == 1 && block.JObj? && ObjectiveFromDict(Get(block.members, "objective", JObj([]))) == Valid(c.objectives[0])
  {
    var v := Validate(raw, split, show).value;
    assert ObjectivesOf(v.top, v.backend) == Valid(v.objectives);
  }

  /** A minimal configuration: one source file, one environment variable
      and a LIKWID group. */
  const MinimalRaw := JObj([
    ("source", JStr("a.cpp")),
    ("env", JObj([("OMP", JList([JStr("1")]))])),
    ("likwid", JObj([("group", JStr("FLOPS"))]))])

  lemma MinimalLookups()
    ensures var top := MinimalRaw.members;
      Lookup(top, "backend") == None && Get(top, "source", JNull) == JStr("a.cpp")
      && Get(top, "project", JNull) == JNull && Get(top, "env", JNull) == JObj([("OMP", JList([JStr("1")]))])
      && Get(top, "program_args", JNull) == JNull && Get(top, "objectives", JNull) == JNull
      && Get(top, "likwid", JObj([])) == JObj([("group", JStr("FLOPS"))])
  {
    var top := MinimalRaw.members;
    assert top[1..][1..][1..] == [];
  }

  lemma MinimalObjectives()
    ensures ObjectivesOf(MinimalRaw.members, "likwid") == Valid([Objective("CPI", "min")])
  {
    MinimalLookups();
    var top := MinimalRaw.members;
    assert Lookup([("group", JStr("FLOPS"))], "objective") == None;
    assert ObjectiveItems(top, "likwid") == Valid([JObj([])]);
    DefaultObjectiveList();
  }

  lemma DefaultObjectiveList()
    ensures Objectives([JObj([])]) == Valid([Objective("CPI", "min")])
  {
    var items := [JObj([])];
    assert items[..|items| - 1] == [];
    assert Objectives(items[..|items| - 1]) == Valid([]);
    ObjectiveDefaults();
    assert ObjectiveFromDict(items[|items| - 1]) == Valid(Objective("CPI", "min"));
    assert [] + [Objective("CPI", "min")] == [Objective("CPI", "min")];
  }

  lemma MinimalBackend()
    ensures BackendOf(MinimalRaw.members) == Valid("likwid")
  {
    MinimalLookups();
  }

  lemma MinimalEnv()
    ensures EnvBlock(MinimalRaw.members) == Valid([("OMP", JList([JStr("1")]))])
  {
    MinimalLookups();
    var env := [("OMP", JList([JStr("1")]))];
    EntriesOfUnique(env);
    assert env[1..] == [];
    assert CheckEnv(env) == Valid(());
  }

  lemma MinimalChecks(split: string -> seq<string>, show: Json -> string)
    ensures Validate(MinimalRaw, split, show).Valid?
  {
    MinimalLookups();
    MinimalBackend();
    MinimalEnv();
    MinimalObjectives();
    assert Misc.NormalizedArgs(JNull, split, show) == Ok([]);
  }

  lemma MinimalLikwid()
    ensures LikwidFromDict(JObj([("group", JStr("FLOPS"))])).Valid?
  {
    var ms := [("group", JStr("FLOPS"))];
    assert Get(ms, "group", JNull) == JStr("FLOPS");
    assert Get(ms, "events", JList([])) == JList([]);
    assert Get(ms, "metrics", JNull) == JNull;
    assert Get(ms, "core_list", JNull) == JNull;
    assert MetricItems(JNull, Some("FLOPS"), []) == Valid([JStr("FLOPS")]);
    SingleName("FLOPS");
  }

  lemma SingleName(x: string)
    ensures MetricSpecs([JStr(x)]) == Valid([MetricSpec(x, "avg", false)])
  {
    var items := [JStr(x)];
    assert items[..|items| - 1] == [];
    assert MetricSpecs(items[..|items| - 1]) == Valid([]);
    assert MetricSpecFromAny(items[|items| - 1]) == Valid(MetricSpec(x, "avg", false));
    assert [] + [MetricSpec(x, "avg", false)] == [MetricSpec(x, "avg", false)];
  }

  lemma MinimalAbsent()
    ensures var top := MinimalRaw.members;
      Lookup(top, "compiler") == None && Lookup(top, "compiler_flags") == None
      && Lookup(top, "compiler_params") == None && Lookup(top, "compiler_flag_pool") == None
      && Lookup(top, "search") == None
  {
    var top := MinimalRaw.members;
    assert top[1..][1..][1..] == [];
  }

  /** The constructor call succeeds once every argument converts. */
  lemma ConstructValid(c: Checks)
    requires !JTruthy(c.source) && !JTruthy(c.project) ==> false
    requires JTruthy(c.source) ==> PathArg(c.source).Valid?
    requires JTruthy(c.project) ==> ProjectFromDict(c.project).Valid?
    requires Text(Get(c.top, "compiler", JStr("acpp")), "compiler").Valid?
    requires Strings(Get(c.top, "compiler_flags", JList([])), "compiler_flags").Valid?
    requires ParamsSchema(Get(c.top, "compiler_params", JObj([]))).Valid?
    requires Strings(Get(c.top, "compiler_flag_pool", JList([])), "compiler_flag_pool").Valid?
    requires SchemaOf(c.env, "env").Valid?
    requires BackendBlocks(c.top, c.backend).Valid?
    requires SearchFromDict(Get(c.top, "search", JObj([]))).Valid?
    ensures Construct(c).Valid?
  {
  }

  lemma MinimalConstruct(c: Checks)
    requires c.top == MinimalRaw.members && c.backend == "likwid" && c.source == JStr("a.cpp") && c.project == JNull
    requires c.env == [("OMP", JList([JStr("1")]))]
    ensures Construct(c).Valid?
  {
    MinimalArguments();
    MinimalBlocks();
    MinimalSchema();
    ConstructValid(c);
  }

  lemma MinimalArguments()
    ensures var top := MinimalRaw.members;
      Text(Get(top, "compiler", JStr("acpp")), "compiler").Valid?
      && Strings(Get(top, "compiler_flags", JList([])), "compiler_flags").Valid?
      && ParamsSchema(Get(top, "compiler_params", JObj([]))).Valid?
      && Strings(Get(top, "compiler_flag_pool", JList([])), "compiler_flag_pool").Valid?
      && SearchFromDict(Get(top, "search", JObj([]))).Valid?
  {
    MinimalAbsent();
    assert SearchFromDict(JObj([])).Valid?;
    assert Strings(JList([]), "compiler_flags").Valid?;
    assert Strings(JList([]), "compiler_flag_pool").Valid?;
    assert ParamsSchema(JObj([])).Valid?;
  }

  lemma MinimalBlocks()
    ensures BackendBlocks(MinimalRaw.members, "likwid").Valid?
  {
    MinimalLookups();
    MinimalLikwid();
  }

  lemma MinimalSchema()
    ensures SchemaOf([("OMP", JList([JStr("1")]))], "env").Valid?
  {
    var env := [("OMP", JList([JStr("1")]))];
    assert env[..0] == [];
  }

  /** The minimal configuration passes every check of the loader, so the
      misspelt keyword is what rejects it. */
  lemma MinimalConfigLoads(split: string -> seq<string>, show: Json -> string)
    ensures Load(MinimalRaw, split, show).Valid?
    ensures LoadAsWritten(MinimalRaw, split, show) == Invalid(UnexpectedFailLog)
  {
    MinimalChecks(split, show);
    var c := Validate(MinimalRaw, split, show).value;
    MinimalLookups();
    MinimalEnv();
    MinimalBackend();
    MinimalConstruct(c);
  }
}
