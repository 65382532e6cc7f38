/** `src/metrics.py`: the readers of `perf stat` and `likwid-perfctr` output,
    the tolerant number reader, and the per-run bucketing of the two
    measurement drivers. Measured values are exact reals. */
module Metrics {
  import opened Wrappers
  import opened PyStr
  import opened Values
  import opened Stats
  import Config

  // ---------------------------------------------------------------------------
  // Lines and greedy character runs
  // ---------------------------------------------------------------------------

  /** `text.splitlines()` for text whose only line break is `\n`: a final
      line break does not start another line. */
  function SplitLines(text: string): (r: seq<string>)
    ensures forall i | 0 <= i < |r| :: '\n' !in r[i]
    ensures text == "" <==> r == []
  {
    if text == "" then []
    else
      var parts := Split(text, '\n');
      assert |parts| == 1 ==> Join(parts, "\n") == parts[0];
      if parts[|parts| - 1] == "" then parts[..|parts| - 1]
      else parts
  }

  /** The end of the longest run of characters satisfying `p` from `i`. */
  function Span(s: string, i: nat, p: char -> bool): (j: nat)
    requires i <= |s|
    ensures i <= j <= |s|
    ensures forall k | i <= k < j :: p(s[k])
    ensures j == |s| || !p(s[j])
    decreases |s| - i
  {
    if i < |s| && p(s[i]) then Span(s, i + 1, p) else i
  }

  /** A run that cannot be extended is the one `Span` finds. */
  lemma {:induction false} SpanStops(s: string, i: nat, j: nat, p: char -> bool)
    requires i <= j <= |s|
    requires forall k | i <= k < j :: p(s[k])
    requires j == |s| || !p(s[j])
    ensures Span(s, i, p) == j
    decreases j - i
  {
    if i < j {
      SpanStops(s, i + 1, j, p);
    }
  }

  // ---------------------------------------------------------------------------
  // perf stat
  // ---------------------------------------------------------------------------

  /** The class `[0-9,]`. */
  predicate IsCountChar(c: char) { IsDigit(c) || c == ',' }

  /** The class `[^\s#]`. */
  predicate IsEventChar(c: char) { !IsSpace(c) && c != '#' }

  /** `_PERF_LINE_RE.match(line)`: the count and the event group. The four
      classes of the pattern alternate between disjoint ones, so greedy runs
      are the only way to match. */
  function MatchPerfLine(line: string): (r: Option<(string, string)>)
    ensures r.Some? ==> forall x | 0 <= x < |r.value.0| :: IsCountChar(r.value.0[x])
  {
    var i := Span(line, 0, IsSpace);
    var j := Span(line, i, IsCountChar);
    var k := Span(line, j, IsSpace);
    var l := Span(line, k, IsEventChar);
    if i < j && j < k && k < l then Some((line[i..j], line[k..l])) else None
  }

  /** `^\s*([0-9,]+)\s+([^\s#]+)` at positions `i < j < k < l`: white
      space, the count, white space and the event, which extends as far as
      event characters go. */
  predicate PerfLineForm(line: string, i: nat, j: nat, k: nat, l: nat) {
    i < j < k < l <= |line|
    && (forall x | 0 <= x < i :: IsSpace(line[x]))
    && (forall x | i <= x < j :: IsCountChar(line[x]))
    && (forall x | j <= x < k :: IsSpace(line[x]))
    && (forall x | k <= x < l :: IsEventChar(line[x]))
    && (l == |line| || !IsEventChar(line[l]))
  }

  /** The matcher finds exactly the groups of the pattern. */
  lemma PerfLineMatches(line: string)
    ensures MatchPerfLine(line).Some? ==>
      exists i: nat, j: nat, k: nat, l: nat :: PerfLineForm(line, i, j, k, l)
        && MatchPerfLine(line).value == (line[i..j], line[k..l])
  {
    if MatchPerfLine(line).Some? {
      var i := Span(line, 0, IsSpace);
      var j := Span(line, i, IsCountChar);
      var k := Span(line, j, IsSpace);
      var l := Span(line, k, IsEventChar);
      assert PerfLineForm(line, i, j, k, l);
    }
  }

  lemma PerfLineComplete(line: string, i: nat, j: nat, k: nat, l: nat)
    requires PerfLineForm(line, i, j, k, l)
    ensures MatchPerfLine(line) == Some((line[i..j], line[k..l]))
  {
    SpanStops(line, 0, i, IsSpace);
    SpanStops(line, i, j, IsCountChar);
    SpanStops(line, j, k, IsSpace);
    SpanStops(line, k, l, IsEventChar);
  }

  /** `raw_event.strip("/").split("/")[-1]`. */
  function BaseEvent(e: string): (b: string)
    ensures '/' !in b
  {
    var parts := Split(StripBy(e, c => c == '/'), '/');
    parts[|parts| - 1]
  }

  /** `float(raw_value.replace(",", ""))` on a matched count; a count of
      commas only is not a number. */
  function CountValue(v: string): (r: Option<real>)
    requires forall x | 0 <= x < |v| :: IsCountChar(v[x])
    ensures r.Some? ==> r.value >= 0.0
  {
    var d := Remove(v, ',');
    assert AllDigits(d) by {
      forall x | 0 <= x < |d| ensures IsDigit(d[x]) {
        assert d[x] in d;
        assert d[x] in v;
        var y :| 0 <= y < |v| && v[y] == d[x];
        assert IsCountChar(v[y]) && d[x] != ',';
      }
    }
    if d == [] then None else Some(DigitsValue(d) as real)
  }

  /** What one line contributes to the totals: its base event and count,
      when it matches, its count is a number and its event is requested. */
  function LineCount(line: string, events: seq<string>): (r: Option<(string, real)>)
    ensures r.Some? ==> r.value.0 in events && r.value.1 >= 0.0
  {
    match MatchPerfLine(line)
    case None => None
    case Some(g) => GroupCount(g.0, g.1, events)
  }

  /** What the matched groups of a line contribute. */
  function GroupCount(rawValue: string, rawEvent: string, events: seq<string>): (r: Option<(string, real)>)
    requires forall x | 0 <= x < |rawValue| :: IsCountChar(rawValue[x])
    ensures r.Some? ==> r.value.0 in events && r.value.1 >= 0.0
  {
    Contribution(CountValue(rawValue), BaseEvent(rawEvent), events)
  }

  /** A converted count towards `base`, kept when that event was requested. */
  function Contribution(count: Option<real>, base: string, events: seq<string>): (r: Option<(string, real)>)
    requires count.Some? ==> count.value >= 0.0
    ensures r.Some? ==> r.value.0 in events && r.value.1 >= 0.0
  {
    if count.Some? && base in events then Some((base, count.value)) else None
  }

  /** What each line contributes, in order. */
  function Counts(lines: seq<string>, events: seq<string>): (cs: seq<Option<(string, real)>>)
    ensures |cs| == |lines|
    ensures forall n | 0 <= n < |lines| :: cs[n] == LineCount(lines[n], events)
  {
    if lines == [] then [] else Counts(lines[..|lines| - 1], events) + [LineCount(lines[|lines| - 1], events)]
  }

  function GetOr0(m: map<string, real>, k: string): real {
    if k in m then m[k] else 0.0
  }

  /** The totals after one more contribution. */
  function TallyStep(accum: map<string, real>, c: Option<(string, real)>): map<string, real> {
    match c
    case None => accum
    case Some(bc) => accum[bc.0 := GetOr0(accum, bc.0) + bc.1]
  }

  /** The totals after the contributions, in order. */
  function Tally(cs: seq<Option<(string, real)>>): map<string, real> {
    if cs == [] then map[] else TallyStep(Tally(cs[..|cs| - 1]), cs[|cs| - 1])
  }

  /** The CPI entry, added when cycles and a non-zero instruction count are
      both present. */
  function WithCpi(accum: map<string, real>): map<string, real> {
    if "cycles" in accum && "instructions" in accum && accum["instructions"] != 0.0
    then accum["CPI" := accum["cycles"] / accum["instructions"]]
    else accum
  }

  /** `perf_parse(stderr, events)`. */
  function PerfParsed(stderr: string, events: seq<string>): map<string, real> {
    WithCpi(Tally(Counts(SplitLines(stderr), events)))
  }

  /** The body of `perf_parse`'s loop once a line has matched: convert the
      count, reduce the event to its base name and add the count when that
      event was requested. */
  method AddGroup(accum: map<string, real>, rawValue: string, rawEvent: string, events: seq<string>)
    returns (r: map<string, real>)
    requires forall x | 0 <= x < |rawValue| :: IsCountChar(rawValue[x])
    ensures r == TallyStep(accum, GroupCount(rawValue, rawEvent, events))
  {
    var count := CountValue(rawValue);
    var base := BaseEvent(rawEvent);
    r := AddCount(accum, count, base, events);
  }

  method AddCount(accum: map<string, real>, count: Option<real>, base: string, events: seq<string>)
    returns (r: map<string, real>)
    requires count.Some? ==> count.value >= 0.0
    ensures r == TallyStep(accum, Contribution(count, base, events))
  {
    r := accum;
    if count.Some? && base in events {
      r := r[base := GetOr0(r, base) + count.value];
    }
  }

  /** The body of `perf_parse`'s loop. */
  method AddLine(accum: map<string, real>, line: string, events: seq<string>) returns (r: map<string, real>)
    ensures r == TallyStep(accum, LineCount(line, events))
  {
    r := accum;
    var m := MatchPerfLine(line);
    if m.Some? {
      r := AddGroup(accum, m.value.0, m.value.1, events);
    }
  }

  /** `perf_parse(stderr, events)`: the accumulating loop over the lines,
      then the CPI entry. */
  method PerfParse(stderr: string, events: seq<string>) returns (accum: map<string, real>)
    ensures accum == PerfParsed(stderr, events)
  {
    accum := TallyLines(SplitLines(stderr), events);
    if "cycles" in accum && "instructions" in accum && accum["instructions"] != 0.0 {
      accum := accum["CPI" := accum["cycles"] / accum["instructions"]];
    }
  }

  /** The accumulating loop of `perf_parse`. */
  method TallyLines(lines: seq<string>, events: seq<string>) returns (accum: map<string, real>)
    ensures accum == Tally(Counts(lines, events))
  {
    accum := map[];
    var i := 0;
    while i < |lines|
      invariant 0 <= i <= |lines|
      invariant accum == Tally(Counts(lines[..i], events))
    {
      CountsSnoc(lines, i, events);
      accum := AddLine(accum, lines[i], events);
      i := i + 1;
    }
    assert lines[..|lines|] == lines;
  }

  lemma CountsSnoc(lines: seq<string>, i: nat, events: seq<string>)
    requires i < |lines|
    ensures Tally(Counts(lines[..i + 1], events)) == TallyStep(Tally(Counts(lines[..i], events)), LineCount(lines[i], events))
  {
    assert lines[..i + 1][..i] == lines[..i];
  }

  /** Whether some contribution is towards `e`. */
  predicate Seen(cs: seq<Option<(string, real)>>, e: string) {
    exists n | 0 <= n < |cs| :: cs[n].Some? && cs[n].value.0 == e
  }

  /** The sum of the contributions towards `e`. */
  function Total(cs: seq<Option<(string, real)>>, e: string): real {
    if cs == [] then 0.0
    else
      var c := cs[|cs| - 1];
      Total(cs[..|cs| - 1], e) + (if c.Some? && c.value.0 == e then c.value.1 else 0.0)
  }

  /** One more contribution is seen towards `e` exactly when the earlier
      ones were or the new one is towards it. */
  lemma SeenSnoc(cs: seq<Option<(string, real)>>, e: string)
    requires cs != []
    ensures var c := cs[|cs| - 1];
      Seen(cs, e) <==> Seen(cs[..|cs| - 1], e) || (c.Some? && c.value.0 == e)
  {
    var front := cs[..|cs| - 1];
    if Seen(front, e) {
      var n :| 0 <= n < |front| && front[n].Some? && front[n].value.0 == e;
      assert cs[n] == front[n];
    }
    if Seen(cs, e) {
      var n :| 0 <= n < |cs| && cs[n].Some? && cs[n].value.0 == e;
      if n < |front| {
        assert front[n] == cs[n];
      }
    }
  }

  /** Counts of one base event are summed: an event has a total exactly when
      some contribution is towards it, and the total is their sum. */
  lemma {:induction false} TallyTotals(cs: seq<Option<(string, real)>>, e: string)
    ensures e in Tally(cs) <==> Seen(cs, e)
    ensures e in Tally(cs) ==> Tally(cs)[e] == Total(cs, e)
    ensures !Seen(cs, e) ==> Total(cs, e) == 0.0
  {
    if cs != [] {
      TallyTotals(cs[..|cs| - 1], e);
      SeenSnoc(cs, e);
    }
  }

  /** Counts of one base event are summed over all lines, and only requested
      events have a total. */
  lemma PerfTotals(lines: seq<string>, events: seq<string>, e: string)
    ensures var cs := Counts(lines, events);
      (e in Tally(cs) <==> Seen(cs, e))
      && (e in Tally(cs) ==> e in events && Tally(cs)[e] == Total(cs, e))
  {
    var cs := Counts(lines, events);
    TallyTotals(cs, e);
    if Seen(cs, e) {
      var n :| 0 <= n < |cs| && cs[n].Some? && cs[n].value.0 == e;
      assert cs[n] == LineCount(lines[n], events);
    }
  }

  /** `perf_parse` reports requested events and CPI only. */
  lemma PerfKeys(stderr: string, events: seq<string>)
    ensures forall k | k in PerfParsed(stderr, events) :: k in events || k == "CPI"
  {
    forall k | k in PerfParsed(stderr, events) && k != "CPI" ensures k in events {
      PerfTotals(SplitLines(stderr), events, k);
    }
  }

  /** CPI is reported exactly when cycles and instructions were both counted
      and the instruction total is non-zero; it is their ratio. */
  lemma PerfCpi(stderr: string, events: seq<string>)
    requires "CPI" !in events
    ensures var cs := Counts(SplitLines(stderr), events);
      var parsed := PerfParsed(stderr, events);
      ("CPI" in parsed <==> Seen(cs, "cycles") && Seen(cs, "instructions") && Total(cs, "instructions") != 0.0)
      && ("CPI" in parsed ==> parsed["CPI"] == Total(cs, "cycles") / Total(cs, "instructions"))
  {
    var lines := SplitLines(stderr);
    PerfTotals(lines, events, "cycles");
    PerfTotals(lines, events, "instructions");
    PerfTotals(lines, events, "CPI");
  }

  /** A line `<count> <event>` whose count has count characters only and
      whose event has event characters only matches with those groups. */
  lemma PerfLineOf(line: string, count: string, event: string)
    requires count != [] && forall x | 0 <= x < |count| :: IsCountChar(count[x])
    requires event != [] && forall x | 0 <= x < |event| :: IsEventChar(event[x])
    requires line == count + " " + event
    ensures MatchPerfLine(line) == Some((count, event))
  {
    var j := |count|;
    assert line[..j] == count && line[j + 1..] == event && line[j] == ' ';
    forall x | 0 <= x < j ensures IsCountChar(line[x]) { assert line[x] == count[x]; }
    forall x | j + 1 <= x < |line| ensures IsEventChar(line[x]) { assert line[x] == event[x - j - 1]; }
    assert IsSpace(line[j]);
    assert PerfLineForm(line, 0, j, j + 1, |line|);
    PerfLineComplete(line, 0, j, j + 1, |line|);
    assert line[0..j] == count && line[j + 1..|line|] == event;
  }

  /** An event name without a `/` is its own base name. */
  lemma BaseOfPlain(e: string)
    requires '/' !in e
    ensures BaseEvent(e) == e
  {
    assert StripBy(e, c => c == '/') == e;
  }

  /** Two lines joined by a line break split back into those two lines. */
  lemma TwoLines(text: string, a: string, b: string)
    requires '\n' !in a && '\n' !in b && b != ""
    requires text == a + "\n" + b
    ensures SplitLines(text) == [a, b]
  {
    assert Join([a, b], "\n") == text;
    SplitJoin([a, b], '\n');
  }

  /** The totals of two contributions of distinct events. */
  lemma TallyTwo(e1: string, v1: real, e2: string, v2: real)
    requires e1 != e2
    ensures Tally([Some((e1, v1)), Some((e2, v2))]) == map[e1 := v1, e2 := v2]
  {
    var cs := [Some((e1, v1)), Some((e2, v2))];
    assert cs[..1] == [cs[0]] && cs[..1][..0] == [];
    assert Tally(cs[..1]) == map[e1 := v1];
    assert GetOr0(map[e1 := v1], e2) == 0.0;
  }

  /** Digit groups joined by a comma are a count; the comma disappears when
      the count is converted. */
  lemma CountJoin(a: string, b: string)
    requires forall x | 0 <= x < |a| :: IsCountChar(a[x])
    requires forall x | 0 <= x < |b| :: IsCountChar(b[x])
    ensures forall x | 0 <= x < |a + "," + b| :: IsCountChar((a + "," + b)[x])
    ensures Remove(a + "," + b, ',') == Remove(a, ',') + Remove(b, ',')
  {
    var t := a + "," + b;
    forall x | 0 <= x < |t| ensures IsCountChar(t[x]) {
      if x < |a| { assert t[x] == a[x]; }
      else if x > |a| { assert t[x] == b[x - |a| - 1]; }
    }
    RemoveAppend(a + ",", b, ',');
    RemoveAppend(a, ",", ',');
    assert Remove(",", ',') == [] by { assert ","[1..] == []; }
    assert Remove(a + ",", ',') == Remove(a, ',');
  }

  lemma DigitsCount(a: string)
    requires AllDigits(a)
    ensures forall x | 0 <= x < |a| :: IsCountChar(a[x])
    ensures Remove(a, ',') == a
  {
    assert ',' !in a;
    RemoveAbsent(a, ',');
  }

  /** What a line `<count> <event>` contributes when the event is requested
      and plain. */
  lemma LineCountOf(line: string, count: string, event: string, events: seq<string>, v: real)
    requires count != [] && forall x | 0 <= x < |count| :: IsCountChar(count[x])
    requires event != [] && forall x | 0 <= x < |event| :: IsEventChar(event[x])
    requires line == count + " " + event && '/' !in event && event in events
    requires CountValue(count) == Some(v)
    ensures LineCount(line, events) == Some((event, v))
  {
    PerfLineOf(line, count, event);
    BaseOfPlain(event);
  }

  /** Lower-case ASCII words are plain event names. */
  lemma LowerEvent(e: string)
    requires forall x | 0 <= x < |e| :: 'a' <= e[x] <= 'z'
    ensures forall x | 0 <= x < |e| :: IsEventChar(e[x])
    ensures '/' !in e
  {
  }

  /** `perf stat` output with one line counting cycles and one counting
      instructions: both totals, and CPI as their ratio. */
  lemma PerfCyclesInstructions(stderr: string, events: seq<string>, a: string, b: string)
    requires a != [] && forall x | 0 <= x < |a| :: IsCountChar(a[x])
    requires b != [] && forall x | 0 <= x < |b| :: IsCountChar(b[x])
    requires CountValue(a).Some? && CountValue(b).Some? && CountValue(b).value != 0.0
    requires "cycles" in events && "instructions" in events
    requires stderr == a + " cycles\n" + b + " instructions"
    ensures PerfParsed(stderr, events)
      == map["cycles" := CountValue(a).value, "instructions" := CountValue(b).value,
             "CPI" := CountValue(a).value / CountValue(b).value]
  {
    var l1, l2 := CyclesInstructionsLines(stderr, a, b);
    CountLine(l1, a, "cycles", events);
    CountLine(l2, b, "instructions", events);
    PerfTwoLines(stderr, events, l1, l2, CountValue(a).value, CountValue(b).value);
  }

  lemma CyclesInstructionsLines(stderr: string, a: string, b: string) returns (l1: string, l2: string)
    requires forall x | 0 <= x < |a| :: IsCountChar(a[x])
    requires forall x | 0 <= x < |b| :: IsCountChar(b[x])
    requires stderr == a + " cycles\n" + b + " instructions"
    ensures l1 == a + " " + "cycles" && l2 == b + " " + "instructions"
    ensures SplitLines(stderr) == [l1, l2]
  {
    l1, l2 := a + " " + "cycles", b + " " + "instructions";
    assert stderr == l1 + "\n" + l2;
    assert '\n' !in l1 by { NoBreak(a, "cycles"); }
    assert '\n' !in l2 by { NoBreak(b, "instructions"); }
    TwoLines(stderr, l1, l2);
  }

  lemma NoBreak(a: string, e: string)
    requires forall x | 0 <= x < |a| :: IsCountChar(a[x])
    requires forall x | 0 <= x < |e| :: 'a' <= e[x] <= 'z'
    ensures '\n' !in a + " " + e
  {
    var l := a + " " + e;
    forall x | 0 <= x < |l| ensures l[x] != '\n' {
      if x < |a| { assert l[x] == a[x]; }
      else if x > |a| { assert l[x] == e[x - |a| - 1]; }
    }
  }

  lemma CountLine(line: string, count: string, event: string, events: seq<string>)
    requires count != [] && forall x | 0 <= x < |count| :: IsCountChar(count[x])
    requires event == "cycles" || event == "instructions"
    requires event in events && CountValue(count).Some?
    requires line == count + " " + event
    ensures LineCount(line, events) == Some((event, CountValue(count).value))
  {
    if event == "cycles" { LowerEvent(event); } else { LowerEvent(event); }
    LineCountOf(line, count, event, events, CountValue(count).value);
  }

  /** `perf stat` reporting a million cycles and half a million instructions:
      the commas are dropped from both counts and CPI is 2. */
  lemma PerfExample(stderr: string, events: seq<string>, a: string, b: string)
    requires a == "1,000,000" && b == "500,000"
    requires stderr == a + " cycles\n" + b + " instructions"
    requires events == ["cycles", "instructions"]
    ensures PerfParsed(stderr, events) == map["cycles" := 1000000.0, "instructions" := 500000.0, "CPI" := 2.0]
  {
    MillionCount(a);
    HalfMillionCount(b);
    PerfCyclesInstructions(stderr, events, a, b);
  }

  /** The result for two lines counting cycles and instructions, in that
      order. */
  lemma PerfTwoLines(stderr: string, events: seq<string>, l1: string, l2: string, v1: real, v2: real)
    requires SplitLines(stderr) == [l1, l2] && v2 != 0.0
    requires LineCount(l1, events) == Some(("cycles", v1))
    requires LineCount(l2, events) == Some(("instructions", v2))
    ensures PerfParsed(stderr, events) == map["cycles" := v1, "instructions" := v2, "CPI" := v1 / v2]
  {
    CountsTwo(l1, l2, events);
    TallyTwo("cycles", v1, "instructions", v2);
    CpiOfTwo(v1, v2);
  }

  lemma CountsTwo(l1: string, l2: string, events: seq<string>)
    ensures Counts([l1, l2], events) == [LineCount(l1, events), LineCount(l2, events)]
  {
    assert [l1, l2][..1] == [l1];
    assert [l1][..0] == [];
  }

  lemma CpiOfTwo(v1: real, v2: real)
    requires v2 != 0.0
    ensures WithCpi(map["cycles" := v1, "instructions" := v2]) == map["cycles" := v1, "instructions" := v2, "CPI" := v1 / v2]
  {
  }

  lemma MillionCount(v: string)
    requires v == "1,000,000"
    ensures forall x | 0 <= x < |v| :: IsCountChar(v[x])
    ensures CountValue(v) == Some(1000000.0)
  {
    var a, b, c := "1", "000", "000";
    assert v == (a + "," + b) + "," + c;
    CountOfJoin3(a, b, c, v);
    MillionDigits(a + b + c);
  }

  /** Three digit groups joined by commas read as the digits together. */
  lemma CountOfJoin3(a: string, b: string, c: string, v: string)
    requires a != [] && AllDigits(a) && AllDigits(b) && AllDigits(c) && v == (a + "," + b) + "," + c
    ensures forall x | 0 <= x < |v| :: IsCountChar(v[x])
    ensures AllDigits(a + b + c) && CountValue(v) == Some(DigitsValue(a + b + c) as real)
  {
    DigitsCount(a);
    DigitsCount(b);
    DigitsCount(c);
    CountJoin(a, b);
    CountJoin(a + "," + b, c);
    DigitsJoin(a, b);
    DigitsJoin(a + b, c);
  }

  /** Two digit groups joined by a comma read as the digits together. */
  lemma CountOfJoin(a: string, b: string, v: string)
    requires a != [] && AllDigits(a) && AllDigits(b) && v == a + "," + b
    ensures forall x | 0 <= x < |v| :: IsCountChar(v[x])
    ensures AllDigits(a + b) && CountValue(v) == Some(DigitsValue(a + b) as real)
  {
    DigitsCount(a);
    DigitsCount(b);
    CountJoin(a, b);
    DigitsJoin(a, b);
  }

  lemma HalfMillionCount(v: string)
    requires v == "500,000"
    ensures forall x | 0 <= x < |v| :: IsCountChar(v[x])
    ensures CountValue(v) == Some(500000.0)
  {
    var a, b := "500", "000";
    assert v == a + "," + b;
    CountOfJoin(a, b, v);
    HalfMillionDigits(a + b);
  }

  lemma MillionDigits(s: string)
    requires s == "1000000"
    ensures AllDigits(s) && DigitsValue(s) == 1000000
  {
    assert s[..6] == "100000" && "100000"[..5] == "10000" && "10000"[..4] == "1000";
    assert "1000"[..3] == "100" && "100"[..2] == "10" && "10"[..1] == "1" && "1"[..0] == "";
  }

  lemma HalfMillionDigits(s: string)
    requires s == "500000"
    ensures AllDigits(s) && DigitsValue(s) == 500000
  {
    assert s[..5] == "50000" && "50000"[..4] == "5000";
    assert "5000"[..3] == "500" && "500"[..2] == "50" && "50"[..1] == "5" && "5"[..0] == "";
  }

  // ---------------------------------------------------------------------------
  // _parse_num
  // ---------------------------------------------------------------------------

  /** The class `[.' ]` of thousands separators. */
  predicate IsSep(c: char) { c == '.' || c == '\'' || c == '\U{202F}' }

  /** `_SEP_RE` matches at `p`: a separator after a digit and before exactly
      three digits that end at a word boundary. */
  predicate SepAt(t: string, p: nat)
    requires p < |t|
  {
    IsSep(t[p]) && 0 < p && IsDigit(t[p - 1])
    && p + 3 < |t| && IsDigit(t[p + 1]) && IsDigit(t[p + 2]) && IsDigit(t[p + 3])
    && (p + 4 == |t| || !IsWordChar(t[p + 4]))
  }

  /** The characters of `t[p..]` that `_SEP_RE` does not match. The
      lookarounds always look at the original text, so each position is
      decided on its own. */
  function KeepFrom(t: string, p: nat): (r: string)
    requires p <= |t|
    ensures |r| <= |t| - p
    decreases |t| - p
  {
    if p == |t| then []
    else (if SepAt(t, p) then [] else [t[p]]) + KeepFrom(t, p + 1)
  }

  /** `_SEP_RE.sub("", t)`. */
  function Unseparated(t: string): string { KeepFrom(t, 0) }

  /** `_DEC_COMMA`: digits, one comma, digits, and nothing else; the comma
      becomes a decimal point. */
  function DecComma(t: string): (r: string)
    ensures ',' !in t ==> r == t
  {
    if ',' !in t then t
    else
      var k := IndexOf(t, ',');
      var a, b := t[..k], t[k + 1..];
      if a != [] && AllDigits(a) && b != [] && AllDigits(b) then a + "." + b else t
  }

  /** The value of the digits before the point (none is zero) ... */
  function IntegerValue(a: string): real
    requires a == [] || DigitPart(a)
  {
    if a == [] then 0.0 else DigitsValue(PartDigits(a)) as real
  }

  /** Digits after a decimal point: the value `0.d`, which lies in
      `[0, 1)`. */
  function Fraction(d: string): (r: real)
    requires AllDigits(d)
    ensures 0.0 <= r < 1.0
  {
    if d == [] then 0.0 else (DigitValue(d[0]) as real + Fraction(d[1..])) / 10.0
  }

  /** ... and after it, read as a decimal fraction. */
  function FractionValue(b: string): (r: real)
    requires b == [] || DigitPart(b)
    ensures 0.0 <= r
  {
    if b == [] then 0.0 else Fraction(PartDigits(b))
  }

  /** `float(t)` without sign on the forms `digits`, `digits.`, `.digits` and
      `digits.digits`. */
  function UnsignedValue(t: string): (r: Option<real>)
    ensures r.Some? ==> r.value >= 0.0
  {
    if '.' !in t then
      if DigitPart(t) then Some(IntegerValue(t)) else None
    else
      var k := IndexOf(t, '.');
      var a, b := t[..k], t[k + 1..];
      if (a != [] || b != []) && (a == [] || DigitPart(a)) && (b == [] || DigitPart(b))
      then Some(IntegerValue(a) + FractionValue(b))
      else None
  }

  /** `float(t)` on an optionally signed decimal; anything else is refused. */
  function ParseFloat(t: string): Option<real> {
    if t != [] && (t[0] == '+' || t[0] == '-') then
      match UnsignedValue(t[1..])
      case None => None
      case Some(v) => Some(if t[0] == '-' then -v else v)
    else UnsignedValue(t)
  }

  /** `_parse_num(text)`: strip, drop thousands separators, turn a decimal
      comma into a point, then read the number. */
  function ParseNum(text: string): Option<real> {
    ParseFloat(DecComma(Unseparated(Strip(text))))
  }

  // Properties of `_parse_num`

  /** Text without surrounding white space is left alone by `strip()`. */
  lemma StripUnspaced(s: string)
    requires s != [] && !IsSpace(s[0]) && !IsSpace(s[|s| - 1])
    ensures Strip(s) == s
  {
  }

  /** A run of characters that are no separators is kept as it is. */
  lemma {:induction false} KeepRun(t: string, p: nat, q: nat)
    requires p <= q <= |t|
    requires forall x | p <= x < q :: !IsSep(t[x])
    ensures KeepFrom(t, p) == t[p..q] + KeepFrom(t, q)
    decreases q - p
  {
    if p < q {
      KeepRun(t, p + 1, q);
      assert KeepFrom(t, p) == [t[p]] + KeepFrom(t, p + 1);
      assert t[p..q] == [t[p]] + t[p + 1..q];
      AppendAssociative([t[p]], t[p + 1..q], KeepFrom(t, q));
    }
  }

  lemma KeepAll(t: string)
    requires forall x | 0 <= x < |t| :: !IsSep(t[x])
    ensures Unseparated(t) == t
  {
    KeepRun(t, 0, |t|);
  }

  /** A character that is no separator survives the substitution. */
  lemma {:induction false} KeepHas(t: string, p: nat, x: nat)
    requires p <= x < |t| && !IsSep(t[x])
    ensures t[x] in KeepFrom(t, p)
    decreases x - p
  {
    if p < x {
      KeepHas(t, p + 1, x);
    }
  }

  /** A digit string is a digit part whose digits are itself. */
  lemma DigitsArePart(s: string)
    requires s != [] && AllDigits(s)
    ensures DigitPart(s) && PartDigits(s) == s
    ensures IntegerValue(s) == DigitsValue(s) as real
    ensures FractionValue(s) == Fraction(s)
  {
    DigitsPart(s);
  }

  /** Plain digits read as the number they denote. */
  lemma FloatOfDigits(s: string)
    requires s != [] && AllDigits(s)
    ensures ParseFloat(s) == Some(DigitsValue(s) as real)
  {
    DigitsArePart(s);
    assert '.' !in s;
  }

  /** How `float` reads text around its first point. */
  lemma UnsignedAtPoint(a: string, b: string)
    requires '.' !in a
    ensures UnsignedValue(a + "." + b) ==
      if (a != [] || b != []) && (a == [] || DigitPart(a)) && (b == [] || DigitPart(b))
      then Some(IntegerValue(a) + FractionValue(b))
      else None
  {
    var t := a + "." + b;
    IndexOfPrefix(a, '.', b);
    assert t[..|a|] == a && t[|a| + 1..] == b;
  }

  /** Text that starts with a digit has no sign. */
  lemma Unsigned(t: string)
    requires t != [] && IsDigit(t[0])
    ensures ParseFloat(t) == UnsignedValue(t)
  {
  }

  lemma UnsignedDecimal(a: string, b: string)
    requires a != [] && AllDigits(a) && b != [] && AllDigits(b)
    ensures UnsignedValue(a + "." + b) == Some(DigitsValue(a) as real + Fraction(b))
  {
    assert '.' !in a;
    DigitsArePart(a);
    DigitsArePart(b);
    UnsignedAtPoint(a, b);
  }

  /** A decimal point between digits. */
  lemma FloatOfDecimal(a: string, b: string)
    requires a != [] && AllDigits(a) && b != [] && AllDigits(b)
    ensures ParseFloat(a + "." + b) == Some(DigitsValue(a) as real + Fraction(b))
  {
    var t := a + "." + b;
    assert t[0] == a[0];
    Unsigned(t);
    UnsignedDecimal(a, b);
  }

  /** A digit string reads as its value. */
  lemma ParseNumDigits(s: string)
    requires s != [] && AllDigits(s)
    ensures ParseNum(s) == Some(DigitsValue(s) as real)
  {
    StripUnspaced(s);
    KeepAll(s);
    assert ',' !in s;
    FloatOfDigits(s);
  }

  /** Unfolds `_parse_num` into its four stages. */
  lemma Stages(text: string, s: string, u: string, v: string)
    requires Strip(text) == s && Unseparated(s) == u && DecComma(u) == v
    ensures ParseNum(text) == ParseFloat(v)
  {
  }

  /** White space around a cell does not change the number read from it. */
  lemma ParseNumPadded(w: string, t: string, v: string)
    requires Blank(w) && Blank(v)
    ensures ParseNum(w + t + v) == ParseNum(t)
  {
    StripPadding(w, t, v);
  }

  lemma StripBetweenDigits(a: string, m: string, b: string)
    requires a != [] && AllDigits(a) && b != [] && AllDigits(b)
    ensures Strip(a + m + b) == a + m + b
  {
    var t := a + m + b;
    assert t[0] == a[0] && t[|t| - 1] == b[|b| - 1];
    StripUnspaced(t);
  }

  /** Digits on both sides of one character: only that character can be a
      separator. */
  lemma KeepAround(a: string, c: char, b: string)
    requires AllDigits(a) && AllDigits(b)
    ensures Unseparated(a + [c] + b) == a + (if SepAt(a + [c] + b, |a|) then [] else [c]) + b
  {
    var t := a + [c] + b;
    assert forall x | 0 <= x < |a| :: t[x] == a[x];
    KeepRun(t, 0, |a|);
    assert forall x | |a| + 1 <= x < |t| :: t[x] == b[x - |a| - 1];
    KeepRun(t, |a| + 1, |t|);
    assert t[0..|a|] == a && t[|a| + 1..|t|] == b;
  }

  lemma NoComma(a: string, c: char, b: string)
    requires AllDigits(a) && AllDigits(b) && c != ','
    ensures ',' !in a + [c] + b
  {
    assert forall x | 0 <= x < |a + [c] + b| :: (a + [c] + b)[x] == c || IsDigit((a + [c] + b)[x]);
  }

  lemma DigitsJoin(a: string, b: string)
    requires AllDigits(a) && AllDigits(b)
    ensures AllDigits(a + b) && ',' !in a + b
  {
    assert forall x | 0 <= x < |a + b| :: IsDigit((a + b)[x]);
  }

  lemma DecCommaBetween(a: string, b: string)
    requires a != [] && AllDigits(a) && b != [] && AllDigits(b)
    ensures DecComma(a + "," + b) == a + "." + b
  {
    var t := a + "," + b;
    assert ',' !in a;
    IndexOfPrefix(a, ',', b);
    assert t[..|a|] == a && t[|a| + 1..] == b;
  }

  /** A decimal comma between digits reads as a decimal point, whatever the
      number of digits after it: `"3,5"` is 3.5 and `"1,234"` is 1.234. */
  lemma ParseNumDecimalComma(a: string, b: string)
    requires a != [] && AllDigits(a) && b != [] && AllDigits(b)
    ensures ParseNum(a + "," + b) == Some(DigitsValue(a) as real + Fraction(b))
  {
    var t := a + "," + b;
    StripBetweenDigits(a, ",", b);
    KeepAround(a, ',', b);
    DecCommaBetween(a, b);
    Stages(t, t, t, a + "." + b);
    FloatOfDecimal(a, b);
  }

  lemma PointNotSep(a: string, b: string)
    requires AllDigits(b) && |b| != 3
    ensures !SepAt(a + "." + b, |a|)
  {
    var t := a + "." + b;
    if |b| > 3 {
      assert t[|a| + 4] == b[3];
    }
  }

  /** A point that is not followed by exactly three digits is a decimal
      point: `"3.5"` is 3.5. */
  lemma ParseNumDecimalPoint(a: string, b: string)
    requires a != [] && AllDigits(a) && b != [] && AllDigits(b) && |b| != 3
    ensures ParseNum(a + "." + b) == Some(DigitsValue(a) as real + Fraction(b))
  {
    var t := a + "." + b;
    StripBetweenDigits(a, ".", b);
    PointNotSep(a, b);
    KeepAround(a, '.', b);
    NoComma(a, '.', b);
    Stages(t, t, t, t);
    FloatOfDecimal(a, b);
  }

  lemma ThousandsSep(a: string, c: char, b: string)
    requires a != [] && AllDigits(a) && IsSep(c) && |b| == 3 && AllDigits(b)
    ensures SepAt(a + [c] + b, |a|)
  {
    var t := a + [c] + b;
    assert t[|a| - 1] == a[|a| - 1];
    assert t[|a| + 1] == b[0] && t[|a| + 2] == b[1] && t[|a| + 3] == b[2];
  }

  /** A separator before exactly three final digits is a thousands
      separator: `"1.234"`, `"1'234"` and `"1 234"` (narrow no-break space)
      are all 1234. */
  lemma ParseNumThousands(a: string, c: char, b: string)
    requires a != [] && AllDigits(a) && IsSep(c) && |b| == 3 && AllDigits(b)
    ensures AllDigits(a + b)
    ensures ParseNum(a + [c] + b) == Some(DigitsValue(a + b) as real)
  {
    var t := a + [c] + b;
    StripBetweenDigits(a, [c], b);
    ThousandsSep(a, c, b);
    KeepAround(a, c, b);
    DigitsJoin(a, b);
    Stages(t, t, a + b, a + b);
    FloatOfDigits(a + b);
  }

  /** A character that no number contains: neither a digit, a sign, a point,
      a comma, an underscore, a separator nor white space. */
  predicate Foreign(c: char) {
    !IsDigit(c) && c != '+' && c != '-' && c != '.' && c != ',' && c != '_' && !IsSep(c) && !IsSpace(c)
  }

  lemma UnsignedRefuses(t: string, c: char)
    requires c in t && Foreign(c)
    ensures UnsignedValue(t) == None
  {
    if '.' in t {
      var k := IndexOf(t, '.');
      assert t == t[..k] + [t[k]] + t[k + 1..];
      if c in t[..k] {
        var x :| 0 <= x < k && t[..k][x] == c;
      } else {
        assert c in t[k + 1..];
        var x :| 0 <= x < |t[k + 1..]| && t[k + 1..][x] == c;
      }
    } else {
      var x :| 0 <= x < |t| && t[x] == c;
    }
  }

  lemma FloatRefuses(v: string, c: char)
    requires c in v && Foreign(c)
    ensures ParseFloat(v) == None
  {
    if v != [] && (v[0] == '+' || v[0] == '-') {
      assert v == [v[0]] + v[1..];
      UnsignedRefuses(v[1..], c);
    } else {
      UnsignedRefuses(v, c);
    }
  }

  /** What is not white space survives `strip()`. */
  lemma StripHas(text: string, x: nat)
    requires x < |text| && !IsSpace(text[x])
    ensures text[x] in Strip(text)
  {
    var t := Strip(text);
    var i := StripStart(text);
    assert i <= x < i + |t|;
    assert text[x] == t[x - i];
  }

  lemma UnseparatedHas(t: string, c: char)
    requires c in t && !IsSep(c)
    ensures c in Unseparated(t)
  {
    var x :| 0 <= x < |t| && t[x] == c;
    KeepHas(t, 0, x);
  }

  lemma DecCommaHas(u: string, c: char)
    requires c in u && c != ','
    ensures c in DecComma(u)
  {
    if ',' in u {
      var k := IndexOf(u, ',');
      var a, b := u[..k], u[k + 1..];
      assert u == a + [','] + b;
      if a != [] && AllDigits(a) && b != [] && AllDigits(b) {
        assert c in a || c in b;
      }
    }
  }

  /** Text holding a foreign character is no number. */
  lemma ParseNumRefuses(text: string, x: nat)
    requires x < |text| && Foreign(text[x])
    ensures ParseNum(text) == None
  {
    var c := text[x];
    var t := Strip(text);
    var u := Unseparated(t);
    var v := DecComma(u);
    StripHas(text, x);
    UnseparatedHas(t, c);
    DecCommaHas(u, c);
    Stages(text, t, u, v);
    FloatRefuses(v, c);
  }

  lemma TwoSeps(a: string, c: char, b: string, d: char, e: string)
    requires a != [] && AllDigits(a) && IsSep(c) && |b| == 3 && AllDigits(b)
    requires IsSep(d) && |e| == 3 && AllDigits(e)
    ensures SepAt(a + [c] + b + [d] + e, |a|) && SepAt(a + [c] + b + [d] + e, |a| + 4)
  {
    var t := a + [c] + b + [d] + e;
    var p, q := |a|, |a| + 4;
    assert t[p - 1] == a[p - 1];
    assert t[p + 1] == b[0] && t[p + 2] == b[1] && t[p + 3] == b[2] && t[p + 4] == d;
    assert t[q - 1] == b[2] && t[q + 1] == e[0] && t[q + 2] == e[1] && t[q + 3] == e[2];
  }

  /** A run of digits survives the substitution unchanged. */
  lemma KeepDigits(t: string, p: nat, q: nat)
    requires p <= q <= |t| && AllDigits(t[p..q])
    ensures KeepFrom(t, p) == t[p..q] + KeepFrom(t, q)
  {
    forall x | p <= x < q ensures !IsSep(t[x]) {
      assert t[x] == t[p..q][x - p];
    }
    KeepRun(t, p, q);
  }

  lemma KeepTwoGroups(a: string, c: char, b: string, d: char, e: string)
    requires a != [] && AllDigits(a) && IsSep(c) && |b| == 3 && AllDigits(b)
    requires IsSep(d) && |e| == 3 && AllDigits(e)
    ensures Unseparated(a + [c] + b + [d] + e) == a + b + e
  {
    var t := a + [c] + b + [d] + e;
    var p, q := |a|, |a| + 4;
    TwoSeps(a, c, b, d, e);
    assert t[0..p] == a && t[p + 1..q] == b && t[q + 1..|t|] == e;
    assert KeepFrom(t, p) == KeepFrom(t, p + 1) && KeepFrom(t, q) == KeepFrom(t, q + 1);
    KeepDigits(t, 0, p);
    KeepDigits(t, p + 1, q);
    KeepDigits(t, q + 1, |t|);
    assert KeepFrom(t, |t|) == [];
    assert Unseparated(t) == a + (b + (e + []));
  }

  /** Two thousands separators, as in `"1.234.567"`. */
  lemma ParseNumTwoGroups(a: string, c: char, b: string, d: char, e: string)
    requires a != [] && AllDigits(a) && IsSep(c) && |b| == 3 && AllDigits(b)
    requires IsSep(d) && |e| == 3 && AllDigits(e)
    ensures AllDigits(a + b + e)
    ensures ParseNum(a + [c] + b + [d] + e) == Some(DigitsValue(a + b + e) as real)
  {
    var t := a + [c] + b + [d] + e;
    assert t == a + ([c] + b + [d]) + e;
    StripBetweenDigits(a, [c] + b + [d], e);
    KeepTwoGroups(a, c, b, d, e);
    DigitsJoin(a, b);
    DigitsJoin(a + b, e);
    Stages(t, t, a + b + e, a + b + e);
    FloatOfDigits(a + b + e);
  }

  lemma ValueOf1234567()
    ensures DigitsValue("1234567") == 1234567
  {
    assert "1234567"[..6] == "123456" && "123456"[..5] == "12345" && "12345"[..4] == "1234";
    assert "1234"[..3] == "123" && "123"[..2] == "12" && "12"[..1] == "1" && "1"[..0] == "";
  }

  lemma ValueOf1234()
    ensures DigitsValue("1234") == 1234
  {
    assert "1234"[..3] == "123" && "123"[..2] == "12" && "12"[..1] == "1" && "1"[..0] == "";
  }

  /** `"1.234.567"`, `"1'234'567"` and the same with narrow no-break spaces
      are 1234567. */
  lemma GroupedExample(t: string, c: char)
    requires IsSep(c) && t == "1" + [c] + "234" + [c] + "567"
    ensures ParseNum(t) == Some(1234567.0)
  {
    var a, b, e := "1", "234", "567";
    assert a + b + e == "1234567";
    ValueOf1234567();
    ParseNumTwoGroups(a, c, b, c, e);
  }

  /** `"1.234"`, `"1'234"` and the same with a narrow no-break space are
      1234. */
  lemma ThousandsExample(t: string, c: char)
    requires IsSep(c) && t == "1" + [c] + "234"
    ensures ParseNum(t) == Some(1234.0)
  {
    var a, b := "1", "234";
    assert a + b == "1234";
    ValueOf1234();
    ParseNumThousands(a, c, b);
  }

  lemma ThreeAndAHalf()
    ensures DigitsValue("3") as real + Fraction("5") == 3.5
  {
    assert "3"[..0] == "" && "5"[1..] == "";
  }

  /** `"3,5"` and `"3.5"` are 3.5. */
  lemma DecimalExample(t: string, c: char)
    requires (c == ',' || c == '.') && t == "3" + [c] + "5"
    ensures ParseNum(t) == Some(3.5)
  {
    var a, b := "3", "5";
    ThreeAndAHalf();
    if c == ',' {
      ParseNumDecimalComma(a, b);
    } else {
      ParseNumDecimalPoint(a, b);
    }
  }

  /** `"abc"` is no number. */
  lemma RefusedExample(t: string)
    requires t == "abc"
    ensures ParseNum(t) == None
  {
    assert Foreign(t[0]);
    ParseNumRefuses(t, 0);
  }

  // ---------------------------------------------------------------------------
  // likwid_parse
  // ---------------------------------------------------------------------------

  /** `_ROW_RE.match(line)` with the label stripped: a row starts with `|`,
      its label runs to the next `|` and holds at least one character, and
      at least one character follows that `|`. */
  function MatchRow(line: string): (r: Option<(string, string)>)
    ensures r.Some? ==> '|' !in r.value.0 && r.value.1 != []
  {
    if line == [] || line[0] != '|' || '|' !in line[1..] then None
    else
      var j := 1 + IndexOf(line[1..], '|');
      if j > 1 && j + 1 < |line| then
        var head := line[1..j];
        assert head == line[1..][..j - 1];
        StripWithoutBar(head);
        Some((Strip(head), line[j + 1..]))
      else None
  }

  lemma StripWithoutBar(s: string)
    requires '|' !in s
    ensures '|' !in Strip(s)
  {
    Config.StripWithout(s, '|');
  }

  /** The state `likwid_parse` builds while scanning: the samples of each
      wanted metric and the averages of the STAT rows. */
  datatype Scan = Scan(perThread: map<string, seq<real>>, statAvg: map<string, real>)

  /** The names of the metric specs (`wanted`). */
  function Names(specs: seq<Config.MetricSpec>): (r: set<string>)
    ensures forall i | 0 <= i < |specs| :: specs[i].name in r
    ensures forall n | n in r :: exists i | 0 <= i < |specs| :: specs[i].name == n
  {
    set i | 0 <= i < |specs| :: specs[i].name
  }

  /** One empty bucket per wanted name. */
  function EmptyScan(names: set<string>): Scan {
    Scan(map n | n in names :: [], map[])
  }

  /** The samples of a row: every cell that is not blank and reads as a
      number, in order. */
  function CellSamples(cells: seq<string>): seq<real> {
    if cells == [] then [] else CellSamples(cells[..|cells| - 1]) + CellSample(cells[|cells| - 1])
  }

  /** The sample of one cell, if any. */
  function CellSample(c: string): seq<real> {
    if Strip(c) == "" then []
    else match ParseNum(c)
      case None => []
      case Some(v) => [v]
  }

  /** The average column of a STAT row: the fourth non-blank cell, when
      there are at least four and it reads as a number. */
  function StatAverage(cellsRaw: string): Option<real> {
    var cells := Config.NonBlank(Split(cellsRaw, '|'));
    if |cells| >= 4 then ParseNum(cells[3]) else None
  }

  predicate IsStatLabel(name: string) { EndsWith(name, "STAT") }

  /** The metric a STAT row is about: its label without `STAT`, stripped
      on the right. */
  function StatBase(name: string): string
    requires IsStatLabel(name)
  {
    RStrip(name[..|name| - 4])
  }

  /** The state after one line. */
  function ScanStep(sc: Scan, line: string, names: set<string>): Scan {
    match MatchRow(line)
    case None => sc
    case Some(row) => RowStep(sc, row.0, row.1, names)
  }

  /** The state after a table row with label `name`. */
  function RowStep(sc: Scan, name: string, cellsRaw: string, names: set<string>): Scan {
    if IsStatLabel(name) then StatStep(sc, StatBase(name), cellsRaw, names)
    else if name in names && name in sc.perThread then
      sc.(perThread := sc.perThread[name := sc.perThread[name] + CellSamples(Split(cellsRaw, '|'))])
    else sc
  }

  /** The state after a STAT row about `base`. */
  function StatStep(sc: Scan, base: string, cellsRaw: string, names: set<string>): Scan {
    if base !in names then sc
    else
      match StatAverage(cellsRaw)
      case None => sc
      case Some(v) => sc.(statAvg := sc.statAvg[base := v])
  }

  /** The state after the lines, in order. */
  function Scanned(lines: seq<string>, names: set<string>): Scan {
    if lines == [] then EmptyScan(names)
    else ScanStep(Scanned(lines[..|lines| - 1], names), lines[|lines| - 1], names)
  }

  const UnknownAgg := "Unknown agg mode '"

  /** `mean`, `max`, `min` or `median` of the samples, as `agg` says. */
  function Aggregate(agg: string, values: seq<real>): (r: Result<real>)
    requires values != []
    ensures r.Err? <==> agg !in {"avg", "max", "min", "median"}
    ensures r.Err? ==> r.error == UnknownAgg + agg + "'"
    ensures r.Ok? ==> Min(values) <= r.value <= Max(values)
  {
    MeanBounds(values);
    MedianBounds(values);
    if agg == "avg" then Ok(Mean(values))
    else if agg == "max" then Ok(Max(values))
    else if agg == "min" then Ok(Min(values))
    else if agg == "median" then Ok(Median(values))
    else Err(UnknownAgg + agg + "'")
  }

  function SamplesOf(sc: Scan, name: string): seq<real> {
    if name in sc.perThread then sc.perThread[name] else []
  }

  /** The result after one spec: the STAT average for `avg` when there is
      one, else the samples reduced, else nothing; then the variance when
      asked for and there are at least two samples. */
  function ReduceStep(result: map<string, real>, spec: Config.MetricSpec, sc: Scan): Result<map<string, real>> {
    var values := SamplesOf(sc, spec.name);
    var agg :- if spec.agg == "avg" && spec.name in sc.statAvg then Ok(Some(sc.statAvg[spec.name]))
               else if values != [] then (match Aggregate(spec.agg, values)
                                          case Err(e) => Err(e)
                                          case Ok(v) => Ok(Some(v)))
               else Ok(None);
    if agg.None? then Ok(result)
    else
      var r := result[spec.name := agg.value];
      if spec.withVariance && |values| > 1 then Ok(r[spec.name + "_var" := Variance(values)]) else Ok(r)
  }

  /** The result after the specs, in order. */
  function Reduced(specs: seq<Config.MetricSpec>, sc: Scan): Result<map<string, real>> {
    if specs == [] then Ok(map[])
    else
      var front :- Reduced(specs[..|specs| - 1], sc);
      ReduceStep(front, specs[|specs| - 1], sc)
  }

  /** `likwid_parse(out, specs)`. */
  function LikwidParsed(out: string, specs: seq<Config.MetricSpec>): Result<map<string, real>> {
    Reduced(specs, Scanned(SplitLines(out), Names(specs)))
  }

  /** The inner loop of `likwid_parse` over the cells of a per-thread row:
      the samples it appends. */
  method RowSamples(cells: seq<string>) returns (r: seq<real>)
    ensures r == CellSamples(cells)
  {
    r := [];
    var i := 0;
    while i < |cells|
      invariant 0 <= i <= |cells|
      invariant r == CellSamples(cells[..i])
    {
      assert cells[..i + 1][..i] == cells[..i];
      var add := CellOnce(cells[i]);
      r := r + add;
      i := i + 1;
    }
    assert cells[..|cells|] == cells;
  }

  /** One cell of a per-thread row: its number, when it is one. */
  method CellOnce(cell: string) returns (add: seq<real>)
    ensures add == CellSample(cell)
  {
    add := [];
    if Strip(cell) != "" {
      var v := ParseNum(cell);
      if v.Some? {
        add := [v.value];
      }
    }
  }

  /** The body of `likwid_parse`'s scanning loop. */
  method ScanLine(perThread: map<string, seq<real>>, statAvg: map<string, real>, line: string, names: set<string>)
    returns (perThread': map<string, seq<real>>, statAvg': map<string, real>)
    ensures Scan(perThread', statAvg') == ScanStep(Scan(perThread, statAvg), line, names)
  {
    perThread', statAvg' := perThread, statAvg;
    var m := MatchRow(line);
    if m.None? {
      return;
    }
    var name, cellsRaw := m.value.0, m.value.1;
    if IsStatLabel(name) {
      var base := StatBase(name);
      if base in names {
        var v := StatAverage(cellsRaw);
        if v.Some? {
          statAvg' := statAvg'[base := v.value];
        }
      }
      return;
    }
    if name in names && name in perThread' {
      var samples := RowSamples(Split(cellsRaw, '|'));
      perThread' := perThread'[name := perThread'[name] + samples];
    }
  }

  /** An error while reducing ends `likwid_parse`: it is the result. */
  lemma {:induction false} ReducedErrorStays(specs: seq<Config.MetricSpec>, k: nat, sc: Scan)
    requires k <= |specs| && Reduced(specs[..k], sc).Err?
    ensures Reduced(specs, sc) == Reduced(specs[..k], sc)
    decreases |specs| - k
  {
    if k < |specs| {
      assert specs[..k + 1][..k] == specs[..k];
      ReducedErrorStays(specs, k + 1, sc);
    } else {
      assert specs[..k] == specs;
    }
  }

  /** The scanning half of `likwid_parse`. */
  method ScanLines(out: string, names: set<string>) returns (perThread: map<string, seq<real>>, statAvg: map<string, real>)
    ensures Scan(perThread, statAvg) == Scanned(SplitLines(out), names)
  {
    var start := EmptyScan(names);
    perThread, statAvg := start.perThread, start.statAvg;
    var lines := SplitLines(out);
    var i := 0;
    while i < |lines|
      invariant 0 <= i <= |lines|
      invariant Scan(perThread, statAvg) == Scanned(lines[..i], names)
    {
      ScannedSnoc(lines, i, names);
      perThread, statAvg := ScanLine(perThread, statAvg, lines[i], names);
      i := i + 1;
    }
    assert lines[..|lines|] == lines;
  }

  lemma ScannedSnoc(lines: seq<string>, i: nat, names: set<string>)
    requires i < |lines|
    ensures Scanned(lines[..i + 1], names) == ScanStep(Scanned(lines[..i], names), lines[i], names)
  {
    assert lines[..i + 1][..i] == lines[..i];
  }

  /** `likwid_parse(out, specs)`: scan the lines, then reduce spec by spec. */
  method LikwidParse(out: string, specs: seq<Config.MetricSpec>) returns (r: Result<map<string, real>>)
    ensures r == LikwidParsed(out, specs)
  {
    var perThread, statAvg := ScanLines(out, Names(specs));
    ghost var sc := Scan(perThread, statAvg);
    var result: map<string, real> := map[];
    var k := 0;
    while k < |specs|
      invariant 0 <= k <= |specs|
      invariant Reduced(specs[..k], sc) == Ok(result)
    {
      assert specs[..k + 1][..k] == specs[..k];
      result, r := ReduceSpec(result, specs[k], perThread, statAvg);
      if r.Err? {
        ReducedErrorStays(specs, k + 1, sc);
        return;
      }
      k := k + 1;
    }
    assert specs[..|specs|] == specs;
    r := Ok(result);
  }

  /** The body of `likwid_parse`'s reducing loop; an error ends the loop. */
  method ReduceSpec(result: map<string, real>, spec: Config.MetricSpec, perThread: map<string, seq<real>>,
                    statAvg: map<string, real>)
    returns (result': map<string, real>, status: Result<map<string, real>>)
    ensures status.Ok? ==> status.value == result'
    ensures status == ReduceStep(result, spec, Scan(perThread, statAvg))
  {
    result' := result;
    var values := if spec.name in perThread then perThread[spec.name] else [];
    var aggVal: real;
    if spec.agg == "avg" && spec.name in statAvg {
      aggVal := statAvg[spec.name];
    } else if values != [] {
      if spec.agg == "avg" {
        aggVal := Mean(values);
      } else if spec.agg == "max" {
        aggVal := Max(values);
      } else if spec.agg == "min" {
        aggVal := Min(values);
      } else if spec.agg == "median" {
        aggVal := Median(values);
      } else {
        status := Err(UnknownAgg + spec.agg + "'");
        return;
      }
    } else {
      status := Ok(result');
      return;
    }
    result' := result'[spec.name := aggVal];
    if spec.withVariance && |values| > 1 {
      result' := result'[spec.name + "_var" := Variance(values)];
    }
    status := Ok(result');
  }

  // Properties of `likwid_parse`

  /** Every wanted name keeps a bucket, and only wanted names get a STAT
      average. */
  lemma {:induction false} ScannedKeys(lines: seq<string>, names: set<string>)
    ensures Scanned(lines, names).perThread.Keys == names
    ensures Scanned(lines, names).statAvg.Keys <= names
  {
    if lines != [] {
      ScannedKeys(lines[..|lines| - 1], names);
      ScanStepKeys(Scanned(lines[..|lines| - 1], names), lines[|lines| - 1], names);
    }
  }

  lemma ScanStepKeys(sc: Scan, line: string, names: set<string>)
    requires sc.perThread.Keys == names && sc.statAvg.Keys <= names
    ensures ScanStep(sc, line, names).perThread.Keys == names
    ensures ScanStep(sc, line, names).statAvg.Keys <= names
  {
  }

  /** A STAT row is handled by its base name alone. */
  lemma StatRowStep(sc: Scan, line: string, names: set<string>, name: string, cellsRaw: string)
    requires MatchRow(line) == Some((name, cellsRaw)) && IsStatLabel(name)
    ensures ScanStep(sc, line, names) == StatStep(sc, StatBase(name), cellsRaw, names)
  {
  }

  /** A STAT row of a wanted metric whose average column reads as a number
      records that average and adds no samples. */
  lemma StatRowRecords(sc: Scan, line: string, names: set<string>, name: string, cellsRaw: string, v: real)
    requires MatchRow(line) == Some((name, cellsRaw)) && IsStatLabel(name)
    requires StatBase(name) in names && StatAverage(cellsRaw) == Some(v)
    ensures ScanStep(sc, line, names) == sc.(statAvg := sc.statAvg[StatBase(name) := v])
  {
    StatRowStep(sc, line, names, name, cellsRaw);
  }

  /** Any other STAT row changes nothing, not even the samples of a metric
      whose name ends in `STAT`. */
  lemma StatRowSkips(sc: Scan, line: string, names: set<string>, name: string, cellsRaw: string)
    requires MatchRow(line) == Some((name, cellsRaw)) && IsStatLabel(name)
    requires StatBase(name) !in names || StatAverage(cellsRaw).None?
    ensures ScanStep(sc, line, names) == sc
  {
    StatRowStep(sc, line, names, name, cellsRaw);
  }

  /** A row of a wanted metric that is no STAT row appends the samples of
      its cells and leaves the STAT averages alone. */
  lemma SampleRow(sc: Scan, line: string, names: set<string>, name: string, cellsRaw: string)
    requires MatchRow(line) == Some((name, cellsRaw)) && !IsStatLabel(name)
    requires name in names && sc.perThread.Keys == names
    ensures ScanStep(sc, line, names) ==
      sc.(perThread := sc.perThread[name := sc.perThread[name] + CellSamples(Split(cellsRaw, '|'))])
  {
  }

  /** Lines that are no table rows, and rows of metrics nobody asked for,
      change nothing. */
  lemma IgnoredRow(sc: Scan, line: string, names: set<string>)
    requires MatchRow(line).None? || (!IsStatLabel(MatchRow(line).value.0) && MatchRow(line).value.0 !in names)
    ensures ScanStep(sc, line, names) == sc
  {
  }

  /** A label with no `|` and no white space at either end. */
  predicate Label(x: string) {
    x != [] && '|' !in x && !IsSpace(x[0]) && !IsSpace(x[|x| - 1])
  }

  lemma StripPadded(x: string)
    requires x != [] && !IsSpace(x[0]) && !IsSpace(x[|x| - 1])
    ensures Strip(" " + x + " ") == x
  {
    var s := " " + x + " ";
    assert s[1] == x[0] && s[|x|] == x[|x| - 1];
    assert s[1..|x| + 1] == x;
  }

  /** `| title |cells` is a table row with that label and those cells. */
  lemma MatchRowOf(title: string, cellsRaw: string)
    requires Label(title) && cellsRaw != []
    ensures MatchRow("| " + title + " |" + cellsRaw) == Some((title, cellsRaw))
  {
    var a := " " + title + " ";
    assert '|' !in a;
    MatchRowSplit("| " + title + " |" + cellsRaw, a, cellsRaw);
    StripPadded(title);
  }

  /** A line `|a|cells` with no bar in a non-empty `a` splits at its second
      bar. */
  lemma MatchRowSplit(line: string, a: string, cellsRaw: string)
    requires a != [] && '|' !in a && cellsRaw != []
    requires line == ['|'] + a + ['|'] + cellsRaw
    ensures MatchRow(line) == Some((Strip(a), cellsRaw))
  {
    assert line[1..] == a + ['|'] + cellsRaw;
    IndexOfPrefix(a, '|', cellsRaw);
    var j := 1 + |a|;
    assert line[1..j] == a;
    assert line[j + 1..] == cellsRaw;
  }

  lemma NonBlankGrows(p: seq<string>, k: nat)
    requires k < |p| && Strip(p[k]) != ""
    ensures |Config.NonBlank(p[..k + 1])| == |Config.NonBlank(p[..k])| + 1
    ensures Config.NonBlank(p[..k + 1])[|Config.NonBlank(p[..k])|] == Strip(p[k])
  {
    assert p[..k + 1][..k] == p[..k];
  }

  lemma ThreeNonBlank(p: seq<string>)
    requires |p| >= 3 && Strip(p[0]) != "" && Strip(p[1]) != "" && Strip(p[2]) != ""
    ensures |Config.NonBlank(p[..3])| == 3
  {
    assert p[..0] == [];
    NonBlankGrows(p, 0);
    NonBlankGrows(p, 1);
    NonBlankGrows(p, 2);
  }

  /** Four value cells and the empty piece after the closing `|`: the STAT
      average is the fourth cell. */
  lemma StatAverageOfFour(cellsRaw: string, p: seq<string>)
    requires |p| == 5 && forall i | 0 <= i < 5 :: '|' !in p[i]
    requires Strip(p[0]) != "" && Strip(p[1]) != "" && Strip(p[2]) != "" && Strip(p[3]) != "" && Strip(p[4]) == ""
    requires cellsRaw == Join(p, "|")
    ensures StatAverage(cellsRaw) == ParseNum(Strip(p[3]))
  {
    SplitJoin(p, '|');
    ThreeNonBlank(p);
    NonBlankGrows(p, 3);
    assert Config.NonBlank(p) == Config.NonBlank(p[..4]);
  }

  /** The cells of a row with four value cells, as `split("|")` cuts them. */
  function FourPieces(a: string, b: string, c: string, d: string): seq<string> {
    [" " + a + " ", " " + b + " ", " " + c + " ", " " + d + " ", ""]
  }

  lemma FourPiecesJoin(a: string, b: string, c: string, d: string)
    ensures Join(FourPieces(a, b, c, d), "|") == " " + a + " | " + b + " | " + c + " | " + d + " |"
  {
    var p := FourPieces(a, b, c, d);
    assert Join(p[4..], "|") == "";
    assert Join(p[3..], "|") == " " + d + " |" by { assert p[3..][1..] == p[4..]; }
    assert Join(p[2..], "|") == " " + c + " | " + d + " |" by { assert p[2..][1..] == p[3..]; }
    assert Join(p[1..], "|") == " " + b + " | " + c + " | " + d + " |" by { assert p[1..][1..] == p[2..]; }
  }

  predicate PiecesOf(p: seq<string>, a: string, b: string, c: string, d: string) {
    |p| == 5 && p[0] == " " + a + " " && p[1] == " " + b + " " && p[2] == " " + c + " "
    && p[3] == " " + d + " " && p[4] == ""
  }

  lemma FourPiecesStrip(p: seq<string>, a: string, b: string, c: string, d: string)
    requires Label(a) && Label(b) && Label(c) && Label(d) && PiecesOf(p, a, b, c, d)
    ensures Strip(p[0]) == a && Strip(p[1]) == b && Strip(p[2]) == c && Strip(p[3]) == d && Strip(p[4]) == ""
  {
    StripPadded(a);
    StripPadded(b);
    StripPadded(c);
    StripPadded(d);
  }

  lemma FourPiecesBars(p: seq<string>, a: string, b: string, c: string, d: string)
    requires Label(a) && Label(b) && Label(c) && Label(d) && PiecesOf(p, a, b, c, d)
    ensures forall i | 0 <= i < 5 :: '|' !in p[i]
  {
  }

  /** Of the four value cells of a STAT row, the fourth is the average; the
      third plays no part. */
  lemma StatAverageIsFourth(a: string, b: string, c: string, d: string)
    requires Label(a) && Label(b) && Label(c) && Label(d)
    ensures StatAverage(" " + a + " | " + b + " | " + c + " | " + d + " |") == ParseNum(d)
  {
    var p := FourPieces(a, b, c, d);
    FourPiecesJoin(a, b, c, d);
    assert PiecesOf(p, a, b, c, d);
    FourPiecesStrip(p, a, b, c, d);
    FourPiecesBars(p, a, b, c, d);
    StatAverageOfFour(" " + a + " | " + b + " | " + c + " | " + d + " |", p);
  }

  lemma ExampleLabel(name: string)
    requires name == "Runtime STAT"
    ensures Label(name) && IsStatLabel(name) && StatBase(name) == "Runtime"
  {
    assert name[..|name| - 4] == "Runtime ";
    assert RStripBy("Runtime ", IsSpace) == RStripBy("Runtime", IsSpace);
  }

  /** A STAT row of a wanted metric with four value cells records the
      fourth one, when it reads as a number. */
  lemma StatRowFourth(sc: Scan, names: set<string>, line: string, title: string, cellsRaw: string,
                      a: string, b: string, c: string, d: string, v: real)
    requires Label(title) && IsStatLabel(title) && StatBase(title) in names
    requires Label(a) && Label(b) && Label(c) && Label(d) && ParseNum(d) == Some(v)
    requires cellsRaw == " " + a + " | " + b + " | " + c + " | " + d + " |"
    requires line == "| " + title + " |" + cellsRaw
    ensures ScanStep(sc, line, names) == sc.(statAvg := sc.statAvg[StatBase(title) := v])
  {
    MatchRowOf(title, cellsRaw);
    StatAverageIsFourth(a, b, c, d);
    StatRowRecords(sc, line, names, title, cellsRaw, v);
  }

  lemma ExampleCells(a: string, b: string, c: string, d: string)
    requires a == "1" && b == "2" && c == "3.5" && d == "4"
    ensures Label(a) && Label(b) && Label(c) && Label(d)
  {
  }

  lemma ExampleFour(d: string)
    requires d == "4"
    ensures ParseNum(d) == Some(4.0)
  {
    ParseNumDigits(d);
  }

  /** `| Runtime STAT | 1 | 2 | 3.5 | 4 |` records 4, the fourth value cell,
      as the average of a wanted `Runtime`, and adds no samples. */
  lemma StatRowExample(sc: Scan, names: set<string>, line: string, title: string, cellsRaw: string,
                       a: string, b: string, c: string, d: string)
    requires "Runtime" in names
    requires title == "Runtime STAT" && a == "1" && b == "2" && c == "3.5" && d == "4"
    requires cellsRaw == " " + a + " | " + b + " | " + c + " | " + d + " |"
    requires line == "| " + title + " |" + cellsRaw
    ensures ScanStep(sc, line, names) == sc.(statAvg := sc.statAvg["Runtime" := 4.0])
  {
    ExampleLabel(title);
    ExampleCells(a, b, c, d);
    ExampleFour(d);
    StatRowFourth(sc, names, line, title, cellsRaw, a, b, c, d, 4.0);
  }

  /** Whether an `avg` spec takes the STAT average. */
  predicate UsesStat(spec: Config.MetricSpec, sc: Scan) {
    spec.agg == "avg" && spec.name in sc.statAvg
  }

  /** Whether reducing this spec fails: samples to reduce by an unknown
      mode. */
  predicate FailsToReduce(spec: Config.MetricSpec, sc: Scan) {
    !UsesStat(spec, sc) && SamplesOf(sc, spec.name) != [] && spec.agg !in {"avg", "max", "min", "median"}
  }

  /** One reducing step fails exactly when the spec fails to reduce, with
      the unknown-mode message. */
  lemma ReduceStepFails(result: map<string, real>, spec: Config.MetricSpec, sc: Scan)
    ensures ReduceStep(result, spec, sc).Err? <==> FailsToReduce(spec, sc)
    ensures ReduceStep(result, spec, sc).Err? ==> ReduceStep(result, spec, sc).error == UnknownAgg + spec.agg + "'"
  {
  }

  predicate FirstFailure(specs: seq<Config.MetricSpec>, sc: Scan, n: nat) {
    n < |specs| && FailsToReduce(specs[n], sc) && forall m | 0 <= m < n :: !FailsToReduce(specs[m], sc)
  }

  /** Reducing fails exactly when some spec has samples to reduce by an
      unknown mode. */
  lemma {:induction false} ReducedFails(specs: seq<Config.MetricSpec>, sc: Scan)
    ensures Reduced(specs, sc).Err? <==> exists n | 0 <= n < |specs| :: FailsToReduce(specs[n], sc)
  {
    if specs != [] {
      var front := specs[..|specs| - 1];
      var last := specs[|specs| - 1];
      ReducedFails(front, sc);
      assert forall m | 0 <= m < |front| :: front[m] == specs[m];
      if Reduced(front, sc).Err? {
        var n :| 0 <= n < |front| && FailsToReduce(front[n], sc);
        assert FailsToReduce(specs[n], sc);
      } else {
        ReduceStepFails(Reduced(front, sc).value, last, sc);
        if FailsToReduce(last, sc) {
          assert FailsToReduce(specs[|specs| - 1], sc);
        } else {
          assert Reduced(specs, sc).Ok?;
          forall n | 0 <= n < |specs| ensures !FailsToReduce(specs[n], sc) {
            if n < |front| { assert specs[n] == front[n]; }
          }
        }
      }
    }
  }

  /** The error is the one of the first spec that fails to reduce. */
  lemma {:induction false} ReducedFirstError(specs: seq<Config.MetricSpec>, sc: Scan)
    ensures Reduced(specs, sc).Err? ==>
      exists n: nat :: FirstFailure(specs, sc, n) && Reduced(specs, sc).error == UnknownAgg + specs[n].agg + "'"
  {
    if specs != [] {
      var front := specs[..|specs| - 1];
      var last := specs[|specs| - 1];
      assert forall m | 0 <= m < |front| :: front[m] == specs[m];
      if Reduced(front, sc).Err? {
        ReducedFirstError(front, sc);
        var n: nat :| FirstFailure(front, sc, n) && Reduced(front, sc).error == UnknownAgg + front[n].agg + "'";
        assert FirstFailure(specs, sc, n);
      } else {
        ReducedFails(front, sc);
        ReduceStepFails(Reduced(front, sc).value, last, sc);
        if Reduced(specs, sc).Err? {
          assert FirstFailure(specs, sc, |specs| - 1);
        }
      }
    }
  }

  /** One reducing step adds at most the spec's name and, when it asks for
      the variance, its `_var` name. */
  lemma ReduceStepKeys(result: map<string, real>, spec: Config.MetricSpec, sc: Scan)
    ensures var r := ReduceStep(result, spec, sc);
      r.Ok? ==> forall k | k in r.value :: k in result || k == spec.name || (spec.withVariance && k == spec.name + "_var")
  {
  }

  /** One reducing step keeps every other entry. */
  lemma ReduceStepKeeps(result: map<string, real>, spec: Config.MetricSpec, sc: Scan)
    ensures var r := ReduceStep(result, spec, sc);
      r.Ok? ==> forall k | k in result && k != spec.name && k != spec.name + "_var" :: k in r.value && r.value[k] == result[k]
  {
  }

  /** Whether `k` is a name `likwid_parse` may report for these specs. */
  predicate WantedKey(specs: seq<Config.MetricSpec>, k: string) {
    exists i | 0 <= i < |specs| :: k == specs[i].name || (specs[i].withVariance && k == specs[i].name + "_var")
  }

  /** Every key of the result is a spec's name, or the `_var` name of a
      spec that asks for the variance. */
  lemma {:induction false} ReducedKeys(specs: seq<Config.MetricSpec>, sc: Scan)
    ensures Reduced(specs, sc).Ok? ==> forall k | k in Reduced(specs, sc).value :: WantedKey(specs, k)
  {
    if specs != [] {
      var front := specs[..|specs| - 1];
      var last := specs[|specs| - 1];
      ReducedKeys(front, sc);
      if Reduced(front, sc).Ok? {
        ReduceStepKeys(Reduced(front, sc).value, last, sc);
        forall k | k in Reduced(front, sc).value
          ensures WantedKey(specs, k)
        {
          var i :| 0 <= i < |front| && (k == front[i].name || (front[i].withVariance && k == front[i].name + "_var"));
          assert front[i] == specs[i];
        }
        assert 0 <= |specs| - 1 < |specs| && specs[|specs| - 1] == last;
      }
    }
  }

  /** What one reducing step records for the spec: the STAT average, the
      reduced samples, nothing, and the variance. */
  lemma ReduceStepEntry(result: map<string, real>, spec: Config.MetricSpec, sc: Scan)
    ensures var r := ReduceStep(result, spec, sc);
      var values := SamplesOf(sc, spec.name);
      r.Ok? ==>
        (UsesStat(spec, sc) ==> spec.name in r.value && r.value[spec.name] == sc.statAvg[spec.name])
        && (!UsesStat(spec, sc) && values != [] ==> spec.name in r.value && Aggregate(spec.agg, values) == Ok(r.value[spec.name]))
        && (!UsesStat(spec, sc) && values == [] ==> r.value == result)
        && (spec.withVariance && |values| > 1 ==> spec.name + "_var" in r.value && r.value[spec.name + "_var"] == Variance(values))
  {
  }

  /** What `likwid_parse` reports for one spec: its name exactly when the
      STAT average is used or there are samples, with that average or the
      samples reduced by the spec's mode, and the sample variance when asked
      for and there are at least two samples. */
  predicate Reports(spec: Config.MetricSpec, sc: Scan, m: map<string, real>) {
    var values := SamplesOf(sc, spec.name);
    (spec.name in m <==> UsesStat(spec, sc) || values != [])
    && (UsesStat(spec, sc) ==> spec.name in m && m[spec.name] == sc.statAvg[spec.name])
    && (!UsesStat(spec, sc) && values != [] ==> spec.name in m && Aggregate(spec.agg, values) == Ok(m[spec.name]))
    && (spec.withVariance && |values| > 1 ==> spec.name + "_var" in m && m[spec.name + "_var"] == Variance(values))
  }

  /** No two specs share a name, and no name is another's `_var` name. */
  predicate NoClash(specs: seq<Config.MetricSpec>) {
    forall i, j | 0 <= i < |specs| && 0 <= j < |specs| ::
      (i != j ==> specs[i].name != specs[j].name) && specs[i].name != specs[j].name + "_var"
  }

  lemma ReportsKept(spec: Config.MetricSpec, other: Config.MetricSpec, sc: Scan, m: map<string, real>)
    requires spec.name != other.name && spec.name != other.name + "_var" && other.name != spec.name + "_var"
    requires Reports(spec, sc, m) && ReduceStep(m, other, sc).Ok?
    ensures Reports(spec, sc, ReduceStep(m, other, sc).value)
  {
    ReduceStepKeys(m, other, sc);
    ReduceStepKeeps(m, other, sc);
    VarNamesDiffer(spec.name, other.name);
  }

  lemma VarNamesDiffer(a: string, b: string)
    requires a != b
    ensures a + "_var" != b + "_var"
  {
    assert (a + "_var")[..|a|] == a && (b + "_var")[..|b|] == b;
  }

  lemma FreshName(specs: seq<Config.MetricSpec>, sc: Scan)
    requires specs != [] && NoClash(specs)
    ensures var front := specs[..|specs| - 1];
      Reduced(front, sc).Ok? ==> specs[|specs| - 1].name !in Reduced(front, sc).value
  {
    var front := specs[..|specs| - 1];
    var name := specs[|specs| - 1].name;
    ReducedKeys(front, sc);
    assert forall i | 0 <= i < |front| :: front[i] == specs[i];
    assert !WantedKey(front, name);
  }

  lemma LastReports(specs: seq<Config.MetricSpec>, sc: Scan)
    requires specs != [] && NoClash(specs)
    ensures var front := specs[..|specs| - 1];
      Reduced(specs, sc).Ok? ==> Reports(specs[|specs| - 1], sc, Reduced(specs, sc).value)
  {
    var front := specs[..|specs| - 1];
    var last := specs[|specs| - 1];
    if Reduced(specs, sc).Ok? {
      FreshName(specs, sc);
      ReduceStepEntry(Reduced(front, sc).value, last, sc);
    }
  }

  /** With distinct names, the result reports every spec as `Reports` says. */
  lemma {:induction false} ReducedReports(specs: seq<Config.MetricSpec>, sc: Scan)
    requires NoClash(specs)
    ensures Reduced(specs, sc).Ok? ==> forall i | 0 <= i < |specs| :: Reports(specs[i], sc, Reduced(specs, sc).value)
  {
    if specs != [] && Reduced(specs, sc).Ok? {
      var front := specs[..|specs| - 1];
      var last := specs[|specs| - 1];
      assert NoClash(front) by {
        assert forall i | 0 <= i < |front| :: front[i] == specs[i];
      }
      ReducedReports(front, sc);
      LastReports(specs, sc);
      forall i | 0 <= i < |front|
        ensures Reports(specs[i], sc, Reduced(specs, sc).value)
      {
        assert front[i] == specs[i];
        assert specs[i].name != last.name && specs[i].name != last.name + "_var" && last.name != specs[i].name + "_var";
        ReportsKept(specs[i], last, sc, Reduced(front, sc).value);
      }
    }
  }

  /** `likwid_parse` raises exactly when some spec has samples to reduce by
      an unknown mode, and the message names the first such mode. */
  lemma LikwidFails(out: string, specs: seq<Config.MetricSpec>)
    ensures var sc := Scanned(SplitLines(out), Names(specs));
      (LikwidParsed(out, specs).Err? <==> exists n | 0 <= n < |specs| :: FailsToReduce(specs[n], sc))
      && (LikwidParsed(out, specs).Err? ==>
            exists n: nat :: FirstFailure(specs, sc, n) && LikwidParsed(out, specs).error == UnknownAgg + specs[n].agg + "'")
  {
    var sc := Scanned(SplitLines(out), Names(specs));
    ReducedFails(specs, sc);
    ReducedFirstError(specs, sc);
  }

  /** The keys of `likwid_parse`'s result are spec names and the `_var`
      names of specs that ask for a variance. */
  lemma LikwidKeys(out: string, specs: seq<Config.MetricSpec>)
    ensures LikwidParsed(out, specs).Ok? ==> forall k | k in LikwidParsed(out, specs).value :: WantedKey(specs, k)
  {
    ReducedKeys(specs, Scanned(SplitLines(out), Names(specs)));
  }

  /** With distinct names, `likwid_parse` reports every spec from the
      samples and STAT averages of its scan. */
  lemma LikwidReports(out: string, specs: seq<Config.MetricSpec>)
    requires NoClash(specs)
    ensures var sc := Scanned(SplitLines(out), Names(specs));
      LikwidParsed(out, specs).Ok? ==> forall i | 0 <= i < |specs| :: Reports(specs[i], sc, LikwidParsed(out, specs).value)
  {
    ReducedReports(specs, Scanned(SplitLines(out), Names(specs)));
  }
}
