/** The handful of Python `str` operations the tool relies on: whitespace
    classes, `strip`, `split`, `join`, `endswith`, `lower`, decimal rendering
    of integers and the ordering `sorted` uses on strings. */
module PyStr {
  import opened Wrappers

  /** `str.isspace()`: the characters Python's `strip()` and the regex class
      `\s` treat as white space. */
  predicate IsSpace(c: char) {
    ('\t' <= c <= '\r') || ('\U{1C}' <= c <= '\U{1F}') || c == ' '
    || c == '\U{85}' || c == '\U{A0}' || c == '\U{1680}'
    || ('\U{2000}' <= c <= '\U{200A}') || c == '\U{2028}' || c == '\U{2029}'
    || c == '\U{202F}' || c == '\U{205F}' || c == '\U{3000}'
  }

  /** The regex class `\d`, restricted to ASCII digits. */
  predicate IsDigit(c: char) { '0' <= c <= '9' }

  /** The regex class `\w`, restricted to ASCII. */
  predicate IsWordChar(c: char) {
    IsDigit(c) || ('a' <= c <= 'z') || ('A' <= c <= 'Z') || c == '_'
  }

  predicate AllDigits(s: string) { forall i | 0 <= i < |s| :: IsDigit(s[i]) }

  predicate EndsWith(s: string, suffix: string) {
    |suffix| <= |s| && s[|s| - |suffix|..] == suffix
  }

  // ---------------------------------------------------------------------------
  // strip / lstrip / rstrip
  // ---------------------------------------------------------------------------

  /** `s.lstrip(chars)` where `drop` says which characters are stripped. */
  function LStripBy(s: string, drop: char -> bool): (r: string)
    ensures |r| <= |s| && r == s[|s| - |r|..]
    ensures forall k | 0 <= k < |s| - |r| :: drop(s[k])
    ensures r == [] || !drop(r[0])
  {
    if s != [] && drop(s[0]) then LStripBy(s[1..], drop) else s
  }

  /** `s.rstrip(chars)` where `drop` says which characters are stripped. */
  function RStripBy(s: string, drop: char -> bool): (r: string)
    ensures |r| <= |s| && r == s[..|r|]
    ensures forall k | |r| <= k < |s| :: drop(s[k])
    ensures r == [] || !drop(r[|r| - 1])
  {
    if s != [] && drop(s[|s| - 1]) then RStripBy(s[..|s| - 1], drop) else s
  }

  function StripBy(s: string, drop: char -> bool): string {
    RStripBy(LStripBy(s, drop), drop)
  }

  /** How many leading characters `s.lstrip()` removes. */
  function StripStart(s: string): (i: nat)
    ensures i <= |s|
  {
    |s| - |LStripBy(s, IsSpace)|
  }

  /** `s.strip()`: the slice of `s` left once leading and trailing white space
      is removed. */
  function Strip(s: string): (r: string)
    ensures r == [] || (!IsSpace(r[0]) && !IsSpace(r[|r| - 1]))
    ensures StripStart(s) + |r| <= |s| && r == s[StripStart(s)..StripStart(s) + |r|]
    ensures forall k | 0 <= k < StripStart(s) :: IsSpace(s[k])
    ensures forall k | StripStart(s) + |r| <= k < |s| :: IsSpace(s[k])
  {
    var l := LStripBy(s, IsSpace);
    var r := RStripBy(l, IsSpace);
    SliceOfSuffix(s, l, r);
    r
  }

  lemma SliceOfSuffix(s: string, l: string, r: string)
    requires |l| <= |s| && l == s[|s| - |l|..]
    requires |r| <= |l| && r == l[..|r|]
    requires forall k | |r| <= k < |l| :: IsSpace(l[k])
    ensures r == s[|s| - |l|..|s| - |l| + |r|]
    ensures forall k | |s| - |l| + |r| <= k < |s| :: IsSpace(s[k])
  {
    var i := |s| - |l|;
    forall k | i + |r| <= k < |s| ensures IsSpace(s[k]) {
      assert s[k] == l[k - i];
    }
  }

  /** Every character is white space. */
  predicate Blank(s: string) {
    forall k | 0 <= k < |s| :: IsSpace(s[k])
  }

  /** `strip()` removes exactly the white space around a text that neither
      starts nor ends with white space. */
  lemma StripOf(a: string, r: string, b: string)
    requires Blank(a) && Blank(b)
    requires r == [] || (!IsSpace(r[0]) && !IsSpace(r[|r| - 1]))
    ensures Strip(a + r + b) == r
  {
    var s := a + r + b;
    var k := StripStart(s);
    var q := Strip(s);
    if r != [] {
      assert s[|a|] == r[0] && s[|a| + |r| - 1] == r[|r| - 1];
      if q != [] {
        assert q[0] == s[k] && q[|q| - 1] == s[k + |q| - 1];
        assert k == |a|;
        assert k + |q| == |a| + |r|;
        assert q == s[|a|..|a| + |r|] == r;
      }
    }
  }

  /** A text is its white space, what `strip()` leaves, and its white
      space. */
  lemma StripParts(t: string) returns (a: string, b: string)
    ensures Blank(a) && Blank(b)
    ensures t == a + Strip(t) + b
  {
    var k := StripStart(t);
    var r := Strip(t);
    a, b := t[..k], t[k + |r|..];
    assert t == a + r + b;
  }

  /** White space added around a text does not change what `strip()`
      leaves of it. */
  lemma StripPadding(w: string, t: string, v: string)
    requires Blank(w) && Blank(v)
    ensures Strip(w + t + v) == Strip(t)
  {
    var a, b := StripParts(t);
    BlankJoin(w, a);
    BlankJoin(b, v);
    Regroup(w, a, Strip(t), b, v);
    StripOf(w + a, Strip(t), b + v);
  }

  lemma Regroup(w: string, a: string, r: string, b: string, v: string)
    ensures w + (a + r + b) + v == (w + a) + r + (b + v)
  {
  }

  lemma BlankJoin(x: string, y: string)
    requires Blank(x) && Blank(y)
    ensures Blank(x + y)
  {
    assert forall k | |x| <= k < |x + y| :: (x + y)[k] == y[k - |x|];
  }

  function RStrip(s: string): string { RStripBy(s, IsSpace) }

  /** A string is blank when `strip()` leaves nothing of it. */
  lemma StripEmptyIffBlank(s: string)
    ensures Strip(s) == [] <==> forall k | 0 <= k < |s| :: IsSpace(s[k])
  {
    if Strip(s) != [] {
      assert Strip(s)[0] == s[StripStart(s)];
    }
  }

  // ---------------------------------------------------------------------------
  // split / join
  // ---------------------------------------------------------------------------

  function IndexOf(s: string, c: char): (i: nat)
    requires c in s
    ensures i < |s| && s[i] == c && c !in s[..i]
  {
    if s[0] == c then 0 else 1 + IndexOf(s[1..], c)
  }

  /** `sep.join(parts)`. */
  function Join(parts: seq<string>, sep: string): string {
    if parts == [] then ""
    else if |parts| == 1 then parts[0]
    else parts[0] + sep + Join(parts[1..], sep)
  }

  /** `s.split(c)` for a one-character separator: the pieces between the
      occurrences of `c`, joined back by `c` to `s`. */
  function Split(s: string, c: char): (r: seq<string>)
    ensures |r| >= 1
    ensures forall i | 0 <= i < |r| :: c !in r[i]
    ensures Join(r, [c]) == s
    decreases |s|
  {
    if c !in s then [s]
    else
      var i := IndexOf(s, c);
      var rest := Split(s[i + 1..], c);
      assert s == s[..i] + [c] + s[i + 1..];
      [s[..i]] + rest
  }

  /** Splitting a join recovers the parts when no part contains the separator. */
  lemma {:induction false} SplitJoin(parts: seq<string>, c: char)
    requires |parts| >= 1
    requires forall i | 0 <= i < |parts| :: c !in parts[i]
    ensures Split(Join(parts, [c]), c) == parts
  {
    if |parts| > 1 {
      var j := Join(parts, [c]);
      var tail := Join(parts[1..], [c]);
      assert j == parts[0] + [c] + tail;
      assert c in j by { assert j[|parts[0]|] == c; }
      assert IndexOf(j, c) == |parts[0]| by {
        IndexOfPrefix(parts[0], c, tail);
      }
      assert j[|parts[0]| + 1..] == tail;
      assert j[..|parts[0]|] == parts[0];
      SplitJoin(parts[1..], c);
    }
  }

  lemma {:induction false} IndexOfPrefix(a: string, c: char, b: string)
    requires c !in a
    ensures c in a + [c] + b && IndexOf(a + [c] + b, c) == |a|
  {
    var s := a + [c] + b;
    assert s[|a|] == c;
    if a != [] {
      assert s[1..] == a[1..] + [c] + b;
      IndexOfPrefix(a[1..], c, b);
    }
  }

  /** A join over a non-empty separator is empty exactly when there is at most
      one part and that part is empty. */
  lemma {:induction false} JoinEmpty(parts: seq<string>, sep: string)
    requires sep != ""
    ensures Join(parts, sep) == "" <==> parts == [] || (|parts| == 1 && parts[0] == "")
  {
    if |parts| > 1 {
      assert |Join(parts, sep)| >= |sep|;
    }
  }

  /** `s.replace(c, "")`. */
  function Remove(s: string, c: char): (r: string)
    ensures c !in r
    ensures |r| <= |s|
    ensures forall x | x in r :: x in s
  {
    if s == [] then []
    else (if s[0] == c then [] else [s[0]]) + Remove(s[1..], c)
  }

  lemma {:induction false} RemoveAppend(s: string, t: string, c: char)
    ensures Remove(s + t, c) == Remove(s, c) + Remove(t, c)
  {
    if s != [] {
      var h := if s[0] == c then [] else [s[0]];
      assert (s + t)[0] == s[0] && (s + t)[1..] == s[1..] + t;
      assert Remove(s + t, c) == h + Remove(s[1..] + t, c);
      RemoveAppend(s[1..], t, c);
      AppendAssociative(h, Remove(s[1..], c), Remove(t, c));
    } else {
      assert s + t == t;
    }
  }

  /** Python's `digitpart`: digits, with single underscores between them. */
  predicate DigitPart(s: string) {
    s != [] && IsDigit(s[0]) && IsDigit(s[|s| - 1])
    && (forall x | 0 <= x < |s| :: IsDigit(s[x]) || s[x] == '_')
    && (forall x, y | 0 <= x < |s| && 0 <= y < |s| && y == x + 1 :: s[x] != '_' || s[y] != '_')
  }

  /** The digits of a digit part, underscores dropped. */
  function PartDigits(s: string): (d: string)
    requires DigitPart(s)
    ensures AllDigits(d) && d != []
  {
    var d := Remove(s, '_');
    assert AllDigits(d) by {
      forall x | 0 <= x < |d| ensures IsDigit(d[x]) {
        assert d[x] in d;
        var y :| 0 <= y < |s| && s[y] == d[x];
        assert d[x] != '_';
      }
    }
    assert s[0] in d by {
      assert IsDigit(s[0]);
      RemoveKeeps(s, '_', 0);
    }
    d
  }

  lemma {:induction false} RemoveKeeps(s: string, c: char, x: nat)
    requires x < |s| && s[x] != c
    ensures s[x] in Remove(s, c)
  {
    if x > 0 {
      RemoveKeeps(s[1..], c, x - 1);
    }
  }

  lemma RemoveAbsent(s: string, c: char)
    requires c !in s
    ensures Remove(s, c) == s
  {
  }


  /** Plain digits are a digit part whose digits are themselves. */
  lemma DigitsPart(s: string)
    requires s != [] && AllDigits(s)
    ensures DigitPart(s) && PartDigits(s) == s
  {
    assert '_' !in s;
    RemoveAbsent(s, '_');
  }

  // ---------------------------------------------------------------------------
  // lower
  // ---------------------------------------------------------------------------

  function LowerChar(c: char): char {
    if 'A' <= c <= 'Z' then (c as int + 32) as char else c
  }

  /** `s.lower()` on ASCII letters. */
  function Lower(s: string): (r: string)
    ensures |r| == |s|
    ensures forall i | 0 <= i < |s| :: !('A' <= r[i] <= 'Z')
    ensures forall i | 0 <= i < |s| :: ('a' <= s[i] <= 'z' || !('A' <= s[i] <= 'Z')) ==> r[i] == s[i]
  {
    if s == [] then [] else [LowerChar(s[0])] + Lower(s[1..])
  }

  /** Lower-casing twice is lower-casing once. */
  lemma {:induction false} LowerIdempotent(s: string)
    ensures Lower(Lower(s)) == Lower(s)
  {
    var l := Lower(s);
    var ll := Lower(l);
    forall i | 0 <= i < |s| ensures ll[i] == l[i] {
      assert !('A' <= l[i] <= 'Z');
    }
  }

  // ---------------------------------------------------------------------------
  // Decimal rendering of integers (`str(int)` and format `05d`)
  // ---------------------------------------------------------------------------

  function DigitChar(d: nat): (c: char)
    requires d < 10
    ensures IsDigit(c)
  {
    ('0' as int + d) as char
  }

  function DigitValue(c: char): nat
    requires IsDigit(c)
  {
    c as int - '0' as int
  }

  /** The number a string of decimal digits denotes. */
  function DigitsValue(s: string): nat
    requires AllDigits(s)
  {
    if s == [] then 0 else DigitsValue(s[..|s| - 1]) * 10 + DigitValue(s[|s| - 1])
  }

  /** `str(n)` for a natural number: digits without leading zeros that
      denote `n`. */
  function NatToDecimal(n: nat): (r: string)
    ensures |r| >= 1 && AllDigits(r)
    ensures DigitsValue(r) == n
    ensures r[0] == '0' ==> n == 0 && r == "0"
    decreases n
  {
    if n < 10 then [DigitChar(n)]
    else
      var prefix := NatToDecimal(n / 10);
      var r := prefix + [DigitChar(n % 10)];
      assert r[..|r| - 1] == prefix;
      r
  }

  /** `str(i)` for an integer. */
  function IntToDecimal(i: int): (r: string)
    ensures |r| >= 1
    ensures i >= 0 ==> AllDigits(r) && DigitsValue(r) == i
    ensures i < 0 ==> r[0] == '-' && AllDigits(r[1..]) && DigitsValue(r[1..]) == -i
  {
    if i < 0 then "-" + NatToDecimal(-i) else NatToDecimal(i)
  }

  // ---------------------------------------------------------------------------
  // int(s)
  // ---------------------------------------------------------------------------

  /** `int(s)` in base 10: an optional sign and a digit part, with white
      space around them. `None` stands for the `ValueError` any other text
      raises. */
  function ParseInt(s: string): (r: Option<int>)
    ensures r.Some? ==> exists k | 0 <= k < |s| :: IsDigit(s[k])
    ensures AllDigits(Strip(s)) && Strip(s) != [] ==> r == Some(DigitsValue(Strip(s)))
  {
    IntLiteral(Strip(s))
  }

  /** The integer a stripped text denotes. */
  function IntLiteral(t: string): (r: Option<int>)
    ensures r.Some? ==> t != [] && IsDigit(t[|t| - 1])
    ensures AllDigits(t) && t != [] ==> r == Some(DigitsValue(t))
  {
    if t != [] && (t[0] == '+' || t[0] == '-') then
      match Magnitude(t[1..])
      case None => None
      case Some(n) => Some(if t[0] == '-' then -(n as int) else n)
    else Magnitude(t)
  }

  /** The value of a digit part; any other text has none. */
  function Magnitude(body: string): (r: Option<nat>)
    ensures r.Some? ==> body != [] && IsDigit(body[|body| - 1])
    ensures AllDigits(body) && body != [] ==> r == Some(DigitsValue(body))
  {
    assert AllDigits(body) && body != [] ==> DigitPart(body) && PartDigits(body) == body by {
      if AllDigits(body) && body != [] { DigitsPart(body); }
    }
    if DigitPart(body) then Some(DigitsValue(PartDigits(body))) else None
  }

  /** `int(str(i)) == i`. */
  lemma ParseIntDecimal(i: int)
    ensures ParseInt(IntToDecimal(i)) == Some(i)
  {
    var d := IntToDecimal(i);
    if i < 0 {
      assert d == "-" + d[1..];
      assert d[|d| - 1] == d[1..][|d| - 2];
      StripItself(d);
      NegativeLiteral(d[1..]);
    } else {
      StripItself(d);
    }
  }

  lemma StripItself(t: string)
    requires t != [] && !IsSpace(t[0]) && !IsSpace(t[|t| - 1])
    ensures Strip(t) == t
  {
    assert "" + t + "" == t;
    StripOf("", t, "");
  }

  /** `strip()` leaves nothing more to strip. */
  lemma StripStripped(s: string)
    ensures Strip(Strip(s)) == Strip(s)
  {
    assert "" + Strip(s) + "" == Strip(s);
    StripOf("", Strip(s), "");
  }

  lemma NegativeLiteral(body: string)
    requires body != [] && AllDigits(body)
    ensures IntLiteral("-" + body) == Some(-(DigitsValue(body) as int))
  {
    assert ("-" + body)[1..] == body;
  }

  /** White space around the text does not change what `int()` reads. */
  lemma ParseIntPadded(w: string, t: string, v: string)
    requires Blank(w) && Blank(v)
    ensures ParseInt(w + t + v) == ParseInt(t)
  {
    StripPadding(w, t, v);
  }

  /** `f"{n:0{width}d}"` for a natural number: zero-padded to at least
      `width` characters. */
  function ZeroPad(n: nat, width: nat): (r: string)
    ensures |r| >= width && AllDigits(r)
    ensures DigitsValue(r) == n
  {
    var d := NatToDecimal(n);
    if |d| >= width then d else LeadingZeros(width - |d|, d)
  }

  function LeadingZeros(k: nat, d: string): (r: string)
    requires AllDigits(d)
    ensures |r| == |d| + k && AllDigits(r)
    ensures DigitsValue(r) == DigitsValue(d)
    ensures r[k..] == d
  {
    if k == 0 then d
    else
      var r := ['0'] + LeadingZeros(k - 1, d);
      ZeroPrefixValue(LeadingZeros(k - 1, d));
      r
  }

  lemma {:induction false} ZeroPrefixValue(s: string)
    requires AllDigits(s)
    ensures AllDigits(['0'] + s) && DigitsValue(['0'] + s) == DigitsValue(s)
  {
    if s != [] {
      var t := ['0'] + s;
      assert t[..|t| - 1] == ['0'] + s[..|s| - 1];
      ZeroPrefixValue(s[..|s| - 1]);
    }
  }

  // ---------------------------------------------------------------------------
  // String order (Python compares strings by code point) and `sorted`
  // ---------------------------------------------------------------------------

  lemma AppendAssociative<T>(a: seq<T>, b: seq<T>, c: seq<T>)
    ensures (a + b) + c == a + (b + c)
  {
  }

  predicate Less(a: string, b: string)
    decreases |a|
  {
    if a == [] then b != []
    else b != [] && (a[0] < b[0] || (a[0] == b[0] && Less(a[1..], b[1..])))
  }

  predicate LessEq(a: string, b: string) { a == b || Less(a, b) }

  lemma {:induction false} LessIrreflexive(a: string)
    ensures !Less(a, a)
  {
    if a != [] { LessIrreflexive(a[1..]); }
  }

  lemma {:induction false} LessTransitive(a: string, b: string, c: string)
    requires Less(a, b) && Less(b, c)
    ensures Less(a, c)
  {
    if a != [] && a[0] == b[0] && b[0] == c[0] {
      LessTransitive(a[1..], b[1..], c[1..]);
    }
  }

  lemma {:induction false} LessTotal(a: string, b: string)
    ensures a == b || Less(a, b) || Less(b, a)
  {
    if a != [] && b != [] && a[0] == b[0] {
      LessTotal(a[1..], b[1..]);
      if a[1..] == b[1..] {
        assert a == [a[0]] + a[1..] && b == [b[0]] + b[1..];
      }
    }
  }

  lemma LessAsymmetric(a: string, b: string)
    requires Less(a, b)
    ensures !Less(b, a)
  {
    if Less(b, a) {
      LessTransitive(a, b, a);
      LessIrreflexive(a);
    }
  }

  predicate Sorted(s: seq<string>) {
    forall i, j | 0 <= i < j < |s| :: LessEq(s[i], s[j])
  }

  predicate Distinct<T(==)>(s: seq<T>) {
    forall i, j | 0 <= i < j < |s| :: s[i] != s[j]
  }

  /** `sorted(s)` for a strictly ascending enumeration of the set `keys`,
      which is how `sorted` lays out a Python set of strings. */
  predicate Enumerates(s: seq<string>, keys: set<string>) {
    (forall i, j | 0 <= i < j < |s| :: Less(s[i], s[j])) && (set x | x in s) == keys
  }

  function Insert(x: string, s: seq<string>): (r: seq<string>)
    requires Sorted(s)
    ensures Sorted(r)
    ensures multiset(r) == multiset(s) + multiset{x}
  {
    if s == [] then [x]
    else if LessEq(x, s[0]) then
      InsertFront(x, s);
      [x] + s
    else
      var rest := Insert(x, s[1..]);
      InsertBehind(x, s, rest);
      [s[0]] + rest
  }

  lemma InsertFront(x: string, s: seq<string>)
    requires Sorted(s) && s != [] && LessEq(x, s[0])
    ensures Sorted([x] + s)
  {
    var r := [x] + s;
    forall i, j | 0 <= i < j < |r| ensures LessEq(r[i], r[j]) {
      if i == 0 && j > 1 && x != s[0] && s[0] != s[j - 1] {
        LessTransitive(x, s[0], s[j - 1]);
      }
    }
  }

  lemma InsertBehind(x: string, s: seq<string>, rest: seq<string>)
    requires Sorted(s) && s != [] && !LessEq(x, s[0])
    requires Sorted(rest) && multiset(rest) == multiset(s[1..]) + multiset{x}
    ensures Sorted([s[0]] + rest)
    ensures multiset([s[0]] + rest) == multiset(s) + multiset{x}
  {
    assert s == [s[0]] + s[1..];
    LessTotal(x, s[0]);
    forall j | 0 <= j < |rest| ensures LessEq(s[0], rest[j]) {
      assert rest[j] in multiset(rest);
      if rest[j] != x {
        assert rest[j] in multiset(s[1..]);
        var k :| 0 <= k < |s[1..]| && s[1..][k] == rest[j];
        assert s[k + 1] == rest[j];
      }
    }
    var r := [s[0]] + rest;
    forall i, j | 0 <= i < j < |r| ensures LessEq(r[i], r[j]) {
      if i > 0 { assert r[i] == rest[i - 1] && r[j] == rest[j - 1]; }
    }
  }

  /** `sorted(s)` on strings: an ascending permutation of `s`. */
  function SortStrings(s: seq<string>): (r: seq<string>)
    ensures Sorted(r)
    ensures multiset(r) == multiset(s)
  {
    if s == [] then []
    else
      assert s == [s[0]] + s[1..];
      Insert(s[0], SortStrings(s[1..]))
  }

  /** Sorting a duplicate-free list of the strings of a set enumerates the set. */
  lemma {:induction false} SortEnumerates(s: seq<string>, keys: set<string>)
    requires Distinct(s) && (set x | x in s) == keys
    ensures Enumerates(SortStrings(s), keys)
  {
    var r := SortStrings(s);
    forall x ensures x in r <==> x in s {
      assert x in r <==> x in multiset(r);
      assert x in s <==> x in multiset(s);
    }
    DistinctMultiset(s);
    forall i, j | 0 <= i < j < |r| ensures Less(r[i], r[j]) {
      TwiceInMultiset(r, i, j);
    }
  }

  lemma TwiceInMultiset(r: seq<string>, i: nat, j: nat)
    requires i < j < |r|
    ensures r[i] == r[j] ==> multiset(r)[r[i]] >= 2
  {
    assert r == r[..i] + [r[i]] + r[i + 1..j] + [r[j]] + r[j + 1..];
  }

  lemma {:induction false} DistinctMultiset(s: seq<string>)
    requires Distinct(s)
    ensures forall x :: multiset(s)[x] <= 1
  {
    if s != [] {
      assert s == [s[0]] + s[1..];
      DistinctMultiset(s[1..]);
      assert s[0] !in s[1..];
    }
  }

  lemma EmptyEnumeration(a: seq<string>, keys: set<string>)
    requires Enumerates(a, keys)
    ensures a == [] <==> keys == {}
  {
    if a != [] { assert a[0] in keys; }
  }

  /** A set has one strictly ascending enumeration: `sorted` is well defined. */
  lemma {:induction false} EnumerationUnique(a: seq<string>, b: seq<string>, keys: set<string>)
    requires Enumerates(a, keys) && Enumerates(b, keys)
    ensures a == b
    decreases |a|
  {
    if a != [] && b != [] {
      assert a[0] in keys && b[0] in keys;
      if a[0] != b[0] {
        assert b[0] in a;
        var i :| 0 <= i < |a| && a[i] == b[0];
        assert a[0] in b;
        var j :| 0 <= j < |b| && b[j] == a[0];
        assert i > 0 && j > 0;
        assert Less(a[0], b[0]) && Less(b[0], a[0]);
        LessAsymmetric(a[0], b[0]);
      }
      assert (set x | x in a[1..]) == keys - {a[0]} by {
        forall x | x in a[1..] ensures x != a[0] {
          var k :| 1 <= k < |a| && a[k] == x;
          LessIrreflexive(a[0]);
        }
        assert forall x | x in a :: x == a[0] || x in a[1..];
      }
      assert (set x | x in b[1..]) == keys - {a[0]} by {
        forall x | x in b[1..] ensures x != b[0] {
          var k :| 1 <= k < |b| && b[k] == x;
          LessIrreflexive(b[0]);
        }
        assert forall x | x in b :: x == b[0] || x in b[1..];
      }
      EnumerationUnique(a[1..], b[1..], keys - {a[0]});
      assert a == [a[0]] + a[1..] && b == [b[0]] + b[1..];
    } else {
      EmptyEnumeration(a, keys);
      EmptyEnumeration(b, keys);
    }
  }
}
