/** The `statistics` functions the tool applies to samples (`mean`, `median`,
    `variance`) and the built-ins `max` and `min`, over exact reals. */
module Stats {

  function Sum(xs: seq<real>): real {
    if xs == [] then 0.0 else Sum(xs[..|xs| - 1]) + xs[|xs| - 1]
  }

  /** `statistics.mean(xs)`. */
  function Mean(xs: seq<real>): real
    requires xs != []
  {
    Sum(xs) / |xs| as real
  }

  /** `max(xs)`. */
  function Max(xs: seq<real>): (m: real)
    requires xs != []
    ensures m in xs
    ensures forall i | 0 <= i < |xs| :: xs[i] <= m
  {
    if |xs| == 1 then xs[0]
    else
      var m := Max(xs[..|xs| - 1]);
      if xs[|xs| - 1] > m then xs[|xs| - 1] else m
  }

  /** `min(xs)`. */
  function Min(xs: seq<real>): (m: real)
    requires xs != []
    ensures m in xs
    ensures forall i | 0 <= i < |xs| :: m <= xs[i]
  {
    if |xs| == 1 then xs[0]
    else
      var m := Min(xs[..|xs| - 1]);
      if xs[|xs| - 1] < m then xs[|xs| - 1] else m
  }

  predicate Ascending(xs: seq<real>) {
    forall i, j | 0 <= i < j < |xs| :: xs[i] <= xs[j]
  }

  function InsertReal(x: real, xs: seq<real>): (r: seq<real>)
    requires Ascending(xs)
    ensures Ascending(r)
    ensures multiset(r) == multiset(xs) + multiset{x}
  {
    if xs == [] then [x]
    else if x <= xs[0] then [x] + xs
    else
      var rest := InsertReal(x, xs[1..]);
      InsertRealBehind(x, xs, rest);
      [xs[0]] + rest
  }

  lemma InsertRealBehind(x: real, xs: seq<real>, rest: seq<real>)
    requires Ascending(xs) && xs != [] && xs[0] < x
    requires Ascending(rest) && multiset(rest) == multiset(xs[1..]) + multiset{x}
    ensures Ascending([xs[0]] + rest)
    ensures multiset([xs[0]] + rest) == multiset(xs) + multiset{x}
  {
    assert xs == [xs[0]] + xs[1..];
    forall j | 0 <= j < |rest| ensures xs[0] <= rest[j] {
      BehindHead(x, xs, rest, j);
    }
    ConsAscending(xs[0], rest);
  }

  lemma BehindHead(x: real, xs: seq<real>, rest: seq<real>, j: nat)
    requires Ascending(xs) && xs != [] && xs[0] < x
    requires multiset(rest) == multiset(xs[1..]) + multiset{x} && j < |rest|
    ensures xs[0] <= rest[j]
  {
    assert rest[j] in multiset(rest);
    if rest[j] != x {
      assert rest[j] in multiset(xs[1..]);
      var k :| 0 <= k < |xs[1..]| && xs[1..][k] == rest[j];
      assert xs[k + 1] == rest[j];
    }
  }

  lemma ConsAscending(y: real, rest: seq<real>)
    requires Ascending(rest) && forall j | 0 <= j < |rest| :: y <= rest[j]
    ensures Ascending([y] + rest)
  {
    var r := [y] + rest;
    forall i, j | 0 <= i < j < |r| ensures r[i] <= r[j] {
      if i > 0 { assert r[i] == rest[i - 1] && r[j] == rest[j - 1]; }
    }
  }

  /** `sorted(xs)`: an ascending permutation of `xs`. */
  function SortReals(xs: seq<real>): (r: seq<real>)
    ensures Ascending(r)
    ensures multiset(r) == multiset(xs)
  {
    if xs == [] then []
    else
      assert xs == [xs[0]] + xs[1..];
      InsertReal(xs[0], SortReals(xs[1..]))
  }

  /** `statistics.median(xs)`: the middle of the sorted samples, or the mean
      of the two middle ones for an even count. */
  function Median(xs: seq<real>): real
    requires xs != []
  {
    var s := SortReals(xs);
    assert |s| == |multiset(s)| == |xs|;
    var n := |s|;
    if n % 2 == 1 then s[n / 2] else (s[n / 2 - 1] + s[n / 2]) / 2.0
  }

  lemma SquareNonNegative(d: real)
    ensures d * d >= 0.0
  {
    if d < 0.0 {
      assert d * d == (-d) * (-d);
    }
  }

  function SquaredDeviations(xs: seq<real>, c: real): (r: real)
    ensures r >= 0.0
  {
    if xs == [] then 0.0
    else
      var d := xs[|xs| - 1] - c;
      SquareNonNegative(d);
      SquaredDeviations(xs[..|xs| - 1], c) + d * d
  }

  /** `statistics.variance(xs)`: the sample variance, with `n - 1` in the
      denominator; it needs at least two samples. */
  function Variance(xs: seq<real>): (v: real)
    requires |xs| >= 2
    ensures v >= 0.0
  {
    SquaredDeviations(xs, Mean(xs)) / (|xs| - 1) as real
  }

  lemma Distribute(n: real, b: real)
    ensures n * b + b == (n + 1.0) * b
  {
  }

  lemma {:induction false} SumAtMost(xs: seq<real>, b: real)
    requires forall i | 0 <= i < |xs| :: xs[i] <= b
    ensures Sum(xs) <= |xs| as real * b
  {
    if xs != [] {
      var front := xs[..|xs| - 1];
      SumAtMost(front, b);
      Distribute(|front| as real, b);
    }
  }

  lemma {:induction false} SumAtLeast(xs: seq<real>, b: real)
    requires forall i | 0 <= i < |xs| :: b <= xs[i]
    ensures |xs| as real * b <= Sum(xs)
  {
    if xs != [] {
      var front := xs[..|xs| - 1];
      SumAtLeast(front, b);
      Distribute(|front| as real, b);
    }
  }

  lemma DivideBounds(lo: real, x: real, hi: real, n: real)
    requires n > 0.0 && n * lo <= x <= n * hi
    ensures lo <= x / n <= hi
  {
    assert x / n * n == x;
  }

  /** The mean lies between the smallest and the largest sample. */
  lemma MeanBounds(xs: seq<real>)
    requires xs != []
    ensures Min(xs) <= Mean(xs) <= Max(xs)
  {
    SumAtMost(xs, Max(xs));
    SumAtLeast(xs, Min(xs));
    DivideBounds(Min(xs), Sum(xs), Max(xs), |xs| as real);
  }

  /** Max and Min depend only on the multiset of samples. */
  lemma MinMaxOfPermutation(xs: seq<real>, ys: seq<real>)
    requires xs != [] && multiset(xs) == multiset(ys)
    ensures ys != [] && Max(xs) == Max(ys) && Min(xs) == Min(ys)
  {
    assert |ys| == |multiset(ys)| == |xs|;
    assert Max(xs) in multiset(ys) && Max(ys) in multiset(xs);
    assert Min(xs) in multiset(ys) && Min(ys) in multiset(xs);
  }

  /** The median lies between the smallest and the largest sample. */
  lemma MedianBounds(xs: seq<real>)
    requires xs != []
    ensures Min(xs) <= Median(xs) <= Max(xs)
  {
    var s := SortReals(xs);
    MinMaxOfPermutation(xs, s);
    var n := |s|;
    if n % 2 == 0 {
      assert Min(s) <= s[n / 2 - 1] <= Max(s) && Min(s) <= s[n / 2] <= Max(s);
    }
  }

  /** Constant samples have that constant as mean and as bounds, and no
      spread around it. */
  lemma {:induction false} ConstantSamples(xs: seq<real>, c: real)
    requires xs != [] && forall i | 0 <= i < |xs| :: xs[i] == c
    ensures Mean(xs) == c
    ensures Max(xs) == c && Min(xs) == c
    ensures SquaredDeviations(xs, c) == 0.0
  {
    SumAtMost(xs, c);
    SumAtLeast(xs, c);
    ConstantDeviations(xs, c);
  }

  lemma {:induction false} ConstantDeviations(xs: seq<real>, c: real)
    requires forall i | 0 <= i < |xs| :: xs[i] == c
    ensures SquaredDeviations(xs, c) == 0.0
  {
    if xs != [] {
      ConstantDeviations(xs[..|xs| - 1], c);
    }
  }
}
