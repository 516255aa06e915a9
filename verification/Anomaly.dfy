/** The online anomaly detector: Welford's recurrence, z-score classes, streaks.

    Arithmetic is over exact reals, with an exact square root as a parameter of the detector.
    In statements, a comparison of the z-score d / sqrt(v) with a bound b > 0 is written as
    d^2 > b^2 v together with the sign of d. */
module Anomaly {
  import opened Common

  const BUF_SIZE := 1000
  const SUSTAINED := 5
  const WARM_UP := 10

  // ------------------------------------------------------------------ true statistics

  function Sum(s: seq<real>): real {
    if s == [] then 0.0 else Sum(s[..|s| - 1]) + s[|s| - 1]
  }

  /** Sum of squared deviations from c. */
  function Deviations(s: seq<real>, c: real): real {
    if s == [] then 0.0
    else Deviations(s[..|s| - 1], c) + (s[|s| - 1] - c) * (s[|s| - 1] - c)
  }

  function Squares(s: seq<real>): real {
    if s == [] then 0.0 else Squares(s[..|s| - 1]) + s[|s| - 1] * s[|s| - 1]
  }

  function Mean(s: seq<real>): real
    requires s != []
  {
    Sum(s) / |s| as real
  }

  /** The true sum of squared deviations from the true mean. */
  function Spread(s: seq<real>): real
    requires s != []
  {
    Deviations(s, Mean(s))
  }

  lemma {:induction false} DeviationsExpand(s: seq<real>, c: real)
    ensures Deviations(s, c) == Expanded(Squares(s), Sum(s), |s| as real, c)
  {
    hide Expanded;
    if s == [] {
      ExpandNothing(c);
    } else {
      var init, x := s[..|s| - 1], s[|s| - 1];
      DeviationsExpand(init, c);
      ExpandStep(Squares(init), Sum(init), |init| as real, x, c);
      var q, t, n := Squares(init) + x * x, Sum(init) + x, |init| as real + 1.0;
      assert q == Squares(s) && t == Sum(s) && n == |s| as real;
      assert Deviations(s, c) == Deviations(init, c) + (x - c) * (x - c);
      assert Expanded(q, t, n, c) == Expanded(Squares(s), Sum(s), |s| as real, c);
    }
  }

  /** q - 2 c t + n c^2: squared deviations from c, given the sums. */
  function Expanded(q: real, t: real, n: real, c: real): real {
    q - 2.0 * c * t + n * c * c
  }

  lemma ExpandNothing(c: real)
    ensures Expanded(0.0, 0.0, 0.0, c) == 0.0
  {
  }

  /** When n c = t the expansion is q - c t. */
  lemma ExpandedAtMean(q: real, t: real, n: real, c: real)
    requires c * n == t
    ensures Expanded(q, t, n, c) == q - c * t
  {
    assert n * c * c == (c * n) * c;
  }

  lemma ExpandStep(q: real, t: real, n: real, x: real, c: real)
    ensures Expanded(q, t, n, c) + (x - c) * (x - c) == Expanded(q + x * x, t + x, n + 1.0, c)
  {
    assert (x - c) * (x - c) == x * x - 2.0 * c * x + c * c;
    assert 2.0 * c * (t + x) == 2.0 * c * t + 2.0 * c * x;
    assert (n + 1.0) * c * c == n * c * c + c * c;
  }

  lemma {:induction false} DeviationsNonNegative(s: seq<real>, c: real)
    ensures Deviations(s, c) >= 0.0
  {
    if s != [] {
      DeviationsNonNegative(s[..|s| - 1], c);
      var d := s[|s| - 1] - c;
      assert d * d >= 0.0;
    }
  }

  lemma MeanTimesCount(s: seq<real>)
    requires s != []
    ensures Mean(s) * |s| as real == Sum(s)
  {
  }

  /** The spread in terms of sums: squares minus mean times sum. */
  lemma SpreadFromSums(s: seq<real>)
    requires s != []
    ensures Spread(s) == Squares(s) - Mean(s) * Sum(s)
  {
    hide Expanded, Deviations, Sum, Squares;
    DeviationsExpand(s, Mean(s));
    MeanTimesCount(s);
    ExpandedAtMean(Squares(s), Sum(s), |s| as real, Mean(s));
  }

  // ------------------------------------------------------------------ Welford's recurrence

  /** The recurrence on plain numbers: n samples with sum t, square sum q, mean c. */
  lemma WelfordStep(n: real, t: real, q: real, c: real, x: real)
    requires n >= 0.0 && c * n == t
    ensures var c' := c + (x - c) / (n + 1.0);
      && c' * (n + 1.0) == t + x
      && (q - c * t) + (x - c) * (x - c') == (q + x * x) - c' * (t + x)
      && (x - c') * (n + 1.0) == (x - c) * n
  {
    var m := n + 1.0;
    var c' := c + (x - c) / m;
    var h := (x - c) / m;
    assert h * m == x - c;
    assert c' * m == c * m + h * m;
    assert c * m == c * n + c;
    assert c' * m == t + x;
    WelfordProduct(t, q, c, c', x, n);
    assert (x - c') * m == x * m - c' * m;
    assert x * m == x * n + x;
    assert (x - c) * n == x * n - c * n;
  }

  lemma WelfordProduct(t: real, q: real, c: real, c': real, x: real, n: real)
    requires c * n == t && c' * (n + 1.0) == t + x
    ensures (q - c * t) + (x - c) * (x - c') == (q + x * x) - c' * (t + x)
  {
    assert (x - c) * (x - c') == x * x - x * c' - c * x + c * c';
    assert c' * (t + x) == c' * t + c' * x;
    assert c * (t + x) == c * t + c * x;
    // c (t + x) = c c' (n + 1) = c' t + c c'
    assert c * (t + x) == c * (c' * (n + 1.0)) == c' * (c * n) + c * c';
  }

  /** What the detector's mean and m2 hold after the samples s. */
  predicate Tracks(s: seq<real>, mean: real, m2: real) {
    if s == [] then mean == 0.0 && m2 == 0.0 else mean == Mean(s) && m2 == Spread(s)
  }

  /** One update keeps mean and m2 equal to the true mean and spread, never lowers m2, and
      bounds the squared deviation of the newest sample. */
  lemma {:induction false} WelfordTracks(s: seq<real>, mean: real, m2: real, x: real)
    requires Tracks(s, mean, m2)
    ensures var n := |s| as real;
      var mean' := mean + (x - mean) / (n + 1.0);
      var m2' := m2 + (x - mean) * (x - mean');
      && Tracks(s + [x], mean', m2')
      && m2' >= m2 >= 0.0
      && (x - mean') * (x - mean') * (n + 1.0) <= n * m2'
  {
    hide Deviations, Sum, Squares;
    var n := |s| as real;
    SumsPush(s, x);
    if s == [] {
      SumsOfNothing(s);
    } else {
      MeanTimesCount(s);
      SpreadFromSums(s);
      SpreadNonNegative(s);
    }
    WelfordAdvances(s, mean, m2, x);
    WelfordStep(n, Sum(s), Squares(s), mean, x);
    var mean' := mean + (x - mean) / (n + 1.0);
    NewestBound(n, x - mean, x - mean', m2, m2 + (x - mean) * (x - mean'));
  }

  lemma SumsPush(s: seq<real>, x: real)
    ensures Sum(s + [x]) == Sum(s) + x && Squares(s + [x]) == Squares(s) + x * x
  {
    assert (s + [x])[..|s|] == s;
  }

  lemma SumsOfNothing(s: seq<real>)
    requires s == []
    ensures Sum(s) == 0.0 && Squares(s) == 0.0
  {
  }

  lemma SpreadNonNegative(s: seq<real>)
    requires s != []
    ensures Spread(s) >= 0.0
  {
    DeviationsNonNegative(s, Mean(s));
  }

  lemma WelfordAdvances(s: seq<real>, mean: real, m2: real, x: real)
    requires mean * |s| as real == Sum(s) && m2 == Squares(s) - mean * Sum(s)
    ensures var mean' := mean + (x - mean) / (|s| as real + 1.0);
      mean' == Mean(s + [x]) && m2 + (x - mean) * (x - mean') == Spread(s + [x])
  {
    hide Deviations, Sum, Squares;
    var n, all := |s| as real, s + [x];
    SumsPush(s, x);
    WelfordStep(n, Sum(s), Squares(s), mean, x);
    MeanTimesCount(all);
    SpreadFromSums(all);
    QuotientUnique(mean + (x - mean) / (n + 1.0), Mean(all), n + 1.0, Sum(all));
  }

  lemma QuotientUnique(a: real, b: real, m: real, t: real)
    requires m > 0.0 && a * m == t && b * m == t
    ensures a == b
  {
    assert (a - b) * m == 0.0;
  }

  lemma NewestBound(n: real, d: real, d': real, m2: real, m2': real)
    requires n >= 0.0 && m2 >= 0.0 && m2' == m2 + d * d' && d' * (n + 1.0) == d * n
    ensures m2' >= m2 && d' * d' * (n + 1.0) <= n * m2'
  {
    var m := n + 1.0;
    assert d * d >= 0.0;
    assert (d * d') * m == d * (d' * m) == d * (d * n) == (d * d) * n;
    assert (d * d) * n >= 0.0;
    FactorNonNegative(d * d', m);
    assert d' * d' * m == d' * (d' * m) == d' * (d * n) == n * (d * d');
    assert n * m2' == n * m2 + n * (d * d');
    assert n * m2 >= 0.0;
  }

  // ------------------------------------------------------------------ classes and verdicts

  datatype Kind = Nothing | Spike | Drop | SustainedHigh | SustainedLow

  datatype Severity = Low | Medium | High | Critical

  datatype Report = Report(kind: Kind, severity: Severity, score: real, value: real, mean: real)

  /** The squared z-score exceeds b^2, where z = d / sqrt(m2 / n). */
  predicate Beyond(d: real, m2: real, n: int, b: real) {
    d * d * n as real > b * b * m2
  }

  /** The class of the newest of the samples s by its own z-score. */
  function Class(s: seq<real>): Kind {
    if |s| < WARM_UP || Spread(s) == 0.0 then Nothing
    else
      var d := s[|s| - 1] - Mean(s);
      if d > 0.0 && Beyond(d, Spread(s), |s|, 2.0) then Spike
      else if d < 0.0 && Beyond(d, Spread(s), |s|, 2.0) then Drop
      else Nothing
  }

  /** Length of the run of samples of this class that ends the sequence. */
  function Run(s: seq<real>, kind: Kind): nat {
    if s == [] || Class(s) != kind then 0 else 1 + Run(s[..|s| - 1], kind)
  }

  /** Whether each of the last k samples had this class when it arrived. */
  ghost predicate LastAll(s: seq<real>, kind: Kind, k: nat) {
    k <= |s| && forall m :: |s| - k < m <= |s| ==> Class(s[..m]) == kind
  }

  lemma LastAllStep(s: seq<real>, kind: Kind, k: nat)
    requires s != [] && k > 0
    ensures LastAll(s, kind, k) <==> Class(s) == kind && LastAll(s[..|s| - 1], kind, k - 1)
  {
    hide Class;
    var init := s[..|s| - 1];
    assert s[..|s|] == s;
    assert forall m :: 0 <= m <= |init| ==> init[..m] == s[..m];
    if k <= |s| && Class(s) == kind && LastAll(init, kind, k - 1) {
      forall m | |s| - k < m <= |s| ensures Class(s[..m]) == kind {
        if m < |s| { assert Class(init[..m]) == kind; }
      }
    }
  }

  lemma {:induction false} RunMeansLastAll(s: seq<real>, kind: Kind, k: nat)
    ensures Run(s, kind) >= k <==> LastAll(s, kind, k)
    decreases k
  {
    hide Class;
    if k > 0 && s != [] {
      RunMeansLastAll(s[..|s| - 1], kind, k - 1);
      LastAllStep(s, kind, k);
    }
  }

  function Verdict(s: seq<real>): Kind {
    if Run(s, Spike) >= SUSTAINED then SustainedHigh
    else if Run(s, Drop) >= SUSTAINED then SustainedLow
    else Class(s)
  }

  function SeverityOf(s: seq<real>): Severity
    requires s != []
  {
    var d := s[|s| - 1] - Mean(s);
    if Class(s) == Nothing then Low
    else if Beyond(d, Spread(s), |s|, 4.0) then Critical
    else if Beyond(d, Spread(s), |s|, 3.0) then High
    else Medium
  }

  /** A sustained verdict is given exactly when the last five samples were all spikes, or all drops. */
  lemma SustainedMeansFive(s: seq<real>)
    ensures Verdict(s) == SustainedHigh <==> LastAll(s, Spike, 5)
    ensures Verdict(s) == SustainedLow <==> LastAll(s, Drop, 5)
  {
    RunMeansLastAll(s, Spike, SUSTAINED);
    RunMeansLastAll(s, Drop, SUSTAINED);
    hide LastAll;
  }

  /** The squared z-score of the newest sample is at most n - 1. */
  lemma NewestZScore(s: seq<real>)
    requires s != []
    ensures var d := s[|s| - 1] - Mean(s);
      d * d * |s| as real <= (|s| as real - 1.0) * Spread(s)
    ensures Spread(s) >= 0.0
  {
    hide Mean, Spread;
    var init := s[..|s| - 1];
    assert s == init + [s[|s| - 1]];
    SpreadNonNegative(s);
    WelfordTracks(init, if init == [] then 0.0 else Mean(init), if init == [] then 0.0 else Spread(init), s[|s| - 1]);
  }

  /** High severity cannot occur before the 11th sample, nor critical before the 18th. */
  lemma SeverityNeedsSamples(s: seq<real>)
    requires s != []
    ensures SeverityOf(s) == High ==> |s| >= 11
    ensures SeverityOf(s) == Critical ==> |s| >= 18
  {
    NewestZScore(s);
    var d, n, v := s[|s| - 1] - Mean(s), |s| as real, Spread(s);
    if SeverityOf(s) == High { CountAbove(d * d * n, n - 1.0, 9.0, v); }
    if SeverityOf(s) == Critical { CountAbove(d * d * n, n - 1.0, 16.0, v); }
  }

  // ------------------------------------------------------------------ the bounds are attained

  /** k equal samples and a different one. */
  function Lone(k: nat, c: real, x: real): seq<real> {
    Same(k, c) + [x]
  }

  function Same(k: nat, c: real): (s: seq<real>)
    ensures |s| == k
  {
    if k == 0 then [] else Same(k - 1, c) + [c]
  }

  lemma {:induction false} EqualSamples(k: nat, c: real)
    ensures k > 0 ==> Tracks(Same(k, c), c, 0.0)
  {
    hide Mean, Spread;
    if k > 0 {
      EqualSamples(k - 1, c);
      WelfordTracks(Same(k - 1, c), if k == 1 then 0.0 else c, 0.0, c);
    }
  }

  lemma LoneStatistics(k: nat, c: real, x: real)
    requires k > 0
    ensures var s := Lone(k, c, x);
      |s| == k + 1 && Mean(s) == c + (x - c) / |s| as real && Spread(s) == (x - c) * (x - Mean(s))
  {
    hide Mean, Spread;
    EqualSamples(k, c);
    WelfordTracks(Same(k, c), c, 0.0, x);
    assert k as real + 1.0 == |Lone(k, c, x)| as real;
  }

  /** The newest sample after k equal ones reaches the bound: its squared z-score is exactly k. */
  lemma LoneReachesBound(k: nat, c: real, x: real)
    requires k > 0 && x != c
    ensures var s := Lone(k, c, x);
      var d := x - Mean(s);
      && d * d * |s| as real == k as real * Spread(s) && Spread(s) > 0.0
      && (d > 0.0 <==> x > c) && (d < 0.0 <==> x < c)
  {
    hide Mean, Spread, Lone;
    var s := Lone(k, c, x);
    LoneStatistics(k, c, x);
    LoneArithmetic(k as real, |s| as real, x - c, x - Mean(s), Spread(s));
  }

  lemma LoneArithmetic(n: real, m: real, d: real, d': real, v: real)
    requires n >= 1.0 && m == n + 1.0 && d != 0.0 && d' == d - d / m && v == d * d'
    ensures d' * d' * m == n * v && v > 0.0
    ensures (d' > 0.0 <==> d > 0.0) && (d' < 0.0 <==> d < 0.0)
  {
    var h := d / m;
    assert h * m == d;
    assert d' == h * n;
    assert d' * m == (h * m) * n == d * n;
    assert d' * d' * m == d' * (d' * m) == d' * (d * n) == n * (d * d');
    LoneSigns(h, n);
  }

  lemma LoneSigns(h: real, n: real)
    requires n >= 1.0 && h * (n + 1.0) != 0.0
    ensures (h * (n + 1.0)) * (h * n) > 0.0
    ensures h * n > 0.0 <==> h * (n + 1.0) > 0.0
    ensures h * n < 0.0 <==> h * (n + 1.0) < 0.0
  {
    var a := if h > 0.0 then h else -h;
    var p, q := a * n, a * (n + 1.0);
    ProductPositive(a, n, p);
    ProductPositive(a, n + 1.0, q);
    ProductPositive(p, q, (h * (n + 1.0)) * (h * n));
  }

  /** So the newest of n samples, the others being equal, is graded by n alone. */
  lemma LoneSeverity(k: nat, c: real, x: real)
    requires x != c
    ensures SeverityOf(Lone(k, c, x)) ==
      if k < 9 then Low else if k < 10 then Medium else if k < 17 then High else Critical
  {
    var s := Lone(k, c, x);
    hide Mean, Spread, Beyond;
    if k >= 9 {
      LoneReachesBound(k, c, x);
      var d, v := x - Mean(s), Spread(s);
      LoneBeyond(d, v, |s|, k as real, 2.0);
      LoneBeyond(d, v, |s|, k as real, 3.0);
      LoneBeyond(d, v, |s|, k as real, 4.0);
    }
  }

  lemma LoneBeyond(d: real, v: real, n: int, k: real, b: real)
    requires v > 0.0 && d * d * n as real == k * v
    ensures Beyond(d, v, n, b) <==> k > b * b
  {
    assert k * v - b * b * v == (k - b * b) * v;
  }

  /** Sample counts at which the two upper severities can occur, exactly. */
  lemma SeverityIffSamples(n: nat)
    ensures (exists s :: |s| == n && s != [] && (SeverityOf(s) == High || SeverityOf(s) == Critical)) <==> n >= 11
    ensures (exists s :: |s| == n && s != [] && SeverityOf(s) == Critical) <==> n >= 18
  {
    hide SeverityOf;
    forall s: seq<real> | |s| == n && s != []
      ensures SeverityOf(s) == High || SeverityOf(s) == Critical ==> n >= 11
      ensures SeverityOf(s) == Critical ==> n >= 18
    {
      SeverityNeedsSamples(s);
    }
    if n >= 11 {
      LoneSeverity(n - 1, 0.0, 1.0);
      assert |Lone(n - 1, 0.0, 1.0)| == n;
    }
  }

  lemma CountAbove(z: real, count: real, bound: real, v: real)
    requires bound * v < z <= count * v && v >= 0.0
    ensures count > bound
  {
    FactorPositive(count - bound, v);
  }

  /** Neither warm-up nor identical samples can have started a streak. */
  lemma NoRunYet(s: seq<real>, kind: Kind)
    requires kind != Nothing && (|s| < WARM_UP || Spread(s) == 0.0)
    ensures Run(s, kind) == 0
  {
    hide Spread, Beyond;
  }

  lemma RunPush(s: seq<real>, x: real, kind: Kind)
    ensures Run(s + [x], kind) == if Class(s + [x]) == kind then 1 + Run(s, kind) else 0
  {
    hide Class;
    assert (s + [x])[..|s|] == s;
  }

  // ------------------------------------------------------------------ the z-score itself

  /** The score that is reported with a sample. */
  function ZScore(s: seq<real>, sqrt: real -> real): real {
    if |s| < WARM_UP || Spread(s) == 0.0 || sqrt(Spread(s) / |s| as real) == 0.0 then 0.0
    else (s[|s| - 1] - Mean(s)) / sqrt(Spread(s) / |s| as real)
  }

  /** The reported score has the sign of the deviation and its square is the squared z-score;
      beyond 2 it makes a spike, below -2 a drop. */
  lemma ScoreMeans(s: seq<real>, sqrt: real -> real)
    requires IsRoot(sqrt) && |s| >= WARM_UP && Spread(s) > 0.0
    ensures var d, z := s[|s| - 1] - Mean(s), ZScore(s, sqrt);
      && z * z * Spread(s) == d * d * |s| as real
      && (z > 0.0 <==> d > 0.0) && (z < 0.0 <==> d < 0.0)
      && Class(s) == (if z > 2.0 then Spike else if z < -2.0 then Drop else Nothing)
  {
    hide Mean, Spread, Class, SeverityOf;
    var n, v := |s| as real, Spread(s);
    var dev := sqrt(v / n);
    RootIsZero(v, |s|, dev);
    ZScoreDecides(s, dev);
    ScoreSquare(s[|s| - 1] - Mean(s), dev, v, n);
  }

  lemma ScoreSquare(d: real, dev: real, v: real, n: real)
    requires n > 0.0 && dev > 0.0 && dev * dev == v / n
    ensures d / dev * (d / dev) * v == d * d * n
    ensures (d / dev > 0.0 <==> d > 0.0) && (d / dev < 0.0 <==> d < 0.0)
  {
    var z := d / dev;
    assert z * dev == d;
    assert v == dev * dev * n;
    assert z * z * (dev * dev * n) == (z * dev) * (z * dev) * n;
  }

  /** Comparing the z-score with a positive bound is comparing squares, on the side of its sign. */
  lemma ZScoreTest(d: real, m2: real, n: int, dev: real, b: real)
    requires n > 0 && dev > 0.0 && b > 0.0 && dev * dev == m2 / n as real
    ensures d / dev > b <==> d > 0.0 && Beyond(d, m2, n, b)
    ensures d / dev < -b <==> d < 0.0 && Beyond(d, m2, n, b)
    ensures Magnitude(d / dev) > b <==> Beyond(d, m2, n, b)
  {
    var z, m := d / dev, n as real;
    assert z * dev == d;
    assert m2 == dev * dev * m;
    var w := dev * dev * m;
    assert d * d * m == z * z * w by { assert d * d == z * z * (dev * dev); }
    SquarePositive(dev, m2 / m);
    ProductPositive(m2 / m, m, w);
    SquareTest(z, b, w);
    assert (d > 0.0 <==> z > 0.0) && (d < 0.0 <==> z < 0.0);
  }

  /** The comparisons of the z-score decide class and severity. */
  lemma ZScoreDecides(s: seq<real>, dev: real)
    requires |s| >= WARM_UP && dev > 0.0 && dev * dev == Spread(s) / |s| as real
    ensures var z := (s[|s| - 1] - Mean(s)) / dev;
      && Class(s) == (if z > 2.0 then Spike else if z < -2.0 then Drop else Nothing)
      && SeverityOf(s) ==
           if -2.0 <= z <= 2.0 then Low else if Magnitude(z) > 4.0 then Critical else if Magnitude(z) > 3.0 then High else Medium
  {
    hide Mean, Spread, Beyond;
    var d, v, n := s[|s| - 1] - Mean(s), Spread(s), |s|;
    SquarePositive(dev, v / n as real);
    ZScoreTest(d, v, n, dev, 2.0);
    ZScoreTest(d, v, n, dev, 3.0);
    ZScoreTest(d, v, n, dev, 4.0);
  }

  lemma FlatIsNothing(s: seq<real>)
    requires s != [] && (|s| < WARM_UP || Spread(s) == 0.0)
    ensures Class(s) == Nothing && SeverityOf(s) == Low
  {
    hide Mean, Spread, Beyond;
  }

  lemma SquareTest(z: real, b: real, w: real)
    requires b > 0.0 && w > 0.0
    ensures z * z * w > b * b * w <==> Magnitude(z) > b
  {
    var a := Magnitude(z);
    assert z * z == a * a;
    assert z * z * w - b * b * w == (a - b) * ((a + b) * w);
    assert (a + b) * w > 0.0;
  }

  function Magnitude(x: real): real {
    if x < 0.0 then -x else x
  }

  // ------------------------------------------------------------------ the detector

  /** Where sample k (counted from 0) lies in the ring buffer. */
  function RingSlot(k: int): (r: int)
    ensures 0 <= r < BUF_SIZE
  {
    (k + 1) % BUF_SIZE
  }

  class AnomalyDetector {
    var highStreak: int
    var lowStreak: int
    var n: int
    var mean: real
    var m2: real
    const buf: array<real>
    var idx: int
    var count: int
    /** Every sample recorded so far. */
    ghost var samples: seq<real>

    /** Counters, statistics and ring buffer agree with the samples. */
    ghost predicate Accurate()
      reads this, buf
    {
      && buf.Length == BUF_SIZE && n == count == |samples| && idx == n % BUF_SIZE
      && Tracks(samples, mean, m2)
      && forall k :: 0 <= k < |samples| && |samples| - BUF_SIZE <= k ==> buf[RingSlot(k)] == samples[k]
    }

    ghost predicate Valid()
      reads this, buf
    {
      Accurate() && highStreak == Run(samples, Spike) && lowStreak == Run(samples, Drop)
    }

    constructor ()
      ensures Valid() && samples == []
    {
      highStreak, lowStreak, n, mean, m2, idx, count := 0, 0, 0, 0.0, 0.0, 0, 0;
      buf := new real[BUF_SIZE](_ => 0.0);
      samples := [];
    }

    method Store(value: real)
      requires Accurate()
      modifies buf, this`idx
      ensures idx == RingSlot(n)
      ensures forall k :: 0 <= k < |samples| + 1 && |samples| + 1 - BUF_SIZE <= k ==>
        buf[RingSlot(k)] == (samples + [value])[k]
    {
      hide Tracks, RingSlot;
      NextSlot(n);
      idx := (idx + 1) % BUF_SIZE;
      buf[idx] := value;
      forall k | 0 <= k < |samples| && |samples| + 1 - BUF_SIZE <= k ensures RingSlot(k) != idx {
        RingSlots(k, n);
      }
    }

    /** The ring buffer and Welford's update. */
    method Accumulate(value: real)
      requires Accurate()
      modifies this`idx, this`n, this`mean, this`m2, this`count, this`samples, buf
      ensures Accurate() && samples == old(samples) + [value] && m2 >= old(m2) >= 0.0
    {
      hide Mean, Spread;
      WelfordTracks(samples, mean, m2, value);
      Store(value);
      count := count + 1;
      n := n + 1;
      var delta := value - mean;
      mean := mean + delta / n as real;
      var delta2 := value - mean;
      m2 := m2 + delta * delta2;
      samples := samples + [value];
    }

    method Record(value: real, sqrt: real -> real) returns (r: Report)
      requires Valid() && IsRoot(sqrt)
      modifies this, buf
      ensures Valid() && samples == old(samples) + [value]
      ensures r.kind == Verdict(samples) && r.severity == SeverityOf(samples) && r.value == value
      ensures r.score == ZScore(samples, sqrt)
      ensures r.mean == if |samples| < WARM_UP then value else Mean(samples)
    {
      hide Mean, Spread, Run, Class, SeverityOf;
      ghost var before := samples;
      RunPush(samples, value, Spike);
      RunPush(samples, value, Drop);
      if |before| + 1 < WARM_UP || Flat(before) {
        NoRunYet(before, Spike);
        NoRunYet(before, Drop);
      }
      Accumulate(value);
      if count < WARM_UP {
        FlatIsNothing(samples);
        return Report(Nothing, Low, 0.0, value, value);
      }
      var stddev := sqrt(m2 / n as real);
      RootIsZero(m2, n, stddev);
      if stddev == 0.0 {
        FlatIsNothing(samples);
        return Report(Nothing, Low, 0.0, value, mean);
      }
      var z := (value - mean) / stddev;
      ZScoreDecides(samples, stddev);
      if z <= 2.0 && z >= -2.0 {
        highStreak, lowStreak := 0, 0;
        return Report(Nothing, Low, z, value, mean);
      }
      var kind := if z > 2.0 then Spike else Drop;
      if kind == Spike {
        highStreak, lowStreak := highStreak + 1, 0;
      } else {
        lowStreak, highStreak := lowStreak + 1, 0;
      }
      if highStreak >= SUSTAINED {
        kind := SustainedHigh;
      } else if lowStreak >= SUSTAINED {
        kind := SustainedLow;
      }
      var severity := if Magnitude(z) > 4.0 then Critical else if Magnitude(z) > 3.0 then High else Medium;
      r := Report(kind, severity, z, value, mean);
    }
  }

  lemma RootIsZero(m2: real, n: int, dev: real)
    requires n > 0 && m2 >= 0.0 && dev * dev == m2 / n as real
    ensures dev == 0.0 <==> m2 == 0.0
  {
    if dev != 0.0 {
      SquarePositive(dev, m2 / n as real);
      ProductPositive(m2 / n as real, n as real, m2);
    }
  }

  /** No spread yet. */
  predicate Flat(s: seq<real>) {
    s == [] || Spread(s) == 0.0
  }

  lemma NextSlot(n: int)
    ensures (n % BUF_SIZE + 1) % BUF_SIZE == RingSlot(n)
  {
  }

  lemma RingSlots(a: int, b: int)
    requires b - BUF_SIZE < a < b
    ensures RingSlot(a) != RingSlot(b)
  {
  }
}
