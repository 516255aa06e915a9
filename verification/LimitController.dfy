/** The feedback controller of one model's concurrency limit: halving on overload, gradient
    increase on every fifth success, and a learned ceiling that decays. */
module LimitController {
  import opened Common
  import opened RttTracker

  const COOLDOWN := 5_000_000_000
  const CEILING_LIFETIME := 300_000_000_000

  datatype Bounds = Bounds(minLimit: int, maxLimit: int)

  /** The part of a model that changes only under the limiter's mutex. */
  datatype Control = Control(limit: int, peak: int, peakSet: int)

  function Clamp(lo: real, x: real, hi: real): real
    requires lo <= hi
  {
    if x < lo then lo else if x > hi then hi else x
  }

  /** Conversion from floating point to an integer: toward zero. */
  function Truncate(x: real): int {
    if x >= 0.0 then x.Floor else -((-x).Floor)
  }

  /** How the fastest RTT, with a 10% buffer, compares with this one, between 0.8 and 2. */
  function Gradient(minRTT: int, rtt: int): real
    requires rtt > 0
  {
    Clamp(0.8, (minRTT + minRTT / 10) as real / rtt as real, 2.0)
  }

  /** What a raise adds to the scaled limit. */
  function Additive(limit: int, sqrt: real -> real): real {
    if sqrt(limit as real) > 1.0 then sqrt(limit as real) else 1.0
  }

  /** The limit the gradient rule proposes; sqrt may be any function. */
  function Proposed(limit: int, minRTT: int, rtt: int, sqrt: real -> real): int {
    if minRTT > 0 && rtt > 0 then Scaled(Gradient(minRTT, rtt), limit, Additive(limit, sqrt)) else limit + 1
  }

  function Scaled(gradient: real, limit: int, additive: real): int {
    Truncate(gradient * limit as real + additive)
  }

  /** The critical section run on 429, 503 and 529. */
  function Overload(b: Bounds, c: Control, now: int): Control {
    var halved := Div(c.limit * 5, 10);
    Control(if halved < b.minLimit then b.minLimit else halved, c.limit, now)
  }

  /** The critical section run on every fifth success outside the cooldown. */
  function Raise(b: Bounds, c: Control, minRTT: int, rtt: int, now: int, sqrt: real -> real): Control {
    if c.limit >= b.maxLimit then c
    else
      var proposed := Proposed(c.limit, minRTT, rtt, sqrt);
      var capped := if proposed > b.maxLimit then b.maxLimit else proposed;
      var expired := c.peak > 0 && now - c.peakSet > CEILING_LIFETIME;
      var below := if c.peak > 0 && !expired && capped >= c.peak then c.peak - 1 else capped;
      Control(if below > c.limit then below else c.limit, if expired then 0 else c.peak, c.peakSet)
  }

  // ------------------------------------------------------------------ every interleaving

  datatype Section = OnOverload(now: int) | OnSuccess(minRTT: int, rtt: int, now: int)

  function RunSection(b: Bounds, c: Control, x: Section, sqrt: real -> real): Control {
    match x
    case OnOverload(now) => Overload(b, c, now)
    case OnSuccess(minRTT, rtt, now) => Raise(b, c, minRTT, rtt, now, sqrt)
  }

  function RunSections(b: Bounds, c: Control, xs: seq<Section>, sqrt: real -> real): Control {
    if xs == [] then c
    else RunSection(b, RunSections(b, c, xs[..|xs| - 1], sqrt), xs[|xs| - 1], sqrt)
  }

  ghost predicate Within(b: Bounds, c: Control) {
    && b.minLimit <= c.limit <= b.maxLimit
    && (c.peak > 0 ==> c.limit < c.peak || c.limit == b.minLimit)
  }

  lemma SectionKeepsWithin(b: Bounds, c: Control, x: Section, sqrt: real -> real)
    requires b.minLimit == 1 && Within(b, c)
    ensures Within(b, RunSection(b, c, x, sqrt))
    ensures x.OnSuccess? ==> RunSection(b, c, x, sqrt).limit >= c.limit
    ensures x.OnOverload? ==> RunSection(b, c, x, sqrt).limit <= c.limit && RunSection(b, c, x, sqrt).peak == c.limit
  {
    hide Proposed;
  }

  /** The mutex orders the critical sections of concurrent calls in some sequence; whatever
      the sequence and whatever RTTs and times they read, the limit stays in range and below
      a learned ceiling. */
  lemma {:induction false} SectionsKeepWithin(b: Bounds, c: Control, xs: seq<Section>, sqrt: real -> real)
    requires b.minLimit == 1 && Within(b, c)
    ensures Within(b, RunSections(b, c, xs, sqrt))
  {
    if xs != [] {
      SectionsKeepWithin(b, c, xs[..|xs| - 1], sqrt);
      SectionKeepsWithin(b, RunSections(b, c, xs[..|xs| - 1], sqrt), xs[|xs| - 1], sqrt);
    }
  }

  // ------------------------------------------------------------------ constructor

  function ConfiguredBounds(max: int, probeMultiplier: int): Bounds {
    Bounds(1, max * (if probeMultiplier <= 0 then 10 else probeMultiplier))
  }

  function DefaultBounds(defaultLimit: int): Bounds {
    Bounds(1, defaultLimit)
  }

  /** The limit is in range and below a learned ceiling after every sequence of sections. */
  ghost predicate AlwaysWithin(b: Bounds, c: Control, sqrt: real -> real) {
    forall xs: seq<Section> :: Within(b, RunSections(b, c, xs, sqrt))
  }

  lemma AlwaysWithinFromStart(b: Bounds, c: Control, sqrt: real -> real)
    requires b.minLimit == 1
    ensures AlwaysWithin(b, c, sqrt) <==> Within(b, c)
  {
    hide RunSection, Within;
    var none: seq<Section> := [];
    assert RunSections(b, c, none, sqrt) == c;
    if Within(b, c) {
      forall xs: seq<Section> ensures Within(b, RunSections(b, c, xs, sqrt)) {
        SectionsKeepWithin(b, c, xs, sqrt);
      }
    }
  }

  /** A configured model keeps its limit in range forever exactly when its configured limit is
      at least 1. */
  lemma ConfiguredIsBounded(max: int, probeMultiplier: int, sqrt: real -> real)
    ensures AlwaysWithin(ConfiguredBounds(max, probeMultiplier), Control(max, 0, 0), sqrt) <==> max >= 1
  {
    hide AlwaysWithin;
    AlwaysWithinFromStart(ConfiguredBounds(max, probeMultiplier), Control(max, 0, 0), sqrt);
    if max >= 1 { ProductCovers(max, if probeMultiplier <= 0 then 10 else probeMultiplier); }
  }

  lemma ProductCovers(max: int, p: int)
    requires max >= 1 && p >= 1
    ensures max * p >= max
  {
    assert max * p == max + max * (p - 1);
  }

  lemma DefaultIsBounded(defaultLimit: int, sqrt: real -> real)
    ensures AlwaysWithin(DefaultBounds(defaultLimit), Control(defaultLimit, 0, 0), sqrt) <==> defaultLimit >= 1
  {
    hide AlwaysWithin;
    AlwaysWithinFromStart(DefaultBounds(defaultLimit), Control(defaultLimit, 0, 0), sqrt);
  }

  /** With a configured limit below 1 a single overload lifts the limit above the maximum. */
  lemma UnconfiguredEscapes(max: int, probeMultiplier: int, now: int)
    requires max <= 0
    ensures var b := ConfiguredBounds(max, probeMultiplier);
      Overload(b, Control(max, 0, 0), now).limit == 1 > b.maxLimit
  {
    var p := if probeMultiplier <= 0 then 10 else probeMultiplier;
    assert max * p <= 0;
  }

  /** The same for the default model, whose limit is taken from the environment as it is. */
  lemma DefaultEscapes(defaultLimit: int, now: int)
    requires defaultLimit <= 0
    ensures var b := DefaultBounds(defaultLimit);
      Overload(b, Control(defaultLimit, 0, 0), now).limit == 1 > b.maxLimit
  {
  }

  // ------------------------------------------------------------------ progress

  /** How high the limit can climb at this moment: to the maximum, or just below a learned
      ceiling that is less than five minutes old. */
  function Reach(b: Bounds, c: Control, now: int): int {
    if c.peak > 0 && now - c.peakSet <= 300_000_000_000 && c.peak - 1 < b.maxLimit then c.peak - 1 else b.maxLimit
  }

  /** A response within 10% of the fastest seen raises the limit by at least one, and by the
      whole root of the limit, as far as it can climb. */
  lemma CalmRaise(b: Bounds, c: Control, minRTT: int, rtt: int, now: int, sqrt: real -> real)
    requires 1 <= c.limit < Reach(b, c, now)
    requires 0 < rtt <= minRTT + minRTT / 10 && minRTT > 0
    ensures c.limit + 1 <= Raise(b, c, minRTT, rtt, now, sqrt).limit <= Reach(b, c, now)
    ensures Raise(b, c, minRTT, rtt, now, sqrt).limit == Reach(b, c, now)
      || Raise(b, c, minRTT, rtt, now, sqrt).limit >= (c.limit as real + Additive(c.limit, sqrt)).Floor
  {
    CalmProposal(c.limit, minRTT, rtt, sqrt);
    hide Proposed, Additive;
  }

  lemma CalmProposal(limit: int, minRTT: int, rtt: int, sqrt: real -> real)
    requires 1 <= limit && minRTT > 0 && 0 < rtt <= minRTT + minRTT / 10
    ensures Proposed(limit, minRTT, rtt, sqrt) >= (limit as real + Additive(limit, sqrt)).Floor >= limit + 1
  {
    hide Gradient, Additive, Scaled;
    GradientIs(minRTT, rtt);
    AdditiveIsPositive(limit, sqrt);
    GrowsByAdditive(Gradient(minRTT, rtt), Additive(limit, sqrt), limit);
  }

  /** From a limit of 1 on, what a raise adds is the exact root of the limit. */
  lemma AdditiveIsRoot(limit: int, sqrt: real -> real)
    requires IsRoot(sqrt) && limit >= 1
    ensures Additive(limit, sqrt) >= 1.0 && Additive(limit, sqrt) * Additive(limit, sqrt) == limit as real
  {
    var root := sqrt(limit as real);
    assert (1.0 - root) * (1.0 + root) == 1.0 - root * root;
    if root < 1.0 { ProductPositive(1.0 - root, 1.0 + root, 1.0 - root * root); }
  }

  lemma AdditiveIsPositive(limit: int, sqrt: real -> real)
    ensures Additive(limit, sqrt) >= 1.0
  {
  }

  lemma GrowsByAdditive(gradient: real, additive: real, limit: int)
    requires gradient >= 1.0 && additive >= 1.0 && limit >= 0
    ensures Scaled(gradient, limit, additive) >= (limit as real + additive).Floor >= limit + 1
  {
    var l := limit as real;
    assert gradient * l - l == (gradient - 1.0) * l >= 0.0;
    assert gradient * l + additive >= l + additive >= (limit + 1) as real;
  }

  /** The gradient is the ratio of the buffered minimum to this RTT, cut off at 0.8 and 2. As no
      RTT is below the minimum, it does not exceed 1.1 in practice. */
  lemma GradientIs(minRTT: int, rtt: int)
    requires minRTT > 0 && rtt > 0
    ensures var g, base := Gradient(minRTT, rtt), minRTT + minRTT / 10;
      && 0.8 <= g <= 2.0
      && (0.8 < g < 2.0 ==> g * rtt as real == base as real)
      && (g == 0.8 ==> 10 * base <= 8 * rtt) && (g == 2.0 ==> base >= 2 * rtt)
      && (rtt <= base ==> g >= 1.0) && (minRTT <= rtt ==> g <= 1.1) && (4 * rtt >= 5 * base ==> g == 0.8)
  {
    var base, t := (minRTT + minRTT / 10) as real, rtt as real;
    RatioTest(base, t, 0.8);
    RatioTest(base, t, 2.0);
    RatioTest(base, t, 1.0);
    RatioTest(base, t, 1.1);
    assert base <= 1.1 * minRTT as real;
  }

  lemma RatioTest(base: real, t: real, bound: real)
    requires t > 0.0
    ensures base / t * t == base
    ensures base / t <= bound <==> base <= bound * t
    ensures bound <= base / t <==> bound * t <= base
  {
    var q := base / t;
    assert q * t == base;
    Scales(q, bound, t);
    Scales(bound, q, t);
  }

  lemma Scales(a: real, b: real, r: real)
    requires r > 0.0
    ensures a <= b <==> a * r <= b * r
  {
    assert (b - a) * r == b * r - a * r;
    if a > b { ProductPositive(a - b, r, a * r - b * r); }
  }

  /** Without a ceiling, a response raises the limit exactly when what it loses to the slowdown
      is made up for by the root term. */
  lemma RaisesIff(b: Bounds, c: Control, minRTT: int, rtt: int, now: int, sqrt: real -> real)
    requires 1 <= c.limit < b.maxLimit && c.peak <= 0 && minRTT > 0 && rtt > 0
    ensures Raise(b, c, minRTT, rtt, now, sqrt).limit > c.limit <==>
      (1.0 - Gradient(minRTT, rtt)) * c.limit as real <= Additive(c.limit, sqrt) - 1.0
  {
    hide Proposed, Scaled, Gradient, Additive;
    ProposedIs(c.limit, minRTT, rtt, sqrt);
    ProposalGrowsIff(Gradient(minRTT, rtt), c.limit, Additive(c.limit, sqrt));
  }

  lemma ProposedIs(limit: int, minRTT: int, rtt: int, sqrt: real -> real)
    requires minRTT > 0 && rtt > 0
    ensures Proposed(limit, minRTT, rtt, sqrt) == Scaled(Gradient(minRTT, rtt), limit, Additive(limit, sqrt))
    ensures 0.8 <= Gradient(minRTT, rtt) && Additive(limit, sqrt) >= 1.0
  {
    hide Scaled, Gradient, Additive;
    GradientIs(minRTT, rtt);
    AdditiveIsPositive(limit, sqrt);
  }

  lemma ProposalGrowsIff(g: real, limit: int, s: real)
    requires g >= 0.8 && limit >= 1 && s >= 1.0
    ensures Scaled(g, limit, s) > limit <==> (1.0 - g) * limit as real <= s - 1.0
  {
    var l := limit as real;
    assert (1.0 - g) * l == l - g * l;
    assert g * l >= 0.0;
    assert (g * l + s).Floor > limit <==> g * l + s >= (limit + 1) as real;
  }

  /** From a limit of 14 on, a response slower than 1.25 times the buffered minimum never raises
      the limit, ceiling or not. */
  lemma SlowNeverRaises(b: Bounds, c: Control, minRTT: int, rtt: int, now: int, sqrt: real -> real)
    requires IsRoot(sqrt) && c.limit >= 14 && minRTT > 0 && 4 * rtt >= 5 * (minRTT + minRTT / 10)
    ensures Raise(b, c, minRTT, rtt, now, sqrt).limit == c.limit
  {
    hide Scaled, Gradient;
    GradientIs(minRTT, rtt);
    RootIsSmall(c.limit as real, sqrt(c.limit as real));
    ProposalGrowsIff(Gradient(minRTT, rtt), c.limit, Additive(c.limit, sqrt));
  }

  lemma RootIsSmall(l: real, root: real)
    requires l >= 14.0 && root >= 0.0 && root * root == l
    ensures l > 5.0 * (root - 1.0)
  {
    // root > 3.7, and (root - 3.7) (root - 1.3) is not negative there
    SquareMonotone(root, 3.7);
    assert (root - 3.7) * (root - 1.3) >= 0.0;
  }

  lemma SquareMonotone(a: real, b: real)
    requires a >= 0.0 && b >= 0.0
    ensures a <= b ==> a * a <= b * b
  {
    assert (b - a) * (b + a) == b * b - a * a;
  }

  /** No raise adds more than a tenth of the limit and the root term, as a response is never
      faster than the fastest one. */
  lemma RaiseIsBounded(b: Bounds, c: Control, minRTT: int, rtt: int, now: int, sqrt: real -> real)
    requires c.limit >= 1 && 0 <= minRTT <= rtt
    ensures Raise(b, c, minRTT, rtt, now, sqrt).limit as real <= 1.1 * c.limit as real + Additive(c.limit, sqrt)
  {
    hide Scaled, Gradient, Additive;
    AdditiveIsPositive(c.limit, sqrt);
    if minRTT > 0 {
      GradientIs(minRTT, rtt);
      ProposalIsBounded(Gradient(minRTT, rtt), c.limit, Additive(c.limit, sqrt));
    }
  }

  lemma ProposalIsBounded(g: real, limit: int, s: real)
    requires 0.8 <= g <= 1.1 && limit >= 1 && s >= 1.0
    ensures Scaled(g, limit, s) as real <= 1.1 * limit as real + s
  {
    var l := limit as real;
    assert (1.1 - g) * l == 1.1 * l - g * l;
    assert (1.1 - g) * l >= 0.0 && g * l >= 0.0;
  }

  // ------------------------------------------------------------------ one whole call

  datatype Model = Model(
    control: Control, minRTT: int, ewma: int, totalReqs: int, total429s: int, last429: int, successRun: int)

  datatype Response = Response(status: int, rtt: int, now: int, later: int, overridden: bool)

  predicate IsOverload(status: int) {
    status == 429 || status == 503 || status == 529
  }

  predicate IsSuccess(status: int) {
    200 <= status < 300
  }

  predicate Cooling(m: Model, now: int) {
    m.last429 > 0 && now - m.last429 < COOLDOWN
  }

  function NewMin(minRTT: int, rtt: int): int {
    if rtt > 0 && (minRTT == 0 || rtt < minRTT) then rtt else minRTT
  }

  /** What one call does when no other call interleaves. */
  function After(b: Bounds, m: Model, r: Response, sqrt: real -> real): Model {
    if IsOverload(r.status) then
      m.(totalReqs := m.totalReqs + 1, total429s := m.total429s + 1, last429 := r.now, successRun := 0,
         control := Overload(b, m.control, r.later))
    else if !IsSuccess(r.status) then m.(totalReqs := m.totalReqs + 1)
    else
      var minRTT := NewMin(m.minRTT, r.rtt);
      var raises := !r.overridden && !Cooling(m, r.now) && (m.successRun + 1) % 5 == 0;
      m.(totalReqs := m.totalReqs + 1, successRun := m.successRun + 1, minRTT := minRTT,
         ewma := Smoothed(m.ewma, r.rtt),
         control := if raises then Raise(b, m.control, minRTT, r.rtt, r.later, sqrt) else m.control)
  }

  function Replay(b: Bounds, m: Model, rs: seq<Response>, sqrt: real -> real): Model {
    if rs == [] then m else After(b, Replay(b, m, rs[..|rs| - 1], sqrt), rs[|rs| - 1], sqrt)
  }

  /** A success close to the fastest RTT, outside the cooldown and with no override, while the
      limit can climb to `reach`. */
  predicate Calm(b: Bounds, m: Model, r: Response, reach: int) {
    var minRTT := NewMin(m.minRTT, r.rtt);
    && 200 <= r.status < 300 && !r.overridden && !(m.last429 > 0 && r.now - m.last429 < 5_000_000_000)
    && 0 < r.rtt <= minRTT + minRTT / 10
    && Reach(b, m.control, r.later) == reach
  }

  ghost predicate AllCalm(b: Bounds, m: Model, rs: seq<Response>, sqrt: real -> real, reach: int) {
    forall k :: 0 <= k < |rs| ==> Calm(b, Replay(b, m, rs[..k], sqrt), rs[k], reach)
  }

  /** Every fifth calm success raises the limit by at least one until it has climbed as far as
      it can: just below a live ceiling, or to the maximum without one or once it has expired. */
  lemma {:induction false} CalmSuccessesClimb(b: Bounds, m: Model, rs: seq<Response>, sqrt: real -> real, reach: int)
    requires 1 <= m.control.limit <= reach && m.successRun >= 0 && AllCalm(b, m, rs, sqrt, reach)
    ensures var m' := Replay(b, m, rs, sqrt);
      && m'.successRun == m.successRun + |rs|
      && m.control.limit <= m'.control.limit <= reach
      && (|| m'.control.limit == reach
          || m'.control.limit >= m.control.limit + (m.successRun + |rs|) / 5 - m.successRun / 5)
  {
    hide After, Calm;
    if rs != [] {
      var init := rs[..|rs| - 1];
      assert AllCalm(b, m, init, sqrt, reach) by {
        forall k | 0 <= k < |init| ensures Calm(b, Replay(b, m, init[..k], sqrt), init[k], reach) {
          assert init[..k] == rs[..k];
        }
      }
      CalmSuccessesClimb(b, m, init, sqrt, reach);
      CalmStep(b, Replay(b, m, init, sqrt), rs[|rs| - 1], sqrt, reach);
      Fifths(m.successRun + |init|);
    }
  }

  lemma Fifths(n: nat)
    ensures (n + 1) / 5 == n / 5 + if n % 5 == 4 then 1 else 0
  {
  }

  lemma CalmStep(b: Bounds, m: Model, r: Response, sqrt: real -> real, reach: int)
    requires 1 <= m.control.limit <= reach && m.successRun >= 0 && Calm(b, m, r, reach)
    ensures var m' := After(b, m, r, sqrt);
      && m'.successRun == m.successRun + 1
      && m.control.limit <= m'.control.limit <= reach
      && (m.successRun % 5 == 4 ==> m'.control.limit == reach || m'.control.limit >= m.control.limit + 1)
  {
    hide Proposed, Smoothed;
    if m.successRun % 5 == 4 && m.control.limit < reach {
      CalmRaise(b, m.control, NewMin(m.minRTT, r.rtt), r.rtt, r.later, sqrt);
    }
  }

  /** While uninterrupted by overrides, any sequence of responses keeps the limit in range
      and below a learned ceiling. */
  lemma {:induction false} ResponsesKeepWithin(b: Bounds, m: Model, rs: seq<Response>, sqrt: real -> real)
    requires b.minLimit == 1 && Within(b, m.control)
    ensures Within(b, Replay(b, m, rs, sqrt).control)
  {
    if rs != [] {
      var m', r := Replay(b, m, rs[..|rs| - 1], sqrt), rs[|rs| - 1];
      ResponsesKeepWithin(b, m, rs[..|rs| - 1], sqrt);
      SectionKeepsWithin(b, m'.control, OnOverload(r.later), sqrt);
      SectionKeepsWithin(b, m'.control, OnSuccess(NewMin(m'.minRTT, r.rtt), r.rtt, r.later), sqrt);
      hide Overload, Raise, Smoothed;
    }
  }

  // ------------------------------------------------------------------ after an overload

  predicate Overloaded(r: Response) {
    r.status == 429 || r.status == 503 || r.status == 529
  }

  function Pow2(k: nat): (p: nat)
    ensures p > 0
  {
    if k == 0 then 1 else 2 * Pow2(k - 1)
  }

  lemma TimesMonotone(a: int, b: int, p: nat)
    requires a <= b
    ensures a * p <= b * p
  {
    assert (b - a) * p == b * p - a * p;
  }

  lemma HalvesOnce(limit: int, x: int, p: nat)
    requires x >= 1 && limit < (x + 1) * p && (x > 1 ==> x * p <= limit)
    ensures var y := if x / 2 > 1 then x / 2 else 1;
      limit < (y + 1) * (2 * p) && (y > 1 ==> y * (2 * p) <= limit)
  {
    var y := if x / 2 > 1 then x / 2 else 1;
    TimesMonotone(x + 1, 2 * (y + 1), p);
    assert 2 * (y + 1) * p == (y + 1) * (2 * p);
    if y > 1 {
      TimesMonotone(2 * y, x, p);
      assert 2 * y * p == y * (2 * p);
    }
  }

  /** k overloads in a row divide the limit by 2^k, rounding down, but not below 1. */
  lemma {:induction false} OverloadsHalve(b: Bounds, m: Model, rs: seq<Response>, sqrt: real -> real)
    requires b.minLimit == 1 && m.control.limit >= 1 && forall i :: 0 <= i < |rs| ==> Overloaded(rs[i])
    ensures var limit := Replay(b, m, rs, sqrt).control.limit;
      && limit >= 1 && m.control.limit < (limit + 1) * Pow2(|rs|)
      && (limit > 1 ==> limit * Pow2(|rs|) <= m.control.limit)
  {
    hide Raise, Smoothed;
    if rs != [] {
      var k := |rs| - 1;
      OverloadsHalve(b, m, rs[..k], sqrt);
      HalvesOnce(m.control.limit, Replay(b, m, rs[..k], sqrt).control.limit, Pow2(k));
    }
  }

  /** After as many overloads as the limit has binary digits it is at its minimum. */
  lemma OverloadsReachMinimum(b: Bounds, m: Model, rs: seq<Response>, sqrt: real -> real)
    requires b.minLimit == 1 && m.control.limit >= 1 && forall i :: 0 <= i < |rs| ==> Overloaded(rs[i])
    requires Pow2(|rs|) >= m.control.limit
    ensures Replay(b, m, rs, sqrt).control.limit == 1
  {
    hide Replay;
    OverloadsHalve(b, m, rs, sqrt);
    var limit := Replay(b, m, rs, sqrt).control.limit;
    TimesMonotone(if limit > 2 then 2 else limit, limit, Pow2(|rs|));
  }

  lemma {:induction false} ReplayCons(b: Bounds, m: Model, r: Response, rs: seq<Response>, sqrt: real -> real)
    ensures Replay(b, m, [r] + rs, sqrt) == Replay(b, After(b, m, r, sqrt), rs, sqrt)
    decreases |rs|
  {
    hide After;
    var all := [r] + rs;
    if rs == [] {
      assert all[..0] == [] && all[0] == r;
    } else {
      assert all[..|all| - 1] == [r] + rs[..|rs| - 1];
      ReplayCons(b, m, r, rs[..|rs| - 1], sqrt);
    }
  }

  lemma {:induction false} CoolingHolds(b: Bounds, m: Model, rs: seq<Response>, sqrt: real -> real)
    requires b.minLimit == 1 && m.control.limit >= 1 && m.last429 > 0
    requires forall i :: 0 <= i < |rs| ==> m.last429 <= rs[i].now < m.last429 + COOLDOWN
    ensures 1 <= Replay(b, m, rs, sqrt).control.limit <= m.control.limit
    ensures m.last429 <= Replay(b, m, rs, sqrt).last429
  {
    hide Raise, Smoothed;
    if rs != [] { CoolingHolds(b, m, rs[..|rs| - 1], sqrt); }
  }

  /** For five seconds after an overload the limit stays at half or below, whatever responses
      arrive. */
  lemma CooldownFreezesLimit(b: Bounds, m: Model, r: Response, rs: seq<Response>, sqrt: real -> real)
    requires b.minLimit == 1 && m.control.limit >= 1 && Overloaded(r) && r.now > 0
    requires forall i :: 0 <= i < |rs| ==> r.now <= rs[i].now < r.now + 5_000_000_000
    ensures var half := m.control.limit / 2;
      1 <= Replay(b, m, [r] + rs, sqrt).control.limit <= if half > 1 then half else 1
  {
    hide Raise, Smoothed;
    ReplayCons(b, m, r, rs, sqrt);
    CoolingHolds(b, After(b, m, r, sqrt), rs, sqrt);
  }

  /** A ceiling learned at time `since` or later, not above `top`, with the limit below it. */
  ghost predicate UnderCeiling(c: Control, top: int, since: int) {
    1 <= c.limit && 1 <= c.peak <= top && since <= c.peakSet && (c.limit < c.peak || c.limit == 1)
  }

  lemma {:induction false} CeilingStays(b: Bounds, m: Model, rs: seq<Response>, sqrt: real -> real, top: int, since: int)
    requires b.minLimit == 1 && UnderCeiling(m.control, top, since)
    requires forall i :: 0 <= i < |rs| ==> since <= rs[i].later <= since + CEILING_LIFETIME
    ensures UnderCeiling(Replay(b, m, rs, sqrt).control, top, since)
  {
    hide Proposed, Smoothed;
    if rs != [] { CeilingStays(b, m, rs[..|rs| - 1], sqrt, top, since); }
  }

  /** For five minutes after an overload the limit stays below the value that was too much,
      whatever responses arrive. */
  lemma CeilingHolds(b: Bounds, m: Model, r: Response, rs: seq<Response>, sqrt: real -> real)
    requires b.minLimit == 1 && m.control.limit >= 1 && Overloaded(r)
    requires forall i :: 0 <= i < |rs| ==> r.later <= rs[i].later <= r.later + 300_000_000_000
    ensures var limit := Replay(b, m, [r] + rs, sqrt).control.limit;
      limit < m.control.limit || limit == 1
  {
    hide Raise, Smoothed;
    ReplayCons(b, m, r, rs, sqrt);
    CeilingStays(b, After(b, m, r, sqrt), rs, sqrt, m.control.limit, r.later);
  }

  lemma {:induction false} FewChangeNothing(b: Bounds, m: Model, rs: seq<Response>, sqrt: real -> real)
    requires 0 <= m.successRun && m.successRun + |rs| < 5 && forall i :: 0 <= i < |rs| ==> !Overloaded(rs[i])
    ensures Replay(b, m, rs, sqrt).control == m.control
    ensures 0 <= Replay(b, m, rs, sqrt).successRun <= m.successRun + |rs|
  {
    hide Raise, Smoothed;
    if rs != [] { FewChangeNothing(b, m, rs[..|rs| - 1], sqrt); }
  }

  /** An overload restarts the count: the next four responses, unless overloads again, leave the
      limit alone however long ago the overload was. */
  lemma OverloadRestartsCount(b: Bounds, m: Model, r: Response, rs: seq<Response>, sqrt: real -> real)
    requires Overloaded(r) && |rs| < 5 && forall i :: 0 <= i < |rs| ==> !Overloaded(rs[i])
    ensures Replay(b, m, [r] + rs, sqrt).control == Replay(b, m, [r], sqrt).control
  {
    hide Raise, Smoothed;
    ReplayCons(b, m, r, rs, sqrt);
    ReplayCons(b, m, r, [], sqrt);
    assert [r] + [] == [r];
    FewChangeNothing(b, After(b, m, r, sqrt), rs, sqrt);
  }

  // ------------------------------------------------------------------ statistics

  function CountOverloaded(rs: seq<Response>): nat {
    if rs == [] then 0 else CountOverloaded(rs[..|rs| - 1]) + if Overloaded(rs[|rs| - 1]) then 1 else 0
  }

  /** rtt was reported by a success. */
  ghost predicate Succeeded(rs: seq<Response>, rtt: int) {
    exists i :: 0 <= i < |rs| && 200 <= rs[i].status < 300 && rs[i].rtt == rtt
  }

  /** From a new model on: all calls and all overloads are counted, and the minimum RTT is the
      least positive RTT of any success, or 0 before the first one. */
  lemma {:induction false} StatisticsAreTrue(b: Bounds, m: Model, rs: seq<Response>, sqrt: real -> real)
    requires m.totalReqs == 0 && m.total429s == 0 && m.minRTT == 0
    ensures var m' := Replay(b, m, rs, sqrt);
      && m'.totalReqs == |rs| && m'.total429s == CountOverloaded(rs)
      && (forall rtt :: Succeeded(rs, rtt) && rtt > 0 ==> 0 < m'.minRTT <= rtt)
      && m'.minRTT >= 0 && (m'.minRTT > 0 ==> Succeeded(rs, m'.minRTT))
  {
    hide Raise, Overload, Smoothed;
    if rs != [] {
      var init, r := rs[..|rs| - 1], rs[|rs| - 1];
      StatisticsAreTrue(b, m, init, sqrt);
      forall rtt ensures Succeeded(rs, rtt) <==> Succeeded(init, rtt) || (200 <= r.status < 300 && r.rtt == rtt) {
        SucceededLast(rs, rtt);
      }
      hide Succeeded;
    }
  }

  /** The RTTs that successes have reported. */
  ghost function Reported(rs: seq<Response>): iset<int> {
    iset i | 0 <= i < |rs| && 200 <= rs[i].status < 300 :: rs[i].rtt
  }

  /** Whole calls keep the lock-free statistics: what they leave behind is what the tracker
      reaches when their successes report one after the other. */
  lemma {:induction false} StatisticsAreTracked(b: Bounds, m: Model, rs: seq<Response>, sqrt: real -> real, v: iset<int>)
    returns (run: seq<RttTracker.State>, actions: seq<RttTracker.Action>)
    requires m.minRTT == 0 && m.ewma == 0 && Reported(rs) <= v
    ensures Visits(run, actions, v, Replay(b, m, rs, sqrt).minRTT, Replay(b, m, rs, sqrt).ewma)
  {
    hide Visits, Raise, Overload, Smoothed;
    if rs == [] {
      run, actions := Start(v);
    } else {
      var init, r := rs[..|rs| - 1], rs[|rs| - 1];
      assert forall i :: 0 <= i < |init| ==> init[i] == rs[i];
      run, actions := StatisticsAreTracked(b, m, init, sqrt, v);
      if 200 <= r.status < 300 {
        assert r.rtt in Reported(rs);
        var m' := Replay(b, m, init, sqrt);
        run, actions := ReportOnce(run, actions, v, m'.minRTT, m'.ewma, r.rtt);
      }
    }
  }

  /** While a manual override is in place, successes leave the limit alone. */
  lemma {:induction false} OverrideFreezesLimit(b: Bounds, m: Model, rs: seq<Response>, sqrt: real -> real)
    requires forall i :: 0 <= i < |rs| ==> rs[i].overridden && !Overloaded(rs[i])
    ensures Replay(b, m, rs, sqrt).control == m.control
  {
    hide Raise, Smoothed;
    if rs != [] { OverrideFreezesLimit(b, m, rs[..|rs| - 1], sqrt); }
  }

  lemma SucceededLast(rs: seq<Response>, rtt: int)
    requires rs != []
    ensures var r := rs[|rs| - 1];
      Succeeded(rs, rtt) <==> Succeeded(rs[..|rs| - 1], rtt) || (200 <= r.status < 300 && r.rtt == rtt)
  {
    var init := rs[..|rs| - 1];
    if i :| 0 <= i < |init| && 200 <= init[i].status < 300 && init[i].rtt == rtt { assert rs[i] == init[i]; }
    if i :| 0 <= i < |rs| && 200 <= rs[i].status < 300 && rs[i].rtt == rtt {
      if i < |init| { assert init[i] == rs[i]; }
    }
  }

  method GradientOf(minRTT: int, rtt: int) returns (gradient: real)
    requires rtt > 0
    ensures gradient == Gradient(minRTT, rtt)
  {
    var buffer := minRTT / 10;
    gradient := (minRTT + buffer) as real / rtt as real;
    if gradient < 0.8 { gradient := 0.8; }
    if gradient > 2.0 { gradient := 2.0; }
  }

  method Propose(limit: int, minRTT: int, rtt: int, sqrt: real -> real) returns (next: int)
    ensures next == Proposed(limit, minRTT, rtt, sqrt)
  {
    hide Gradient, Scaled;
    if minRTT <= 0 || rtt <= 0 { return limit + 1; }
    var gradient := GradientOf(minRTT, rtt);
    var additive := sqrt(limit as real);
    if additive < 1.0 { additive := 1.0; }
    next := Scaled(gradient, limit, additive);
  }

  class AdaptiveModel {
    const minLimit: int
    const maxLimit: int
    var limit: int
    var minRTT: int
    var totalReqs: int
    var total429s: int
    var last429: int
    var successRun: int
    var peakBefore429: int
    var peakSet: int
    var rttEWMA: int

    constructor (max: int, probeMultiplier: int)
      ensures Bounds(minLimit, maxLimit) == ConfiguredBounds(max, probeMultiplier)
      ensures Snapshot() == Model(Control(max, 0, 0), 0, 0, 0, 0, 0, 0)
    {
      minLimit := 1;
      maxLimit := max * (if probeMultiplier <= 0 then 10 else probeMultiplier);
      limit, minRTT, totalReqs, total429s, last429 := max, 0, 0, 0, 0;
      successRun, peakBefore429, peakSet, rttEWMA := 0, 0, 0, 0;
    }

    function Snapshot(): Model
      reads this
    {
      Model(Control(limit, peakBefore429, peakSet), minRTT, rttEWMA, totalReqs, total429s, last429, successRun)
    }

    method Feedback(r: Response, sqrt: real -> real)
      modifies this
      ensures Snapshot() == After(Bounds(minLimit, maxLimit), old(Snapshot()), r, sqrt)
    {
      hide Smoothed;
      totalReqs := totalReqs + 1;
      if r.status == 429 || r.status == 503 || r.status == 529 {
        total429s := total429s + 1;
        last429 := r.now;
        successRun := 0;
        var before := limit;
        peakBefore429, peakSet := before, r.later;
        var halved := Div(before * 5, 10);
        if halved < minLimit { halved := minLimit; }
        if halved != before { limit := halved; }
        return;
      }
      if r.status < 200 || r.status >= 300 { return; }
      successRun := successRun + 1;
      if r.rtt > 0 && (minRTT == 0 || r.rtt < minRTT) { minRTT := r.rtt; }
      rttEWMA := Smoothed(rttEWMA, r.rtt);
      if r.overridden { return; }
      if last429 > 0 && r.now - last429 < COOLDOWN { return; }
      if successRun % 5 != 0 { return; }
      RaiseLimit(r.rtt, r.later, sqrt);
    }

    method RaiseLimit(rtt: int, now: int, sqrt: real -> real)
      modifies this
      ensures Snapshot() == old(Snapshot()).(
        control := Raise(Bounds(minLimit, maxLimit), old(Snapshot()).control, old(minRTT), rtt, now, sqrt))
    {
      hide Proposed;
      var before := limit;
      if before >= maxLimit { return; }
      var next := Propose(before, minRTT, rtt, sqrt);
      if next > maxLimit { next := maxLimit; }
      if peakBefore429 > 0 {
        if now - peakSet > CEILING_LIFETIME {
          peakBefore429 := 0;
        } else if next >= peakBefore429 {
          next := peakBefore429 - 1;
        }
      }
      if next > before { limit := next; }
    }
  }
}
