/** The contextual bandit: ridge-regression arms, optimistic scoring, per-arm persistence. */
module Bandit {
  import opened Common
  import opened Vectors
  import opened GaussJordan

  datatype Arm = Arm(A: Matrix, B: Vector)

  datatype Observation = Observation(phi: Vector, reward: real)

  predicate Sized(s: Arm, n: nat) {
    Square(s.A, n) && |s.B| == n
  }

  ghost predicate SizedHistory(h: seq<Observation>, n: nat) {
    forall i :: 0 <= i < |h| ==> |h[i].phi| == n
  }

  function NewArm(n: nat): (s: Arm)
    ensures Sized(s, n)
  {
    Arm(Identity(n), seq(n, _ => 0.0))
  }

  function Updated(s: Arm, o: Observation, n: nat): (r: Arm)
    requires Sized(s, n) && |o.phi| == n
    ensures Sized(r, n)
  {
    Arm(
      seq(n, i requires 0 <= i < n => seq(n, j requires 0 <= j < n => s.A[i][j] + o.phi[i] * o.phi[j])),
      seq(n, i requires 0 <= i < n => s.B[i] + o.reward * o.phi[i]))
  }

  /** The arm state that a history of updates leaves behind. */
  function Replay(h: seq<Observation>, n: nat): (s: Arm)
    requires forall i :: 0 <= i < |h| ==> |h[i].phi| == n
    ensures Sized(s, n)
  {
    if h == [] then NewArm(n) else Updated(Replay(h[..|h| - 1], n), h[|h| - 1], n)
  }

  function Theta(s: Arm, n: nat): (t: Vector)
    requires Sized(s, n)
    ensures |t| == n
  {
    Apply(Inverse(s.A, n), s.B)
  }

  function Mean(s: Arm, phi: Vector, n: nat): real
    requires Sized(s, n) && |phi| == n
  {
    Dot(Theta(s, n), phi)
  }

  function Variance(s: Arm, phi: Vector, n: nat): real
    requires Sized(s, n) && |phi| == n
  {
    Dot(Apply(Inverse(s.A, n), phi), phi)
  }

  // ------------------------------------------------------------------ reachable arm states

  lemma UpdatedApplies(s: Arm, o: Observation, x: Vector, n: nat)
    requires Sized(s, n) && |o.phi| == n && |x| == n
    ensures forall i :: 0 <= i < n ==>
      Apply(Updated(s, o, n).A, x)[i] == Apply(s.A, x)[i] + Dot(o.phi, x) * o.phi[i]
  {
    hide DotTo;
    forall i | 0 <= i < n
      ensures Apply(Updated(s, o, n).A, x)[i] == Apply(s.A, x)[i] + Dot(o.phi, x) * o.phi[i]
    {
      DotLinear(Updated(s, o, n).A[i], s.A[i], o.phi[i], o.phi, x, n);
    }
  }

  /** One update adds exactly (phi . x)(phi . y) to the bilinear form of A. */
  lemma UpdatedForm(s: Arm, o: Observation, x: Vector, y: Vector, n: nat)
    requires Sized(s, n) && |o.phi| == n && |x| == n && |y| == n
    ensures Dot(x, Apply(Updated(s, o, n).A, y)) == Dot(x, Apply(s.A, y)) + Dot(o.phi, x) * Dot(o.phi, y)
  {
    hide DotTo;
    UpdatedApplies(s, o, y, n);
    var c, a, d := Apply(Updated(s, o, n).A, y), Apply(s.A, y), Dot(o.phi, y);
    DotLinear(c, a, d, o.phi, x, n);
    DotCommutes(x, c, n);
    DotCommutes(x, a, n);
    assert d * Dot(o.phi, x) == Dot(o.phi, x) * d;
  }

  lemma UpdatedStaysRidge(s: Arm, o: Observation, n: nat)
    requires Sized(s, n) && |o.phi| == n && Symmetric(s.A, n) && Coercive(s.A, n)
    ensures Symmetric(Updated(s, o, n).A, n) && Coercive(Updated(s, o, n).A, n)
  {
    hide DotTo;
    var m := Updated(s, o, n).A;
    forall i, j | 0 <= i < n && 0 <= j < n ensures m[i][j] == m[j][i] {
      assert o.phi[i] * o.phi[j] == o.phi[j] * o.phi[i];
    }
    forall x: Vector | |x| == n ensures Dot(x, Apply(m, x)) >= Dot(x, x) {
      UpdatedForm(s, o, x, x, n);
      var d := Dot(o.phi, x);
      assert d * d >= 0.0;
      assert Dot(x, Apply(s.A, x)) >= Dot(x, x);
    }
  }

  /** Every arm state reachable from the identity is symmetric with x . A x >= x . x. */
  lemma {:induction false} ReachableIsRidge(h: seq<Observation>, n: nat)
    requires SizedHistory(h, n)
    ensures Symmetric(Replay(h, n).A, n) && Coercive(Replay(h, n).A, n)
  {
    hide DotTo;
    if h == [] {
      forall x: Vector | |x| == n ensures Dot(x, Apply(Identity(n), x)) >= Dot(x, x) {
        ApplyIdentity(x, n);
      }
    } else {
      ReachableIsRidge(h[..|h| - 1], n);
      UpdatedStaysRidge(Replay(h[..|h| - 1], n), h[|h| - 1], n);
    }
  }

  /** On every reachable state no pivot is patched and the inverse is exact on both sides. */
  lemma ReachableInverts(h: seq<Observation>, n: nat)
    requires SizedHistory(h, n)
    ensures var a := Replay(h, n).A;
      && (forall c :: 0 <= c < n ==> Reduce(a, n, c)[c][c] >= 1.0)
      && Product(Inverse(a, n), a, n) == Identity(n)
      && Product(a, Inverse(a, n), n) == Identity(n)
      && Symmetric(Inverse(a, n), n)
  {
    ReachableIsRidge(h, n);
    var a := Replay(h, n).A;
    EveryPivot(a, n, n);
    InverseIsLeftInverse(a, n);
    InverseIsTwoSided(a, n);
  }

  // ------------------------------------------------------------------ uncertainty

  /** e is a symmetric two-sided inverse of a. */
  ghost predicate Inverts(e: Matrix, a: Matrix, n: nat) {
    && Square(a, n) && Square(e, n) && Symmetric(e, n)
    && Product(e, a, n) == Identity(n) && Product(a, e, n) == Identity(n)
  }

  /** b is a with the outer product psi psi^T added. */
  ghost predicate RankOne(b: Matrix, a: Matrix, psi: Vector, n: nat) {
    && Square(a, n) && Square(b, n) && |psi| == n
    && forall i, j :: 0 <= i < n && 0 <= j < n ==> b[i][j] == a[i][j] + psi[i] * psi[j]
  }

  ghost predicate Ridge(s: Arm, n: nat) {
    Sized(s, n) && Symmetric(s.A, n) && Coercive(s.A, n)
  }

  lemma RidgeInverts(s: Arm, n: nat)
    requires Ridge(s, n)
    ensures Inverts(Inverse(s.A, n), s.A, n)
  {
    hide DotTo;
    EveryPivot(s.A, n, n);
    InverseIsLeftInverse(s.A, n);
    InverseIsTwoSided(s.A, n);
  }

  lemma InverseCancels(e: Matrix, a: Matrix, v: Vector, n: nat)
    requires Inverts(e, a, n) && |v| == n
    ensures Apply(a, Apply(e, v)) == v
    ensures Apply(e, Apply(a, v)) == v
  {
    hide DotTo;
    ApplyProduct(a, e, v, n);
    ApplyProduct(e, a, v, n);
    ApplyIdentity(v, n);
  }

  lemma VarianceNonNegative(s: Arm, phi: Vector, n: nat)
    requires Ridge(s, n) && |phi| == n
    ensures Variance(s, phi, n) >= 0.0
  {
    hide DotTo;
    var e := Inverse(s.A, n);
    var u := Apply(e, phi);
    RidgeInverts(s, n);
    InverseCancels(e, s.A, phi, n);
    assert Dot(u, Apply(s.A, u)) >= Dot(u, u);
    DotSelf(u, n);
  }

  /** The rank-one update formula: adding psi psi^T changes the solution for phi by a
      multiple of the old solution for psi. */
  lemma SolutionAfterUpdate(a: Matrix, e: Matrix, b: Matrix, f: Matrix, psi: Vector, phi: Vector, n: nat)
    requires Inverts(e, a, n) && Inverts(f, b, n) && RankOne(b, a, psi, n) && |phi| == n
    ensures forall i :: 0 <= i < n ==>
      Apply(e, phi)[i] == Apply(f, phi)[i] + Dot(psi, Apply(f, phi)) * Apply(e, psi)[i]
  {
    hide DotTo;
    var u := Apply(f, phi);
    InverseCancels(f, b, phi, n);
    // phi = b u = a u + (psi . u) psi; now apply e.
    forall i | 0 <= i < n ensures phi[i] == Apply(a, u)[i] + Dot(psi, u) * psi[i] {
      DotLinear(b[i], a[i], psi[i], psi, u, n);
      assert phi[i] == Apply(b, u)[i];
    }
    ApplyLinear(e, phi, Apply(a, u), Dot(psi, u), psi, n);
    InverseCancels(e, a, u, n);
  }

  /** Adding psi psi^T lowers phi . a^-1 phi by (psi . b^-1 phi)^2 (1 + psi . a^-1 psi). */
  lemma FormAfterUpdate(a: Matrix, e: Matrix, b: Matrix, f: Matrix, psi: Vector, phi: Vector, n: nat)
    requires Inverts(e, a, n) && Inverts(f, b, n) && RankOne(b, a, psi, n) && |phi| == n
    ensures var t := Dot(psi, Apply(f, phi));
      && Dot(Apply(e, phi), phi) == Dot(Apply(f, phi), phi) + t * Dot(Apply(e, psi), phi)
      && Dot(Apply(e, psi), phi) == t + t * Dot(Apply(e, psi), psi)
  {
    hide DotTo;
    SolutionAfterUpdate(a, e, b, f, psi, phi, n);
    var u, u', w := Apply(e, phi), Apply(f, phi), Apply(e, psi);
    var t := Dot(psi, u');
    assert Dot(u, phi) == Dot(u', phi) + t * Dot(w, phi) by {
      DotLinear(u, u', t, w, phi, n);
    }
    assert Dot(u, psi) == Dot(u', psi) + t * Dot(w, psi) by {
      DotLinear(u, u', t, w, psi, n);
    }
    DotCommutes(u', psi, n);
    SymmetricMoves(psi, e, phi, n);
    DotCommutes(u, psi, n);
  }

  lemma OwnFormAfterUpdate(a: Matrix, e: Matrix, b: Matrix, f: Matrix, phi: Vector, n: nat)
    requires Inverts(e, a, n) && Inverts(f, b, n) && RankOne(b, a, phi, n)
    ensures Dot(Apply(e, phi), phi) == Dot(Apply(f, phi), phi) + Dot(Apply(f, phi), phi) * Dot(Apply(e, phi), phi)
  {
    hide DotTo;
    FormAfterUpdate(a, e, b, f, phi, phi, n);
    DotCommutes(phi, Apply(f, phi), n);
  }

  /** No update ever raises an uncertainty. */
  lemma VarianceNeverRises(s: Arm, o: Observation, phi: Vector, n: nat)
    requires Ridge(s, n) && |o.phi| == n && |phi| == n
    ensures Variance(Updated(s, o, n), phi, n) <= Variance(s, phi, n)
  {
    hide DotTo;
    var s' := Updated(s, o, n);
    UpdatedStaysRidge(s, o, n);
    RidgeInverts(s, n);
    RidgeInverts(s', n);
    VarianceNonNegative(s, o.phi, n);
    FormAfterUpdate(s.A, Inverse(s.A, n), s'.A, Inverse(s'.A, n), o.phi, phi, n);
    ProductOfSquare(Dot(o.phi, Apply(Inverse(s'.A, n), phi)), Variance(s, o.phi, n));
  }

  lemma ProductOfSquare(t: real, v: real)
    requires v >= 0.0
    ensures t * (t + t * v) >= 0.0
  {
    assert t * (t + t * v) == t * t * (1.0 + v);
    assert t * t >= 0.0;
  }

  /** Observing phi itself turns its uncertainty v into exactly v / (1 + v). */
  lemma VarianceAfterOwnUpdate(s: Arm, o: Observation, n: nat)
    requires Ridge(s, n) && |o.phi| == n
    ensures var v := Variance(s, o.phi, n);
      v >= 0.0 && Variance(Updated(s, o, n), o.phi, n) == v / (1.0 + v) < 1.0
  {
    hide DotTo;
    var s' := Updated(s, o, n);
    UpdatedStaysRidge(s, o, n);
    RidgeInverts(s, n);
    RidgeInverts(s', n);
    VarianceNonNegative(s, o.phi, n);
    OwnFormAfterUpdate(s.A, Inverse(s.A, n), s'.A, Inverse(s'.A, n), o.phi, n);
    SolveForFraction(Variance(s, o.phi, n), Variance(s', o.phi, n));
  }

  lemma SolveForFraction(v: real, v': real)
    requires v >= 0.0 && v == v' + v' * v
    ensures v' == v / (1.0 + v) < 1.0
  {
    assert v == v' * (1.0 + v);
  }

  /** Once an arm has been updated with phi, no sequence of further updates lets the arm be
      flagged exploratory on phi again. */
  lemma {:induction false} NeverExploratoryAgain(h: seq<Observation>, o: Observation, later: seq<Observation>, n: nat)
    requires SizedHistory(h, n) && |o.phi| == n && SizedHistory(later, n)
    ensures 0.0 <= Variance(Replay(h + [o] + later, n), o.phi, n) < 1.0
    decreases |later|
  {
    hide DotTo;
    var all := h + [o] + later;
    ReachableIsRidge(all, n);
    VarianceNonNegative(Replay(all, n), o.phi, n);
    if later == [] {
      assert all == h + [o] && all[..|all| - 1] == h;
      ReachableIsRidge(h, n);
      VarianceAfterOwnUpdate(Replay(h, n), o, n);
    } else {
      var before := later[..|later| - 1];
      assert all[..|all| - 1] == h + [o] + before;
      NeverExploratoryAgain(h, o, before, n);
      ReachableIsRidge(h + [o] + before, n);
      VarianceNeverRises(Replay(h + [o] + before, n), later[|later| - 1], o.phi, n);
    }
  }

  // ------------------------------------------------------------------ theta is the ridge solution

  /** Squared error over the history plus the squared length of theta. */
  function Loss(theta: Vector, h: seq<Observation>): real
    requires forall i :: 0 <= i < |h| ==> |h[i].phi| == |theta|
  {
    if h == [] then Dot(theta, theta)
    else
      var o := h[|h| - 1];
      var miss := o.reward - Dot(o.phi, theta);
      Loss(theta, h[..|h| - 1]) + miss * miss
  }

  function RewardSquares(h: seq<Observation>): real {
    if h == [] then 0.0 else RewardSquares(h[..|h| - 1]) + h[|h| - 1].reward * h[|h| - 1].reward
  }

  /** The loss is the quadratic t . A t - 2 B . t + constant. */
  lemma {:induction false} LossIsQuadratic(t: Vector, h: seq<Observation>, n: nat)
    requires SizedHistory(h, n) && |t| == n
    ensures Loss(t, h) == Quadratic(Replay(h, n), t, n) + RewardSquares(h)
  {
    hide DotTo;
    if h == [] {
      QuadraticOfNewArm(t, n);
    } else {
      LossIsQuadratic(t, h[..|h| - 1], n);
      QuadraticStep(Replay(h[..|h| - 1], n), h[|h| - 1], t, n);
    }
  }

  function Quadratic(s: Arm, t: Vector, n: nat): real
    requires Sized(s, n) && |t| == n
  {
    Dot(t, Apply(s.A, t)) - 2.0 * Dot(s.B, t)
  }

  lemma QuadraticOfNewArm(t: Vector, n: nat)
    requires |t| == n
    ensures Quadratic(NewArm(n), t, n) == Dot(t, t)
  {
    hide DotTo;
    ApplyIdentity(t, n);
    DotOnly(NewArm(n).B, t, n, n);
  }

  lemma QuadraticStep(s: Arm, o: Observation, t: Vector, n: nat)
    requires Sized(s, n) && |o.phi| == n && |t| == n
    ensures var miss := o.reward - Dot(o.phi, t);
      Quadratic(Updated(s, o, n), t, n) + o.reward * o.reward == Quadratic(s, t, n) + miss * miss
  {
    hide DotTo;
    UpdatedForm(s, o, t, t, n);
    DotLinear(Updated(s, o, n).B, s.B, o.reward, o.phi, t, n);
    var d, r := Dot(o.phi, t), o.reward;
    assert (r - d) * (r - d) == r * r - 2.0 * (r * d) + d * d;
  }

  /** Around a solution theta of A theta = B the quadratic is its value there plus gap . A gap. */
  lemma QuadraticAround(s: Arm, theta: Vector, gap: Vector, t: Vector, n: nat)
    requires Sized(s, n) && Symmetric(s.A, n) && |theta| == n && |gap| == n && |t| == n
    requires Apply(s.A, theta) == s.B
    requires forall i :: 0 <= i < n ==> t[i] == theta[i] + gap[i]
    ensures Quadratic(s, t, n) == Quadratic(s, theta, n) + Dot(gap, Apply(s.A, gap))
  {
    hide DotTo;
    var at, ag := Apply(s.A, t), Apply(s.A, gap);
    ApplyLinear(s.A, t, theta, 1.0, gap, n);
    DotSum(t, theta, gap, at);
    DotSum(at, s.B, ag, theta);
    DotSum(at, s.B, ag, gap);
    DotSum(t, theta, gap, s.B);
    SymmetricMoves(theta, s.A, gap, n);
    DotCommutes(theta, s.B, n);
    DotCommutes(gap, s.B, n);
  }

  /** Theta is the unique minimiser of the loss: any other t loses at least |t - theta|^2. */
  lemma ThetaIsOptimal(h: seq<Observation>, t: Vector, n: nat)
    requires SizedHistory(h, n) && |t| == n
    ensures Loss(t, h) >= Loss(Theta(Replay(h, n), n), h) + Distance(t, Theta(Replay(h, n), n))
  {
    hide DotTo;
    var s := Replay(h, n);
    var theta := Theta(s, n);
    var gap := Gap(t, theta);
    ReachableIsRidge(h, n);
    LossIsQuadratic(t, h, n);
    LossIsQuadratic(theta, h, n);
    RidgeInverts(s, n);
    InverseCancels(Inverse(s.A, n), s.A, s.B, n);
    QuadraticAround(s, theta, gap, t, n);
    assert Dot(gap, Apply(s.A, gap)) >= Dot(gap, gap);
  }

  function Gap(t: Vector, u: Vector): (g: Vector)
    requires |t| == |u|
    ensures |g| == |t|
  {
    seq(|t|, i requires 0 <= i < |t| => t[i] - u[i])
  }

  /** Squared Euclidean distance. */
  function Distance(t: Vector, u: Vector): real
    requires |t| == |u|
  {
    Dot(Gap(t, u), Gap(t, u))
  }

  // ------------------------------------------------------------------ what a score is

  /** How far t is from theta, measured by the arm's matrix. */
  function Doubt(s: Arm, t: Vector, n: nat): real
    requires Sized(s, n) && |t| == n
  {
    var gap := Gap(t, Theta(s, n));
    Dot(gap, Apply(s.A, gap))
  }

  /** Cauchy-Schwarz for the form of a ridge matrix. */
  lemma FormCauchySchwarz(s: Arm, x: Vector, y: Vector, n: nat)
    requires Ridge(s, n) && |x| == n && |y| == n
    ensures var q := Dot(x, Apply(s.A, y));
      q * q <= Dot(x, Apply(s.A, x)) * Dot(y, Apply(s.A, y))
    ensures Dot(x, Apply(s.A, x)) >= 0.0
  {
    hide DotTo;
    var p, q, r := Dot(x, Apply(s.A, x)), Dot(x, Apply(s.A, y)), Dot(y, Apply(s.A, y));
    FormNonNegative(s, x, n);
    FormNonNegative(s, y, n);
    if r > 0.0 {
      FormAlong(s, x, y, -(q / r), n);
      FormNonNegative(s, Along(x, -(q / r), y), n);
      Discriminant(p, q, r);
    } else {
      assert Dot(y, Apply(s.A, y)) >= Dot(y, y);
      ZeroVector(y, n);
      SymmetricMoves(x, s.A, y, n);
      DotOnly(Apply(s.A, x), y, n, n);
    }
  }

  lemma FormNonNegative(s: Arm, x: Vector, n: nat)
    requires Ridge(s, n) && |x| == n
    ensures Dot(x, Apply(s.A, x)) >= 0.0
  {
    hide DotTo;
    assert Dot(x, Apply(s.A, x)) >= Dot(x, x);
    DotSelf(x, n);
  }

  lemma ZeroVector(y: Vector, n: nat)
    requires |y| == n && Dot(y, y) <= 0.0
    ensures forall i :: 0 <= i < n ==> y[i] == 0.0
  {
    hide DotTo;
    DotSelf(y, n);
    forall i | 0 <= i < n ensures y[i] == 0.0 {
      if y[i] != 0.0 { SquarePositive(y[i], y[i] * y[i]); }
    }
  }

  /** x + k y. */
  function Along(x: Vector, k: real, y: Vector): (r: Vector)
    requires |x| == |y|
    ensures |r| == |x|
  {
    seq(|x|, i requires 0 <= i < |x| => x[i] + k * y[i])
  }

  lemma FormAlong(s: Arm, x: Vector, y: Vector, k: real, n: nat)
    requires Ridge(s, n) && |x| == n && |y| == n
    ensures var z := Along(x, k, y);
      Dot(z, Apply(s.A, z)) ==
        Dot(x, Apply(s.A, x)) + 2.0 * (k * Dot(x, Apply(s.A, y))) + k * k * Dot(y, Apply(s.A, y))
  {
    hide DotTo;
    var z := Along(x, k, y);
    var ax, ay, az := Apply(s.A, x), Apply(s.A, y), Apply(s.A, z);
    ApplyLinear(s.A, z, x, k, y, n);
    DotLinear(az, ax, k, ay, z, n);
    DotLinear(z, x, k, y, ax, n);
    DotLinear(z, x, k, y, ay, n);
    DotCommutes(az, z, n);
    DotCommutes(ax, z, n);
    DotCommutes(ay, z, n);
    SymmetricMoves(y, s.A, x, n);
    DotCommutes(ay, x, n);
    AlongArithmetic(Dot(x, ax), Dot(x, ay), Dot(y, ay), k, Dot(z, ax), Dot(z, ay), Dot(z, az));
  }

  lemma AlongArithmetic(p: real, q: real, r: real, k: real, zx: real, zy: real, zz: real)
    requires zx == p + k * q && zy == q + k * r && zz == zx + k * zy
    ensures zz == p + 2.0 * (k * q) + k * k * r
  {
    assert k * zy == k * q + k * (k * r);
  }

  lemma Discriminant(p: real, q: real, r: real)
    requires r > 0.0 && p + 2.0 * (-(q / r) * q) + (-(q / r)) * (-(q / r)) * r >= 0.0
    ensures q * q <= p * r
  {
    var h := q / r;
    assert h * r == q;
    assert h * h * r == h * q;
    assert p - h * q >= 0.0;
    assert (p - h * q) * r == p * r - (h * r) * q;
    assert (p - h * q) * r >= 0.0;
  }

  /** value is the best mean on phi of any parameter vector within alpha of theta: nothing
      within that distance exceeds it, and something there attains it. */
  ghost predicate IsOptimistic(s: Arm, phi: Vector, n: nat, alpha: real, value: real)
    requires Sized(s, n) && |phi| == n
  {
    && (forall t: Vector :: |t| == n && Doubt(s, t, n) <= alpha * alpha ==> Dot(t, phi) <= value)
    && (exists t: Vector :: |t| == n && Doubt(s, t, n) <= alpha * alpha && Dot(t, phi) == value)
  }

  lemma FormOfMultiple(s: Arm, g: Vector, k: real, u: Vector, n: nat)
    requires Ridge(s, n) && |g| == n && |u| == n && forall i :: 0 <= i < n ==> g[i] == k * u[i]
    ensures Dot(g, Apply(s.A, g)) == k * k * Dot(u, Apply(s.A, u))
  {
    hide DotTo;
    var none := seq(n, _ => 0.0);
    forall i | 0 <= i < n ensures g[i] == Along(none, k, u)[i] {
      assert none[i] == 0.0;
    }
    assert g == Along(none, k, u);
    FormAlong(s, none, u, k, n);
    DotOnly(none, Apply(s.A, none), n, n);
    DotOnly(none, Apply(s.A, u), n, n);
  }

  /** theta + k A^-1 phi: its doubt is k^2 times the variance, its mean that of theta plus k
      times the variance. */
  lemma TowardsPhi(s: Arm, phi: Vector, k: real, n: nat)
    requires Ridge(s, n) && |phi| == n
    ensures var t := Along(Theta(s, n), k, Apply(Inverse(s.A, n), phi));
      && Doubt(s, t, n) == k * k * Variance(s, phi, n)
      && Dot(t, phi) == Mean(s, phi, n) + k * Variance(s, phi, n)
  {
    hide DotTo, Symmetric, Coercive, Theta;
    var theta, u := Theta(s, n), Apply(Inverse(s.A, n), phi);
    var t := Along(theta, k, u);
    RidgeInverts(s, n);
    InverseCancels(Inverse(s.A, n), s.A, phi, n);
    FormOfMultiple(s, Gap(t, theta), k, u, n);
    DotCommutes(u, phi, n);
    DotLinear(t, theta, k, u, phi, n);
  }

  lemma MeanWithinDoubt(s: Arm, phi: Vector, t: Vector, alpha: real, root: real, n: nat)
    requires Ridge(s, n) && |phi| == n && |t| == n && alpha >= 0.0 && Doubt(s, t, n) <= alpha * alpha
    requires root >= 0.0 && root * root == Variance(s, phi, n)
    ensures Dot(t, phi) <= Mean(s, phi, n) + alpha * root
  {
    hide DotTo;
    var theta, u := Theta(s, n), Apply(Inverse(s.A, n), phi);
    var gap := Gap(t, theta);
    RidgeInverts(s, n);
    InverseCancels(Inverse(s.A, n), s.A, phi, n);
    FormCauchySchwarz(s, gap, u, n);
    DotCommutes(u, phi, n);
    DotSum(t, theta, gap, phi);
    RootBound(Dot(gap, phi), Doubt(s, t, n), alpha, root);
  }

  lemma RootBound(q: real, p: real, alpha: real, root: real)
    requires alpha >= 0.0 && root >= 0.0 && 0.0 <= p <= alpha * alpha && q * q <= p * (root * root)
    ensures q <= alpha * root
  {
    var b := alpha * root;
    assert b * b == (alpha * alpha) * (root * root);
    assert (alpha * alpha - p) * (root * root) >= 0.0;
    assert q * q <= b * b;
    if q > b { ProductPositive(q - b, q + b, q * q - b * b); }
  }

  /** The score is optimistic in the face of uncertainty. */
  lemma ScoreIsOptimistic(s: Arm, phi: Vector, n: nat, alpha: real, sqrt: real -> real)
    requires Ridge(s, n) && |phi| == n && alpha >= 0.0 && IsRoot(sqrt)
    ensures IsOptimistic(s, phi, n, alpha, Score(s, phi, n, alpha, sqrt))
  {
    hide DotTo, Mean, Variance, Doubt, Theta;
    var v, value := Variance(s, phi, n), Score(s, phi, n, alpha, sqrt);
    VarianceNonNegative(s, phi, n);
    var root := sqrt(v);
    forall t: Vector | |t| == n && Doubt(s, t, n) <= alpha * alpha ensures Dot(t, phi) <= value {
      MeanWithinDoubt(s, phi, t, alpha, root, n);
    }
    var k := if root == 0.0 then 0.0 else alpha / root;
    TowardsPhi(s, phi, k, n);
    Attained(alpha, root, v, k);
    var t := Along(Theta(s, n), k, Apply(Inverse(s.A, n), phi));
    assert Doubt(s, t, n) <= alpha * alpha && Dot(t, phi) == value;
  }

  lemma Attained(alpha: real, root: real, v: real, k: real)
    requires root >= 0.0 && root * root == v && k == if root == 0.0 then 0.0 else alpha / root
    ensures k * k * v <= alpha * alpha && k * v == alpha * root
  {
    if root != 0.0 {
      assert k * root == alpha;
      assert k * v == (k * root) * root;
      assert k * k * v == (k * root) * (k * root);
    } else {
      assert alpha * alpha >= 0.0;
    }
  }

  // ------------------------------------------------------------------ the bandit object

  function Abs(x: real): real {
    if x < 0.0 then -x else x
  }

  function Score(s: Arm, phi: Vector, n: nat, alpha: real, sqrt: real -> real): real
    requires Sized(s, n) && |phi| == n
  {
    Mean(s, phi, n) + alpha * sqrt(Variance(s, phi, n))
  }

  class Bandit {
    const n: nat
    const alpha: real
    const arms: seq<string>
    var store: map<string, Arm>
    /** The updates behind each stored state, oldest first. */
    ghost var history: map<string, seq<Observation>>

    ghost predicate Valid()
      reads this
    {
      && store.Keys == history.Keys
      && forall a :: a in history ==> SizedHistory(history[a], n) && store[a] == Replay(history[a], n)
    }

    constructor (n: nat, alpha: real, arms: seq<string>)
      ensures Valid() && this.n == n && this.alpha == alpha && this.arms == arms && history == map[]
    {
      this.n, this.alpha, this.arms := n, alpha, arms;
      store, history := map[], map[];
    }

    /** Only listed arms are loaded; anything else starts over from the identity. */
    function Load(armID: string): (s: Arm)
      requires Valid()
      reads this
      ensures Sized(s, n)
      ensures s == if armID in arms && armID in history then Replay(history[armID], n) else Replay([], n)
    {
      if armID in arms && armID in store then store[armID] else NewArm(n)
    }

    method Update(armID: string, phi: Vector, reward: real)
      requires Valid() && |phi| == n
      modifies this
      ensures Valid()
      ensures history == old(history)[armID :=
        (if armID in arms && armID in old(history) then old(history)[armID] else []) + [Observation(phi, reward)]]
    {
      var s := Load(armID);
      var updated := UpdateArm(s, phi, reward, n);
      ghost var o := Observation(phi, reward);
      ghost var past := if armID in arms && armID in history then history[armID] else [];
      assert (past + [o])[..|past|] == past;
      store := store[armID := updated];
      history := history[armID := past + [o]];
    }

    /** A stored state may expire. */
    method Expire(armID: string)
      requires Valid()
      modifies this
      ensures Valid() && history == old(history) - {armID}
    {
      store := store - {armID};
      history := history - {armID};
    }

    /** The states of the first x listed arms. */
    function Loaded(x: nat): (states: seq<Arm>)
      requires Valid() && x <= |arms|
      reads this
      ensures |states| == x && forall i :: 0 <= i < x ==> states[i] == Load(arms[i]) && Sized(states[i], n)
    {
      if x == 0 then [] else Loaded(x - 1) + [Load(arms[x - 1])]
    }

    method Select(phi: Vector, sqrt: real -> real) returns (best: string, exploratory: bool)
      requires Valid() && |phi| == n
      ensures arms == [] ==> best == "" && !exploratory
      ensures arms != [] ==>
        var states := Loaded(|arms|);
        var scores := Scores(states, phi, n, alpha, sqrt);
        var k := Winner(arms, scores);
        && best == arms[k] && exploratory == (Variance(states[k], phi, n) > 1.0)
        && (Decisive(arms) ==> FirstMax(scores, k))
        && (alpha >= 0.0 && IsRoot(sqrt) ==>
              forall i :: 0 <= i < |arms| ==> IsOptimistic(states[i], phi, n, alpha, scores[i]))
    {
      hide DotTo, Variance, Scores, Winner, FirstMax, IsOptimistic, IsRoot;
      var states := [];
      for x := 0 to |arms|
        invariant states == Loaded(x)
        invariant forall i :: 0 <= i < x ==> Ridge(states[i], n)
      {
        ReachableIsRidge(if arms[x] in arms && arms[x] in history then history[arms[x]] else [], n);
        states := states + [Load(arms[x])];
      }
      best, exploratory := Choose(arms, states, phi, n, alpha, sqrt);
    }
  }

  // ------------------------------------------------------------------ the choice

  /** Index k is the first with a maximal score. */
  ghost predicate FirstMax(scores: seq<real>, k: nat) {
    k < |scores| && forall i :: 0 <= i < |scores| ==> scores[i] <= scores[k] && (i < k ==> scores[i] < scores[k])
  }

  /** The arm chosen: an arm with the empty id counts as nothing chosen yet, so whatever comes
      next replaces it. */
  function Winner(arms: seq<string>, scores: seq<real>): (k: nat)
    requires 0 < |arms| == |scores|
    ensures k < |arms|
  {
    if |arms| == 1 then 0
    else
      var x := |arms| - 1;
      var k := Winner(arms[..x], scores[..x]);
      if scores[x] > scores[k] || arms[k] == "" then x else k
  }

  /** No arm but the last has the empty id. */
  predicate Decisive(arms: seq<string>) {
    forall i :: 0 <= i < |arms| - 1 ==> arms[i] != ""
  }

  lemma {:induction false} WinnerIsFirstMax(arms: seq<string>, scores: seq<real>)
    requires 0 < |arms| == |scores| && Decisive(arms)
    ensures FirstMax(scores, Winner(arms, scores))
  {
    if |arms| > 1 {
      var x := |arms| - 1;
      WinnerIsFirstMax(arms[..x], scores[..x]);
      var k := Winner(arms[..x], scores[..x]);
      assert forall i :: 0 <= i < x ==> scores[..x][i] == scores[i];
    }
  }

  /** Score 1 for arm i, 0 for the others. */
  function Favouring(n: nat, i: nat): seq<real> {
    seq(n, j => if j == i then 1.0 else 0.0)
  }

  /** An arm i with the empty id that leads is replaced by the next one, and never comes back. */
  lemma {:induction false} EmptyIdIsReplaced(arms: seq<string>, i: nat)
    requires i < |arms| && arms[i] == ""
    ensures var k := Winner(arms, Favouring(|arms|, i));
      if i == |arms| - 1 then k == i else k > i
    decreases |arms|
  {
    var x := |arms| - 1;
    var scores := Favouring(|arms|, i);
    if x > 0 {
      assert scores[..x] == Favouring(x, i);
      if i < x { EmptyIdIsReplaced(arms[..x], i); }
    }
  }

  /** The first arm of maximal score is chosen whatever the scores are, exactly when no arm but
      the last has the empty id. */
  lemma FirstMaxIffDecisive(arms: seq<string>)
    requires arms != []
    ensures (forall scores :: |scores| == |arms| ==> FirstMax(scores, Winner(arms, scores))) <==> Decisive(arms)
  {
    hide Winner;
    if Decisive(arms) {
      forall scores: seq<real> | |scores| == |arms| ensures FirstMax(scores, Winner(arms, scores)) {
        WinnerIsFirstMax(arms, scores);
      }
    } else {
      var i :| 0 <= i < |arms| - 1 && arms[i] == "";
      EmptyIdIsReplaced(arms, i);
      var scores := Favouring(|arms|, i);
      assert scores[i] == 1.0 > scores[Winner(arms, scores)];
    }
  }

  function Scores(states: seq<Arm>, phi: Vector, n: nat, alpha: real, sqrt: real -> real): (r: seq<real>)
    requires |phi| == n && forall i :: 0 <= i < |states| ==> Sized(states[i], n)
    ensures |r| == |states|
  {
    seq(|states|, i requires 0 <= i < |states| => Score(states[i], phi, n, alpha, sqrt))
  }

  /** Picks the first arm of maximal score; exploratory reports an uncertainty above 1.
      The square root is a parameter: nothing about it matters here. */
  method Choose(arms: seq<string>, states: seq<Arm>, phi: Vector, n: nat, alpha: real, sqrt: real -> real)
    returns (best: string, exploratory: bool)
    requires |states| == |arms| && |phi| == n
    requires forall i :: 0 <= i < |states| ==> Sized(states[i], n) && Ridge(states[i], n)
    ensures arms == [] ==> best == "" && !exploratory
    ensures arms != [] ==>
      var scores := Scores(states, phi, n, alpha, sqrt);
      var k := Winner(arms, scores);
      && best == arms[k] && exploratory == (Variance(states[k], phi, n) > 1.0)
      && (Decisive(arms) ==> FirstMax(scores, k))
      && (alpha >= 0.0 && IsRoot(sqrt) ==>
            forall i :: 0 <= i < |arms| ==> IsOptimistic(states[i], phi, n, alpha, scores[i]))
  {
    hide DotTo, Winner, Scores, Score, Variance, Ridge, FirstMax, IsOptimistic, IsRoot;
    best := "";
    var bestScore := -1.0;
    exploratory := false;
    ghost var scores := Scores(states, phi, n, alpha, sqrt);
    for x := 0 to |arms|
      invariant x == 0 ==> best == "" && !exploratory
      invariant x > 0 ==>
        var k := Winner(arms[..x], scores[..x]);
        best == arms[k] && bestScore == scores[k] && exploratory == (Variance(states[k], phi, n) > 1.0)
    {
      var score, variance := ScoreArm(states[x], phi, n, alpha, sqrt);
      ScoreAt(states, phi, n, alpha, sqrt, x);
      WinnerPush(arms, scores, x);
      if score > bestScore || best == "" {
        bestScore, best := score, arms[x];
        exploratory := Abs(variance) > 1.0;
      }
    }
    assert arms[..|arms|] == arms && scores[..|arms|] == scores;
    if arms != [] && Decisive(arms) { WinnerIsFirstMax(arms, scores); }
    if alpha >= 0.0 && IsRoot(sqrt) {
      forall i | 0 <= i < |arms| ensures IsOptimistic(states[i], phi, n, alpha, scores[i]) {
        ScoreAt(states, phi, n, alpha, sqrt, i);
        ScoreIsOptimistic(states[i], phi, n, alpha, sqrt);
      }
    }
  }

  lemma ScoreAt(states: seq<Arm>, phi: Vector, n: nat, alpha: real, sqrt: real -> real, x: nat)
    requires |phi| == n && (forall i :: 0 <= i < |states| ==> Sized(states[i], n)) && x < |states|
    ensures Scores(states, phi, n, alpha, sqrt)[x] == Score(states[x], phi, n, alpha, sqrt)
  {
    hide Score;
  }

  lemma WinnerPush(arms: seq<string>, scores: seq<real>, x: nat)
    requires |arms| == |scores| && x < |arms|
    ensures Winner(arms[..x + 1], scores[..x + 1]) ==
      if x == 0 then 0
      else
        var k := Winner(arms[..x], scores[..x]);
        if scores[x] > scores[k] || arms[k] == "" then x else k
  {
    assert arms[..x + 1][..x] == arms[..x] && scores[..x + 1][..x] == scores[..x];
  }

  /** Scores one arm. On a ridge state the absolute value changes nothing. */
  method ScoreArm(s: Arm, phi: Vector, n: nat, alpha: real, sqrt: real -> real)
    returns (score: real, variance: real)
    requires Ridge(s, n) && |phi| == n
    ensures variance == Variance(s, phi, n) >= 0.0
    ensures score == Score(s, phi, n, alpha, sqrt)
    ensures alpha >= 0.0 && IsRoot(sqrt) ==> IsOptimistic(s, phi, n, alpha, score)
  {
    hide DotTo, IsOptimistic, IsRoot, Coercive, Symmetric, Near, Unpatched;
    var inverse := Invert(s.A, n);
    var theta := MatVec(inverse, s.B, n);
    var mean := DotLoop(theta, phi, n);
    var solved := MatVec(inverse, phi, n);
    variance := DotLoop(solved, phi, n);
    VarianceNonNegative(s, phi, n);
    if alpha >= 0.0 && IsRoot(sqrt) { ScoreIsOptimistic(s, phi, n, alpha, sqrt); }
    score := mean + alpha * sqrt(Abs(variance));
  }

  /** Adds one observation into a copy of the arm's matrix and vector. */
  method UpdateArm(s: Arm, phi: Vector, reward: real, n: nat) returns (r: Arm)
    requires Sized(s, n) && |phi| == n
    ensures r == Updated(s, Observation(phi, reward), n)
  {
    var a := new real[n, n]((i, j) requires 0 <= i < n && 0 <= j < n => s.A[i][j]);
    AddOuter(a, phi, n);
    var rows := ToRows(a, n);
    var b := AddScaled(s.B, reward, phi, n);
    r := Arm(rows, b);
    ghost var target := Updated(s, Observation(phi, reward), n);
    forall i | 0 <= i < n ensures b[i] == target.B[i] {
    }
    assert b == target.B;
    forall i | 0 <= i < n ensures rows[i] == target.A[i] {
      forall j | 0 <= j < n ensures rows[i][j] == target.A[i][j] {
      }
    }
    assert rows == target.A;
  }

  method AddToRow(a: array2<real>, i: nat, phi: Vector, n: nat)
    requires a.Length0 == n && a.Length1 == n && |phi| == n && i < n
    modifies a
    ensures forall c :: 0 <= c < n ==> a[i, c] == old(a[i, c]) + phi[i] * phi[c]
    ensures forall r, c :: 0 <= r < n && r != i && 0 <= c < n ==> a[r, c] == old(a[r, c])
  {
    for j := 0 to n
      invariant forall c :: 0 <= c < j ==> a[i, c] == old(a[i, c]) + phi[i] * phi[c]
      invariant forall c :: j <= c < n ==> a[i, c] == old(a[i, c])
      invariant forall r, c :: 0 <= r < n && r != i && 0 <= c < n ==> a[r, c] == old(a[r, c])
    {
      a[i, j] := a[i, j] + phi[i] * phi[j];
    }
  }

  method AddOuter(a: array2<real>, phi: Vector, n: nat)
    requires a.Length0 == n && a.Length1 == n && |phi| == n
    modifies a
    ensures forall r, c :: 0 <= r < n && 0 <= c < n ==> a[r, c] == old(a[r, c]) + phi[r] * phi[c]
  {
    for i := 0 to n
      invariant forall r, c :: 0 <= r < i && 0 <= c < n ==> a[r, c] == old(a[r, c]) + phi[r] * phi[c]
      invariant forall r, c :: i <= r < n && 0 <= c < n ==> a[r, c] == old(a[r, c])
    {
      AddToRow(a, i, phi, n);
    }
  }

  method AddScaled(v: Vector, reward: real, phi: Vector, n: nat) returns (b: Vector)
    requires |v| == n && |phi| == n
    ensures |b| == n && forall i :: 0 <= i < n ==> b[i] == v[i] + reward * phi[i]
  {
    b := v;
    for i := 0 to n
      invariant |b| == n
      invariant forall k :: 0 <= k < i ==> b[k] == v[k] + reward * phi[k]
      invariant forall k :: i <= k < n ==> b[k] == v[k]
    {
      b := b[i := b[i] + reward * phi[i]];
    }
  }

  method ToRows(a: array2<real>, n: nat) returns (rows: Matrix)
    requires a.Length0 == n && a.Length1 == n
    ensures Square(rows, n)
    ensures forall i, j :: 0 <= i < n && 0 <= j < n ==> rows[i][j] == a[i, j]
  {
    rows := [];
    for i := 0 to n
      invariant |rows| == i
      invariant forall r :: 0 <= r < i ==> |rows[r]| == n
      invariant forall r, c :: 0 <= r < i && 0 <= c < n ==> rows[r][c] == a[r, c]
    {
      var row := [];
      for j := 0 to n
        invariant |row| == j
        invariant forall c :: 0 <= c < j ==> row[c] == a[i, c]
      {
        row := row + [a[i, j]];
      }
      rows := rows + [row];
    }
  }

  method DotLoop(a: Vector, b: Vector, n: nat) returns (s: real)
    requires |a| == n && |b| == n
    ensures s == Dot(a, b)
  {
    s := 0.0;
    for i := 0 to n
      invariant s == DotTo(a, b, i)
    {
      s := s + a[i] * b[i];
    }
  }

  method MatVec(m: Matrix, v: Vector, n: nat) returns (result: Vector)
    requires Square(m, n) && |v| == n
    ensures result == Apply(m, v)
  {
    result := seq(n, _ => 0.0);
    for i := 0 to n
      invariant |result| == n
      invariant forall r :: 0 <= r < i ==> result[r] == Apply(m, v)[r]
      invariant forall r :: i <= r < n ==> result[r] == 0.0
    {
      for j := 0 to n
        invariant |result| == n
        invariant forall r :: 0 <= r < i ==> result[r] == Apply(m, v)[r]
        invariant result[i] == DotTo(m[i], v, j)
        invariant forall r :: i < r < n ==> result[r] == 0.0
      {
        result := result[i := result[i] + m[i][j] * v[j]];
      }
    }
  }
}
