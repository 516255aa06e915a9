/** Exact-real vectors and matrices, as far as the bandit's linear algebra needs them. */
module Vectors {
  type Vector = seq<real>
  type Matrix = seq<Vector>

  /** The running sum that the dot-product loop holds after `k` terms. */
  function DotTo(a: Vector, b: Vector, k: nat): real
    requires k <= |a| && k <= |b|
  {
    if k == 0 then 0.0 else DotTo(a, b, k - 1) + a[k - 1] * b[k - 1]
  }

  function Dot(a: Vector, b: Vector): real
    requires |a| == |b|
  {
    DotTo(a, b, |a|)
  }

  predicate Square(m: Matrix, n: nat) {
    |m| == n && forall i :: 0 <= i < n ==> |m[i]| == n
  }

  function Delta(i: int, j: int): real {
    if i == j then 1.0 else 0.0
  }

  function Unit(n: nat, i: nat): Vector {
    seq(n, j => Delta(i, j))
  }

  function Identity(n: nat): (m: Matrix)
    ensures Square(m, n)
    ensures forall i, j :: 0 <= i < n && 0 <= j < n ==> m[i][j] == Delta(i, j)
  {
    seq(n, i requires 0 <= i < n => Unit(n, i))
  }

  function Column(m: Matrix, j: nat): (c: Vector)
    requires forall i :: 0 <= i < |m| ==> j < |m[i]|
    ensures |c| == |m|
  {
    seq(|m|, i requires 0 <= i < |m| => m[i][j])
  }

  /** Matrix times column vector. */
  function Apply(m: Matrix, v: Vector): (r: Vector)
    requires forall i :: 0 <= i < |m| ==> |m[i]| == |v|
    ensures |r| == |m|
  {
    seq(|m|, i requires 0 <= i < |m| => Dot(m[i], v))
  }

  /** Row vector times matrix, using only the first `k` rows. */
  function CombineTo(x: Vector, m: Matrix, n: nat, k: nat): (r: Vector)
    requires Square(m, n) && |x| == n && k <= n
    ensures |r| == n
  {
    seq(n, j requires 0 <= j < n => DotTo(x, Column(m, j), k))
  }

  function Product(a: Matrix, b: Matrix, n: nat): (r: Matrix)
    requires Square(a, n) && Square(b, n)
    ensures Square(r, n)
  {
    seq(n, i requires 0 <= i < n => CombineTo(a[i], b, n, n))
  }

  predicate Symmetric(m: Matrix, n: nat)
    requires Square(m, n)
  {
    forall i, j :: 0 <= i < n && 0 <= j < n ==> m[i][j] == m[j][i]
  }

  lemma {:induction false} DotCommutes(a: Vector, b: Vector, k: nat)
    requires k <= |a| && k <= |b|
    ensures DotTo(a, b, k) == DotTo(b, a, k)
  {
    if k > 0 { DotCommutes(a, b, k - 1); }
  }

  /** Dot product is linear in its first argument. */
  lemma {:induction false} DotLinear(c: Vector, a: Vector, s: real, b: Vector, x: Vector, k: nat)
    requires k <= |a| && k <= |b| && k <= |c| && k <= |x|
    requires forall i :: 0 <= i < k ==> c[i] == a[i] + s * b[i]
    ensures DotTo(c, x, k) == DotTo(a, x, k) + s * DotTo(b, x, k)
  {
    if k > 0 {
      DotLinear(c, a, s, b, x, k - 1);
      var p, q, y := a[k - 1], b[k - 1], x[k - 1];
      assert c[k - 1] == p + s * q;
      assert (p + s * q) * y == p * y + s * (q * y);
      assert s * (DotTo(b, x, k - 1) + q * y) == s * DotTo(b, x, k - 1) + s * (q * y);
    }
  }

  /** Dot product distributes over a vector sum, on either side. */
  lemma DotSum(c: Vector, a: Vector, b: Vector, x: Vector)
    requires |a| == |b| == |c| == |x|
    requires forall i :: 0 <= i < |c| ==> c[i] == a[i] + b[i]
    ensures Dot(c, x) == Dot(a, x) + Dot(b, x)
    ensures Dot(x, c) == Dot(x, a) + Dot(x, b)
  {
    hide DotTo;
    DotLinear(c, a, 1.0, b, x, |c|);
    DotCommutes(x, c, |c|);
    DotCommutes(x, a, |c|);
    DotCommutes(x, b, |c|);
  }

  /** A sum whose terms vanish everywhere but at `p` is that one term. */
  lemma {:induction false} DotOnly(a: Vector, b: Vector, p: nat, k: nat)
    requires k <= |a| && k <= |b|
    requires forall i :: 0 <= i < k && i != p ==> a[i] == 0.0 || b[i] == 0.0
    ensures DotTo(a, b, k) == if p < k then a[p] * b[p] else 0.0
  {
    if k > 0 { DotOnly(a, b, p, k - 1); }
  }

  lemma {:induction false} DotSelf(a: Vector, k: nat)
    requires k <= |a|
    ensures DotTo(a, a, k) >= 0.0
    ensures forall p :: 0 <= p < k ==> DotTo(a, a, k) >= a[p] * a[p]
  {
    if k > 0 { DotSelf(a, k - 1); }
  }

  /** Associativity: x . (m y) = (x m) . y. */
  lemma Exchange(x: Vector, m: Matrix, y: Vector, n: nat)
    requires Square(m, n) && |x| == n && |y| == n
    ensures Dot(x, Apply(m, y)) == Dot(CombineTo(x, m, n, n), y)
  {
    ExchangeTo(x, m, y, n, n);
  }

  lemma {:induction false} ExchangeTo(x: Vector, m: Matrix, y: Vector, n: nat, k: nat)
    requires Square(m, n) && |x| == n && |y| == n && k <= n
    ensures DotTo(x, Apply(m, y), k) == Dot(CombineTo(x, m, n, k), y)
  {
    if k == 0 {
      DotOnly(CombineTo(x, m, n, 0), y, n, n);
    } else {
      ExchangeTo(x, m, y, n, k - 1);
      DotLinear(CombineTo(x, m, n, k), CombineTo(x, m, n, k - 1), x[k - 1], m[k - 1], y, n);
    }
  }

  lemma ColumnOfSymmetric(m: Matrix, n: nat, j: nat)
    requires Square(m, n) && Symmetric(m, n) && j < n
    ensures Column(m, j) == m[j]
  {
  }

  /** A symmetric matrix moves across a dot product. */
  lemma SymmetricMoves(x: Vector, m: Matrix, y: Vector, n: nat)
    requires Square(m, n) && Symmetric(m, n) && |x| == n && |y| == n
    ensures Dot(x, Apply(m, y)) == Dot(Apply(m, x), y)
  {
    hide DotTo;
    Exchange(x, m, y, n);
    forall j | 0 <= j < n ensures CombineTo(x, m, n, n)[j] == Apply(m, x)[j] {
      ColumnOfSymmetric(m, n, j);
      DotCommutes(x, m[j], n);
    }
    assert CombineTo(x, m, n, n) == Apply(m, x);
  }

  lemma ApplyIdentity(v: Vector, n: nat)
    requires |v| == n
    ensures Apply(Identity(n), v) == v
  {
    forall i | 0 <= i < n ensures Apply(Identity(n), v)[i] == v[i] {
      DotOnly(Identity(n)[i], v, i, n);
    }
  }

  /** (a b) v = a (b v). */
  lemma ApplyProduct(a: Matrix, b: Matrix, v: Vector, n: nat)
    requires Square(a, n) && Square(b, n) && |v| == n
    ensures Apply(Product(a, b, n), v) == Apply(a, Apply(b, v))
  {
    hide DotTo;
    forall i | 0 <= i < n ensures Apply(Product(a, b, n), v)[i] == Apply(a, Apply(b, v))[i] {
      Exchange(a[i], b, v, n);
    }
  }

  /** Apply is linear. */
  lemma ApplyLinear(m: Matrix, c: Vector, a: Vector, s: real, b: Vector, n: nat)
    requires Square(m, n) && |a| == n && |b| == n && |c| == n
    requires forall i :: 0 <= i < n ==> c[i] == a[i] + s * b[i]
    ensures forall i :: 0 <= i < n ==> Apply(m, c)[i] == Apply(m, a)[i] + s * Apply(m, b)[i]
  {
    hide DotTo;
    forall i | 0 <= i < n ensures Apply(m, c)[i] == Apply(m, a)[i] + s * Apply(m, b)[i] {
      DotCommutes(m[i], c, n);
      DotCommutes(m[i], a, n);
      DotCommutes(m[i], b, n);
      DotLinear(c, a, s, b, m[i], n);
    }
  }
}
