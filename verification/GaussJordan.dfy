/** The bandit's matrix inverse: Gauss-Jordan elimination without row swaps,
    where a pivot that is nearly zero is overwritten ("patched"). */
module GaussJordan {
  import opened Vectors

  const TINY := 0.000000000001

  predicate Patched(pivot: real) {
    -TINY < pivot < TINY
  }

  predicate Augmented(aug: Matrix, n: nat) {
    |aug| == n && forall i :: 0 <= i < n ==> |aug[i]| == 2 * n
  }

  function Start(m: Matrix, n: nat): (aug: Matrix)
    requires Square(m, n)
    ensures Augmented(aug, n)
  {
    seq(n, i requires 0 <= i < n => m[i] + Unit(n, i))
  }

  function Scaled(row: Vector, pivot: real): (r: Vector)
    requires pivot != 0.0
    ensures |r| == |row|
  {
    seq(|row|, j requires 0 <= j < |row| => row[j] / pivot)
  }

  function Subtracted(row: Vector, factor: real, base: Vector): (r: Vector)
    requires |base| == |row|
    ensures |r| == |row|
  {
    seq(|row|, j requires 0 <= j < |row| => row[j] - factor * base[j])
  }

  /** The normalised pivot row of one column step, after any patch. */
  function PivotRow(aug: Matrix, n: nat, col: nat): (r: Vector)
    requires Augmented(aug, n) && col < n
    ensures |r| == 2 * n
  {
    if Patched(aug[col][col]) then Scaled(aug[col][col := TINY], TINY)
    else Scaled(aug[col], aug[col][col])
  }

  /** One column step. */
  function Eliminate(aug: Matrix, n: nat, col: nat): (r: Matrix)
    requires Augmented(aug, n) && col < n
    ensures Augmented(r, n)
  {
    seq(n, i requires 0 <= i < n =>
      if i == col then PivotRow(aug, n, col)
      else Subtracted(aug[i], aug[i][col], PivotRow(aug, n, col)))
  }

  /** The augmented matrix after the first `k` column steps. */
  function Reduce(m: Matrix, n: nat, k: nat): (r: Matrix)
    requires Square(m, n) && k <= n
    ensures Augmented(r, n)
  {
    if k == 0 then Start(m, n) else Eliminate(Reduce(m, n, k - 1), n, k - 1)
  }

  function RightHalf(aug: Matrix, n: nat): (r: Matrix)
    requires Augmented(aug, n)
    ensures Square(r, n)
  {
    seq(n, i requires 0 <= i < n => aug[i][n..])
  }

  function Inverse(m: Matrix, n: nat): (r: Matrix)
    requires Square(m, n)
    ensures Square(r, n)
  {
    RightHalf(Reduce(m, n, n), n)
  }

  /** x . m x >= x . x for every x: what a ridge matrix I + sum of outer products satisfies. */
  ghost predicate Coercive(m: Matrix, n: nat)
    requires Square(m, n)
  {
    forall x: Vector {:trigger Apply(m, x)} :: |x| == n ==> Dot(x, Apply(m, x)) >= Dot(x, x)
  }

  /** The left half of the row is its right half times m. */
  ghost predicate Factors(row: Vector, m: Matrix, n: nat)
    requires Square(m, n)
  {
    |row| == 2 * n && forall j :: 0 <= j < n ==> row[j] == Dot(row[n..], Column(m, j))
  }

  /** Left half = right half times m; columns before `col` are done, later columns of the
      right half are still those of the identity. */
  ghost predicate Invariant(aug: Matrix, m: Matrix, n: nat, col: nat)
    requires Square(m, n)
  {
    && Augmented(aug, n)
    && (forall i :: 0 <= i < n ==> Factors(aug[i], m, n))
    && (forall i, j :: 0 <= i < n && 0 <= j < n && j < col ==> aug[i][j] == Delta(i, j))
    && (forall i, j :: 0 <= i < n && n + col <= j < 2 * n ==> aug[i][j] == Delta(n + i, j))
  }

  lemma StartInvariant(m: Matrix, n: nat)
    requires Square(m, n)
    ensures Invariant(Start(m, n), m, n, 0)
  {
    var aug := Start(m, n);
    forall i | 0 <= i < n ensures Factors(aug[i], m, n) {
      assert aug[i][n..] == Unit(n, i);
      forall j | 0 <= j < n ensures aug[i][j] == Dot(aug[i][n..], Column(m, j)) {
        DotOnly(aug[i][n..], Column(m, j), i, n);
      }
    }
  }

  /** The pivot is e . m e for the current right-half row e, and e has a 1 on the diagonal. */
  lemma PivotIsQuadraticForm(aug: Matrix, m: Matrix, n: nat, col: nat)
    requires Square(m, n) && col < n && Invariant(aug, m, n, col)
    ensures aug[col][n + col] == 1.0
    ensures aug[col][col] == Dot(aug[col][n..], Apply(m, aug[col][n..]))
  {
    hide DotTo;
    var e := aug[col][n..];
    Exchange(e, m, e, n);
    var left := CombineTo(e, m, n, n);
    assert Factors(aug[col], m, n);
    forall j | 0 <= j < n ensures left[j] == aug[col][j] {
      assert aug[col][j] == Dot(e, Column(m, j));
    }
    forall j | 0 <= j < n && j != col ensures left[j] == 0.0 || e[j] == 0.0 {
      if j > col { assert e[j] == aug[col][n + j]; }
    }
    DotOnly(left, e, col, n);
  }

  lemma PivotAtLeastOne(aug: Matrix, m: Matrix, n: nat, col: nat)
    requires Square(m, n) && col < n && Invariant(aug, m, n, col) && Coercive(m, n)
    ensures aug[col][col] >= 1.0
  {
    hide DotTo;
    PivotIsQuadraticForm(aug, m, n, col);
    var e := aug[col][n..];
    assert Dot(e, Apply(m, e)) >= Dot(e, e);
    DotSelf(e, n);
    assert e[col] == 1.0;
  }

  /** A linear combination of rows keeps the factorisation. */
  lemma CombinedFactors(row: Vector, a: Vector, s: real, b: Vector, m: Matrix, n: nat)
    requires Square(m, n) && |row| == 2 * n
    requires Factors(a, m, n) && Factors(b, m, n)
    requires forall j :: 0 <= j < 2 * n ==> row[j] == a[j] + s * b[j]
    ensures Factors(row, m, n)
  {
    hide DotTo;
    forall j | 0 <= j < n ensures row[j] == Dot(row[n..], Column(m, j)) {
      DotLinear(row[n..], a[n..], s, b[n..], Column(m, j), n);
    }
  }

  lemma ScaledFactors(row: Vector, pivot: real, m: Matrix, n: nat)
    requires Square(m, n) && Factors(row, m, n) && pivot != 0.0
    ensures Factors(Scaled(row, pivot), m, n)
  {
    hide DotTo;
    var r := Scaled(row, pivot);
    var s := 1.0 / pivot - 1.0;
    forall j | 0 <= j < 2 * n ensures r[j] == row[j] + s * row[j] {
      var x := row[j];
      assert x / pivot == (1.0 / pivot) * x;
    }
    CombinedFactors(r, row, s, row, m, n);
  }

  lemma EliminateFactors(aug: Matrix, m: Matrix, n: nat, col: nat, i: nat)
    requires Square(m, n) && col < n && i < n && Invariant(aug, m, n, col)
    requires !Patched(aug[col][col])
    ensures Factors(Eliminate(aug, n, col)[i], m, n)
  {
    hide DotTo;
    var base := PivotRow(aug, n, col);
    ScaledFactors(aug[col], aug[col][col], m, n);
    if i != col {
      CombinedFactors(Subtracted(aug[i], aug[i][col], base), aug[i], -aug[i][col], base, m, n);
    }
  }

  /** What the column step does to the already reduced columns and to the untouched ones. */
  lemma EliminateColumns(aug: Matrix, m: Matrix, n: nat, col: nat, i: nat)
    requires Square(m, n) && col < n && i < n && Invariant(aug, m, n, col)
    requires !Patched(aug[col][col])
    ensures forall j :: 0 <= j <= col ==> Eliminate(aug, n, col)[i][j] == Delta(i, j)
    ensures forall j :: n + col < j < 2 * n ==> Eliminate(aug, n, col)[i][j] == Delta(n + i, j)
  {
    hide DotTo;
    var base := PivotRow(aug, n, col);
    var p := aug[col][col];
    assert base[col] == p / p == 1.0;
    forall j | 0 <= j < col || n + col < j < 2 * n ensures base[j] == 0.0 {
      assert aug[col][j] == 0.0;
      assert base[j] == aug[col][j] / p;
    }
    if i != col {
      assert Eliminate(aug, n, col)[i] == Subtracted(aug[i], aug[i][col], base);
    }
  }

  lemma EliminateInvariant(aug: Matrix, m: Matrix, n: nat, col: nat)
    requires Square(m, n) && col < n && Invariant(aug, m, n, col)
    requires !Patched(aug[col][col])
    ensures Invariant(Eliminate(aug, n, col), m, n, col + 1)
  {
    hide DotTo;
    forall i | 0 <= i < n
      ensures Factors(Eliminate(aug, n, col)[i], m, n)
      ensures forall j :: 0 <= j <= col ==> Eliminate(aug, n, col)[i][j] == Delta(i, j)
      ensures forall j :: n + col < j < 2 * n ==> Eliminate(aug, n, col)[i][j] == Delta(n + i, j)
    {
      EliminateFactors(aug, m, n, col, i);
      EliminateColumns(aug, m, n, col, i);
    }
  }

  /** No pivot among the first `k` columns is small enough to be patched. */
  ghost predicate Unpatched(m: Matrix, n: nat, k: nat)
    requires Square(m, n) && k <= n
  {
    forall c :: 0 <= c < k ==> !Patched(Reduce(m, n, c)[c][c])
  }

  lemma {:induction false} ReduceInvariant(m: Matrix, n: nat, k: nat)
    requires Square(m, n) && k <= n && Unpatched(m, n, k)
    ensures Invariant(Reduce(m, n, k), m, n, k)
  {
    hide DotTo;
    if k == 0 {
      StartInvariant(m, n);
    } else {
      ReduceInvariant(m, n, k - 1);
      EliminateInvariant(Reduce(m, n, k - 1), m, n, k - 1);
    }
  }

  lemma NextPivot(m: Matrix, n: nat, k: nat)
    requires Square(m, n) && Coercive(m, n) && k < n && Unpatched(m, n, k)
    ensures Reduce(m, n, k)[k][k] >= 1.0
  {
    hide DotTo;
    ReduceInvariant(m, n, k);
    PivotAtLeastOne(Reduce(m, n, k), m, n, k);
  }

  /** Every pivot met on a coercive matrix is at least 1, so the patch branch is unreachable. */
  lemma {:induction false} EveryPivot(m: Matrix, n: nat, k: nat)
    requires Square(m, n) && Coercive(m, n) && k <= n
    ensures forall c :: 0 <= c < k ==> Reduce(m, n, c)[c][c] >= 1.0
    ensures Unpatched(m, n, k)
  {
    hide DotTo, Eliminate, Coercive;
    if k > 0 {
      EveryPivot(m, n, k - 1);
      NextPivot(m, n, k - 1);
    }
  }

  /** At the end the right half times the factored matrix is the identity. */
  lemma InvariantInverts(aug: Matrix, m: Matrix, n: nat)
    requires Square(m, n) && Invariant(aug, m, n, n)
    ensures Product(RightHalf(aug, n), m, n) == Identity(n)
  {
    hide DotTo;
    var p := Product(RightHalf(aug, n), m, n);
    forall i | 0 <= i < n ensures p[i] == Identity(n)[i] {
      assert Factors(aug[i], m, n);
      forall j | 0 <= j < n ensures p[i][j] == Identity(n)[i][j] {
        assert aug[i][j] == Dot(aug[i][n..], Column(m, j));
      }
    }
  }

  /** Whenever no pivot is patched, the computed matrix times m is the identity. */
  lemma InverseIsLeftInverse(m: Matrix, n: nat)
    requires Square(m, n) && Unpatched(m, n, n)
    ensures Product(Inverse(m, n), m, n) == Identity(n)
  {
    hide DotTo;
    ReduceInvariant(m, n, n);
    InvariantInverts(Reduce(m, n, n), m, n);
  }

  // ------------------------------------------------------------------ what patching means

  /** m with d added to the diagonal entry of row c. */
  function Nudged(m: Matrix, n: nat, c: nat, d: real): (r: Matrix)
    requires Square(m, n) && c < n
    ensures Square(r, n)
  {
    m[c := m[c][c := m[c][c] + d]]
  }

  /** Overwriting a pivot is the same as having started from a nudged matrix. */
  lemma PatchNudges(aug: Matrix, m: Matrix, n: nat, col: nat)
    requires Square(m, n) && col < n && Invariant(aug, m, n, col)
    ensures Invariant(aug[col := aug[col][col := TINY]], Nudged(m, n, col, TINY - aug[col][col]), n, col)
  {
    hide DotTo;
    var d := TINY - aug[col][col];
    var m', aug' := Nudged(m, n, col, d), aug[col := aug[col][col := TINY]];
    forall i | 0 <= i < n ensures Factors(aug'[i], m', n) {
      assert Factors(aug[i], m, n);
      assert aug'[i][n..] == aug[i][n..];
      forall j | 0 <= j < n ensures aug'[i][j] == Dot(aug'[i][n..], Column(m', j)) {
        NudgedColumn(aug[i][n..], m, n, col, d, j);
        assert aug[i][n..][col] == aug[i][n + col] == Delta(i, col);
      }
    }
  }

  lemma NudgedColumn(x: Vector, m: Matrix, n: nat, c: nat, d: real, j: nat)
    requires Square(m, n) && |x| == n && c < n && j < n
    ensures Dot(x, Column(Nudged(m, n, c, d), j)) == Dot(x, Column(m, j)) + if j == c then d * x[c] else 0.0
  {
    hide DotTo;
    var a, b, u := Column(Nudged(m, n, c, d), j), Column(m, j), Unit(n, c);
    var s := if j == c then d else 0.0;
    DotLinear(a, b, s, u, x, n);
    DotCommutes(x, a, n);
    DotCommutes(x, b, n);
    DotOnly(u, x, c, n);
  }

  /** Off the diagonal the two agree, and on it they differ by less than 2e-12. */
  ghost predicate Near(m: Matrix, m': Matrix, n: nat)
    requires Square(m, n)
  {
    Square(m', n) && forall i, j :: 0 <= i < n && 0 <= j < n ==>
      if i == j then m[i][i] - 2.0 * TINY < m'[i][i] < m[i][i] + 2.0 * TINY else m'[i][j] == m[i][j]
  }

  lemma PatchedStep(aug: Matrix, n: nat, c: nat)
    requires Augmented(aug, n) && c < n && Patched(aug[c][c])
    ensures var aug' := aug[c := aug[c][c := TINY]];
      !Patched(aug'[c][c]) && Eliminate(aug', n, c) == Eliminate(aug, n, c)
  {
    var aug' := aug[c := aug[c][c := TINY]];
    assert PivotRow(aug', n, c) == PivotRow(aug, n, c);
  }

  lemma {:induction false} ReduceNearby(m: Matrix, n: nat, k: nat) returns (m': Matrix)
    requires Square(m, n) && k <= n
    ensures Near(m, m', n) && Invariant(Reduce(m, n, k), m', n, k)
    ensures forall i :: k <= i < n ==> m'[i] == m[i]
    ensures Unpatched(m, n, k) ==> m' == m
  {
    hide DotTo, Invariant, Eliminate;
    if k == 0 {
      StartInvariant(m, n);
      return m;
    }
    var c := k - 1;
    m' := ReduceNearby(m, n, c);
    var aug := Reduce(m, n, c);
    if Patched(aug[c][c]) {
      var aug' := aug[c := aug[c][c := TINY]];
      PatchNudges(aug, m', n, c);
      m' := Nudged(m', n, c, TINY - aug[c][c]);
      PatchedStep(aug, n, c);
      EliminateInvariant(aug', m', n, c);
    } else {
      EliminateInvariant(aug, m', n, c);
    }
  }

  /** For every square matrix, singular ones included, the result is the exact inverse of a
      matrix that differs from it only on the diagonal, by less than 2e-12. */
  lemma InverseOfNearby(m: Matrix, n: nat) returns (m': Matrix)
    requires Square(m, n)
    ensures Near(m, m', n) && Product(Inverse(m, n), m', n) == Identity(n)
    ensures Unpatched(m, n, n) ==> m' == m
  {
    hide DotTo, Invariant;
    m' := ReduceNearby(m, n, n);
    InvariantInverts(Reduce(m, n, n), m', n);
  }

  /** On a symmetric coercive matrix the computed inverse is two-sided and symmetric. */
  lemma InverseIsTwoSided(m: Matrix, n: nat)
    requires Square(m, n) && Coercive(m, n) && Symmetric(m, n)
    ensures Symmetric(Inverse(m, n), n)
    ensures Product(m, Inverse(m, n), n) == Identity(n)
  {
    hide DotTo;
    var e := Inverse(m, n);
    EveryPivot(m, n, n);
    InverseIsLeftInverse(m, n);
    // Row i of e solves m z = unit i; so e z = z' gives e[j][i] two ways.
    forall i, j | 0 <= i < n && 0 <= j < n ensures e[i][j] == e[j][i] {
      RowSolves(m, e, n, j);
      var u := Unit(n, j);
      ApplyProduct(e, m, e[j], n);
      ApplyIdentity(e[j], n);
      assert Apply(m, e[j]) == u;
      assert Apply(e, u)[i] == e[j][i];
      DotOnly(e[i], u, j, n);
    }
    forall i | 0 <= i < n ensures Product(m, e, n)[i] == Identity(n)[i] {
      forall j | 0 <= j < n ensures Product(m, e, n)[i][j] == Identity(n)[i][j] {
        ColumnOfSymmetric(e, n, j);
        RowSolves(m, e, n, j);
        assert Apply(m, e[j])[i] == Delta(j, i);
      }
    }
  }

  lemma RowSolves(m: Matrix, e: Matrix, n: nat, i: nat)
    requires Square(m, n) && Square(e, n) && Symmetric(m, n) && i < n
    requires Product(e, m, n) == Identity(n)
    ensures Apply(m, e[i]) == Unit(n, i)
  {
    hide DotTo;
    forall j | 0 <= j < n ensures Apply(m, e[i])[j] == Unit(n, i)[j] {
      ColumnOfSymmetric(m, n, j);
      DotCommutes(m[j], e[i], n);
      assert Product(e, m, n)[i][j] == Identity(n)[i][j];
    }
  }

  // ------------------------------------------------------------------ the in-place algorithm

  ghost predicate Holds(a: array2<real>, s: Matrix, n: nat)
    reads a
  {
    && a.Length0 == n && a.Length1 == 2 * n && Augmented(s, n)
    && forall i, j :: 0 <= i < n && 0 <= j < 2 * n ==> a[i, j] == s[i][j]
  }

  method NormalisePivotRow(aug: array2<real>, n: nat, col: nat, ghost s: Matrix)
    requires col < n && Holds(aug, s, n)
    modifies aug
    ensures forall j :: 0 <= j < 2 * n ==> aug[col, j] == PivotRow(s, n, col)[j]
    ensures forall i, j :: 0 <= i < n && i != col && 0 <= j < 2 * n ==> aug[i, j] == s[i][j]
  {
    var pivot := aug[col, col];
    if -TINY < pivot < TINY {
      aug[col, col] := TINY;
      pivot := TINY;
    }
    ghost var row := if Patched(s[col][col]) then s[col][col := TINY] else s[col];
    for j := 0 to 2 * n
      invariant forall k :: 0 <= k < j ==> aug[col, k] == row[k] / pivot
      invariant forall k :: j <= k < 2 * n ==> aug[col, k] == row[k]
      invariant forall i, k :: 0 <= i < n && i != col && 0 <= k < 2 * n ==> aug[i, k] == s[i][k]
    {
      aug[col, j] := aug[col, j] / pivot;
    }
  }

  lemma SubtractedAt(row: Vector, factor: real, base: Vector, j: nat)
    requires |base| == |row| && j < |row|
    ensures Subtracted(row, factor, base)[j] == row[j] - factor * base[j]
  {
  }

  method SubtractRow(aug: array2<real>, n: nat, col: nat, row: nat, ghost base: Vector, ghost was: Vector)
    requires col < n && row < n && row != col && aug.Length0 == n && aug.Length1 == 2 * n
    requires |base| == 2 * n && |was| == 2 * n
    requires forall j :: 0 <= j < 2 * n ==> aug[col, j] == base[j] && aug[row, j] == was[j]
    modifies aug
    ensures forall j :: 0 <= j < 2 * n ==> aug[row, j] == Subtracted(was, was[col], base)[j]
    ensures forall i, j :: 0 <= i < n && i != row && 0 <= j < 2 * n ==> aug[i, j] == old(aug[i, j])
  {
    hide Subtracted;
    var factor := aug[row, col];
    ghost var target := Subtracted(was, factor, base);
    for j := 0 to 2 * n
      invariant forall k :: 0 <= k < 2 * n ==> aug[col, k] == base[k]
      invariant forall k :: 0 <= k < j ==> aug[row, k] == target[k]
      invariant forall k :: j <= k < 2 * n ==> aug[row, k] == was[k]
      invariant forall i, k :: 0 <= i < n && i != row && 0 <= k < 2 * n ==> aug[i, k] == old(aug[i, k])
    {
      SubtractedAt(was, factor, base, j);
      aug[row, j] := aug[row, j] - factor * aug[col, j];
    }
  }

  method EliminateColumn(aug: array2<real>, n: nat, col: nat, ghost s: Matrix)
    requires col < n && Holds(aug, s, n)
    modifies aug
    ensures Holds(aug, Eliminate(s, n, col), n)
  {
    hide PivotRow, Subtracted;
    NormalisePivotRow(aug, n, col, s);
    ghost var done := Eliminate(s, n, col);
    for row := 0 to n
      invariant forall j :: 0 <= j < 2 * n ==> aug[col, j] == done[col][j]
      invariant forall i, j :: 0 <= i < row && 0 <= j < 2 * n ==> aug[i, j] == done[i][j]
      invariant forall i, j :: row <= i < n && i != col && 0 <= j < 2 * n ==> aug[i, j] == s[i][j]
    {
      if row != col {
        SubtractRow(aug, n, col, row, done[col], s[row]);
      }
    }
  }

  method LoadAugmented(m: Matrix, n: nat) returns (aug: array2<real>)
    requires Square(m, n)
    ensures fresh(aug) && Holds(aug, Start(m, n), n)
  {
    aug := new real[n, 2 * n]((i, j) => 0.0);
    ghost var start := Start(m, n);
    for i := 0 to n
      invariant forall r, j :: 0 <= r < i && 0 <= j < 2 * n ==> aug[r, j] == start[r][j]
      invariant forall r, j :: i <= r < n && 0 <= j < 2 * n ==> aug[r, j] == 0.0
    {
      for j := 0 to n
        invariant forall r, k :: 0 <= r < i && 0 <= k < 2 * n ==> aug[r, k] == start[r][k]
        invariant forall k :: 0 <= k < j ==> aug[i, k] == m[i][k]
        invariant forall k :: j <= k < 2 * n ==> aug[i, k] == 0.0
        invariant forall r, k :: i < r < n && 0 <= k < 2 * n ==> aug[r, k] == 0.0
      {
        aug[i, j] := m[i][j];
      }
      aug[i, n + i] := 1.0;
    }
  }

  method ReadRightHalf(aug: array2<real>, n: nat, ghost s: Matrix) returns (result: Matrix)
    requires Holds(aug, s, n)
    ensures result == RightHalf(s, n)
  {
    result := [];
    for i := 0 to n
      invariant |result| == i
      invariant forall r :: 0 <= r < i ==> result[r] == s[r][n..]
    {
      var row := [];
      for j := 0 to n
        invariant |row| == j
        invariant forall k :: 0 <= k < j ==> row[k] == s[i][n + k]
      {
        row := row + [aug[i, n + j]];
      }
      assert row == s[i][n..];
      result := result + [row];
    }
  }

  /** Inverts `m`. Unless a pivot is patched, which cannot happen on a coercive `m`, the
      result is the inverse. */
  method Invert(m: Matrix, n: nat) returns (result: Matrix)
    requires Square(m, n)
    ensures Square(result, n) && result == Inverse(m, n)
    ensures Unpatched(m, n, n) ==> Product(result, m, n) == Identity(n)
    ensures Coercive(m, n) ==> Product(result, m, n) == Identity(n)
    ensures exists m' :: Near(m, m', n) && Product(result, m', n) == Identity(n)
  {
    hide DotTo, Eliminate, Near;
    ghost var m' := InverseOfNearby(m, n);
    var aug := LoadAugmented(m, n);
    for col := 0 to n
      invariant Holds(aug, Reduce(m, n, col), n)
    {
      EliminateColumn(aug, n, col, Reduce(m, n, col));
    }
    result := ReadRightHalf(aug, n, Reduce(m, n, n));
    if Coercive(m, n) { EveryPivot(m, n, n); }
    if Unpatched(m, n, n) { InverseIsLeftInverse(m, n); }
  }
}
