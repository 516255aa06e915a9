/** Types and facts shared by several components. */
module Common {
  datatype Option<T> = None | Some(value: T)

  newtype byte = x: int | 0 <= x < 256

  type Bytes = seq<byte>

  function Concat(parts: seq<Bytes>): Bytes {
    if parts == [] then [] else parts[0] + Concat(parts[1..])
  }

  lemma {:induction false} ConcatPush(parts: seq<Bytes>, part: Bytes)
    ensures Concat(parts + [part]) == Concat(parts) + part
  {
    var all := parts + [part];
    if parts == [] {
      assert all[1..] == [];
    } else {
      assert all[1..] == parts[1..] + [part];
      ConcatPush(parts[1..], part);
    }
  }

  lemma ConcatLast(parts: seq<Bytes>)
    requires parts != []
    ensures Concat(parts) == Concat(parts[..|parts| - 1]) + parts[|parts| - 1]
  {
    hide Concat;
    ConcatPush(parts[..|parts| - 1], parts[|parts| - 1]);
    assert parts == parts[..|parts| - 1] + [parts[|parts| - 1]];
  }

  /** An exact square root. */
  ghost predicate IsRoot(sqrt: real -> real) {
    forall v :: v >= 0.0 ==> sqrt(v) >= 0.0 && sqrt(v) * sqrt(v) == v
  }

  lemma FactorNonNegative(a: real, m: real)
    requires a * m >= 0.0 && m > 0.0
    ensures a >= 0.0
  {
  }

  lemma SquarePositive(a: real, square: real)
    requires a != 0.0 && square == a * a
    ensures square > 0.0
  {
    if a > 0.0 { ProductPositive(a, a, square); } else { ProductPositive(-a, -a, square); }
  }

  lemma ProductPositive(a: real, b: real, product: real)
    requires a > 0.0 && b > 0.0 && product == a * b
    ensures product > 0.0
  {
  }

  lemma FactorPositive(a: real, m: real)
    requires a * m > 0.0 && m >= 0.0
    ensures a > 0.0
  {
  }
}
