/** Stock datatypes and the one finite-sum fact that several modules need. */
module Basics {

  datatype Option<+T> = None | Some(value: T)

  datatype Result<+T, +E> = Ok(value: T) | Err(error: E)

  function Min(a: int, b: int): int {
    if a <= b then a else b
  }

  function Max(a: int, b: int): int {
    if a >= b then a else b
  }

  /** 1 for true, for counting. */
  function One(b: bool): nat {
    if b then 1 else 0
  }

  function Elements<T(==)>(s: seq<T>): set<T> {
    set x | x in s
  }

  predicate Distinct<T(==)>(s: seq<T>) {
    forall i, j :: 0 <= i < j < |s| ==> s[i] != s[j]
  }

  function Sum(xs: seq<real>): real {
    if xs == [] then 0.0 else xs[0] + Sum(xs[1..])
  }

  /** A product that a proof may hide. */
  function Times(x: real, y: real): real {
    x * y
  }

  /** The sum of all values of a finite map. */
  ghost function Total<K(!new)>(m: map<K, nat>): nat
    decreases |m|
  {
    if m == map[] then 0
    else
      var k :| k in m;
      assert |m - {k}| < |m| by { RemoveShrinks(m, k); }
      m[k] + Total(m - {k})
  }

  lemma RemoveShrinks<K, V>(m: map<K, V>, k: K)
    requires k in m
    ensures |m - {k}| == |m| - 1
  {
    assert m.Keys == (m - {k}).Keys + {k};
    assert |m.Keys| == |(m - {k}).Keys| + 1;
  }

  /** The sum does not depend on the key that is taken out first. */
  lemma {:induction false} TotalRemove<K(!new)>(m: map<K, nat>, k: K)
    requires k in m
    ensures Total(m) == m[k] + Total(m - {k})
    decreases |m|
  {
    var j :| j in m && Total(m) == m[j] + Total(m - {j});
    if j != k {
      RemoveShrinks(m, j);
      RemoveShrinks(m, k);
      TotalRemove(m - {j}, k);
      TotalRemove(m - {k}, j);
      assert m - {j} - {k} == m - {k} - {j};
    }
  }

  /** A factor of a non-negative product with a positive number. */
  lemma NonNegative(f: real, z: real)
    requires z > 0.0 && f * z >= 0.0
    ensures f >= 0.0
  {
    assert f < 0.0 ==> f * z < 0.0;
  }

  lemma Cancel(f: real, g: real, z: real)
    requires z > 0.0 && f * z == g * z
    ensures f == g
  {
    assert (f - g) * z == 0.0 && (g - f) * z == 0.0;
    NonNegative(f - g, z);
    NonNegative(g - f, z);
  }
}
