/**
 * Three-component vectors over the reals, the orientation basis an avatar carries,
 * and an abstract Euclidean length.
 *
 * The length of a vector is the square root of its dot product with itself. Dafny's
 * reals cannot prove that a square root exists, so the length is not defined here:
 * every component that needs one is handed a function `len` together with the fact
 * `IsNorm(len)`, which says that `len` returns the non-negative root of `Dot(v, v)`.
 */
module Vectors {

  datatype Vec3 = Vec3(x: real, y: real, z: real)

  /** An orientation as its three axis vectors (right, up and front). */
  datatype Basis = Basis(right: Vec3, up: Vec3, front: Vec3)

  const Zero: Vec3 := Vec3(0.0, 0.0, 0.0)

  function Add(a: Vec3, b: Vec3): Vec3 { Vec3(a.x + b.x, a.y + b.y, a.z + b.z) }

  function Sub(a: Vec3, b: Vec3): Vec3 { Vec3(a.x - b.x, a.y - b.y, a.z - b.z) }

  function Scale(k: real, v: Vec3): Vec3 { Vec3(k * v.x, k * v.y, k * v.z) }

  function Dot(a: Vec3, b: Vec3): real { a.x * b.x + a.y * b.y + a.z * b.z }

  function Cross(a: Vec3, b: Vec3): Vec3 {
    Vec3(a.y * b.z - a.z * b.y, a.z * b.x - a.x * b.z, a.x * b.y - a.y * b.x)
  }

  function Abs(k: real): real { if k < 0.0 then -k else k }

  /** `v` projected onto the three axes of `basis` (the source's dot products with right, up and front). */
  function Project(v: Vec3, basis: Basis): Vec3 {
    Vec3(Dot(v, basis.right), Dot(v, basis.up), Dot(v, basis.front))
  }

  /** Multiplying by a factor strictly between -1 and 1 shrinks every non-zero number. */
  lemma ContractionShrinks(x: real, y: real, f: real)
    requires -1.0 < f < 1.0 && y == x * f
    ensures Abs(y) <= Abs(x)
    ensures x != 0.0 ==> Abs(y) < Abs(x)
  {
    if x > 0.0 {
      assert x * f < x && -x < x * f;
    } else if x < 0.0 {
      assert x < x * f && x * f < -x;
    }
  }

  /**
   * The identity on vectors. It marks the points at which the norm property below is
   * used, so that the property is applied only where a proof asks for it.
   */
  function Probe(v: Vec3): Vec3 { v }

  /** `len` is the Euclidean length: the non-negative square root of `Dot(v, v)`. */
  ghost predicate IsNorm(len: Vec3 -> real) {
    forall v {:trigger Probe(v)} :: len(Probe(v)) >= 0.0 && len(Probe(v)) * len(Probe(v)) == Dot(Probe(v), Probe(v))
  }

  /** The norm property at one vector. */
  lemma NormAt(len: Vec3 -> real, v: Vec3)
    requires IsNorm(len)
    ensures len(v) >= 0.0 && len(v) * len(v) == Dot(v, v)
  {
    assert Probe(v) == v;
  }

  lemma SquaresDetermineRoot(a: real, b: real)
    requires a >= 0.0 && b >= 0.0 && a * a == b * b
    ensures a == b
  {
    assert (a - b) * (a + b) == a * a - b * b;
    if a + b == 0.0 {
      assert a == 0.0 && b == 0.0;
    }
  }

  /** A norm is determined by its square: any non-negative root of `Dot(v, v)` is `len(v)`. */
  lemma NormIsRoot(len: Vec3 -> real, v: Vec3, r: real)
    requires IsNorm(len)
    requires r >= 0.0 && r * r == Dot(v, v)
    ensures len(v) == r
  {
    NormAt(len, v);
    SquaresDetermineRoot(len(v), r);
  }

  /** A vector has length zero exactly when it is the zero vector. */
  lemma NormZeroIff(len: Vec3 -> real, v: Vec3)
    requires IsNorm(len)
    ensures len(v) == 0.0 <==> v == Zero
  {
    NormAt(len, v);
    var d := Dot(v, v);
    assert v.x * v.x >= 0.0 && v.y * v.y >= 0.0 && v.z * v.z >= 0.0;
    if len(v) == 0.0 {
      assert d == 0.0;
      assert v.x * v.x == 0.0 && v.y * v.y == 0.0 && v.z * v.z == 0.0;
      SquaresDetermineRoot(Abs(v.x), 0.0);
      SquaresDetermineRoot(Abs(v.y), 0.0);
      SquaresDetermineRoot(Abs(v.z), 0.0);
    } else if v == Zero {
      assert d == 0.0;
      SquaresDetermineRoot(len(v), 0.0);
    }
  }

  lemma ScaleScale(a: real, b: real, v: Vec3)
    ensures Scale(a, Scale(b, v)) == Scale(a * b, v)
  {
    assert a * (b * v.x) == (a * b) * v.x;
    assert a * (b * v.y) == (a * b) * v.y;
    assert a * (b * v.z) == (a * b) * v.z;
  }

  lemma ScalesAdd(a: real, b: real, v: Vec3)
    ensures Add(Scale(a, v), Scale(b, v)) == Scale(a + b, v)
  {
    assert a * v.x + b * v.x == (a + b) * v.x;
    assert a * v.y + b * v.y == (a + b) * v.y;
    assert a * v.z + b * v.z == (a + b) * v.z;
  }

  lemma DotScale(k: real, v: Vec3)
    ensures Dot(Scale(k, v), Scale(k, v)) == k * k * Dot(v, v)
  {
    assert (k * v.x) * (k * v.x) == k * k * (v.x * v.x);
    assert (k * v.y) * (k * v.y) == k * k * (v.y * v.y);
    assert (k * v.z) * (k * v.z) == k * k * (v.z * v.z);
  }

  /** Scaling a vector by `k` scales its length by `|k|`. */
  lemma NormScale(len: Vec3 -> real, k: real, v: Vec3)
    requires IsNorm(len)
    ensures len(Scale(k, v)) == Abs(k) * len(v)
  {
    DotScale(k, v);
    NormAt(len, v);
    var r := Abs(k) * len(v);
    assert Abs(k) * Abs(k) == k * k;
    assert r * r == (Abs(k) * Abs(k)) * (len(v) * len(v));
    NormIsRoot(len, Scale(k, v), r);
  }

  /** The length of a vector along one axis is the absolute value of that component. */
  lemma NormOfAxisVector(len: Vec3 -> real, x: real, y: real, z: real)
    requires IsNorm(len)
    requires (x == 0.0 && y == 0.0) || (x == 0.0 && z == 0.0) || (y == 0.0 && z == 0.0)
    ensures len(Vec3(x, y, z)) == Abs(x) + Abs(y) + Abs(z)
  {
    var r := Abs(x) + Abs(y) + Abs(z);
    NormIsRoot(len, Vec3(x, y, z), r);
  }

  /** `v` divided by its own non-zero length has length one. */
  lemma NormalizedHasUnitLength(len: Vec3 -> real, v: Vec3)
    requires IsNorm(len) && len(v) > 0.0
    ensures len(Scale(1.0 / len(v), v)) == 1.0
  {
    NormScale(len, 1.0 / len(v), v);
  }
}
