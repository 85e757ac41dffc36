/** Three-dimensional column vectors over exact reals: the `Vector3d` values and
    3x1 `MatrixXd` columns that the trajectory generator adds, scales, divides
    by a norm and crosses. */
module Vectors {

  datatype Vec3 = Vec3(x: real, y: real, z: real)

  const ZERO: Vec3 := Vec3(0.0, 0.0, 0.0)

  function Add(u: Vec3, v: Vec3): Vec3 {
    Vec3(u.x + v.x, u.y + v.y, u.z + v.z)
  }

  function Sub(u: Vec3, v: Vec3): Vec3 {
    Vec3(u.x - v.x, u.y - v.y, u.z - v.z)
  }

  /** `k * v` */
  function Scale(k: real, v: Vec3): Vec3 {
    Vec3(k * v.x, k * v.y, k * v.z)
  }

  /** `v / k`, component by component, as Eigen divides a matrix by a scalar. */
  function Div(v: Vec3, k: real): Vec3
    requires k != 0.0
  {
    Vec3(v.x / k, v.y / k, v.z / k)
  }

  function Dot(u: Vec3, v: Vec3): real {
    u.x * v.x + u.y * v.y + u.z * v.z
  }

  function Cross(u: Vec3, v: Vec3): Vec3 {
    Vec3(u.y * v.z - u.z * v.y, u.z * v.x - u.x * v.z, u.x * v.y - u.y * v.x)
  }

  /** `n` is the Euclidean norm of `v` (what `v.norm()` returns, in exact reals).
      The square root itself is not modelled: callers pass the norm along with
      this side condition, which determines it uniquely. */
  predicate IsNorm(v: Vec3, n: real) {
    n >= 0.0 && n * n == Dot(v, v)
  }

  /** `v / ||v||` has unit length. */
  lemma UnitDirection(v: Vec3, n: real)
    requires IsNorm(v, n) && n > 0.0
    ensures IsNorm(Div(v, n), 1.0)
  {
    var d := Div(v, n);
    assert d.x * n == v.x && d.y * n == v.y && d.z * n == v.z;
    calc {
      Dot(d, d) * (n * n);
      (d.x * n) * (d.x * n) + (d.y * n) * (d.y * n) + (d.z * n) * (d.z * n);
      Dot(v, v);
      1.0 * (n * n);
    }
    assert n * n > 0.0;
  }

  /** Walking `||v||` along the unit direction of `v` gives `v` back. */
  lemma ScaleUnitDirection(v: Vec3, n: real)
    requires n != 0.0
    ensures Scale(n, Div(v, n)) == v
  {
  }

  /** `u x v` is orthogonal to both of its factors. */
  lemma CrossOrthogonal(u: Vec3, v: Vec3)
    ensures Dot(Cross(u, v), u) == 0.0 && Dot(Cross(u, v), v) == 0.0
  {
  }

  /** Dotting with a scaled vector scales the dot product. */
  lemma DotScale(k: real, u: Vec3, v: Vec3)
    ensures Dot(Scale(k, u), v) == k * Dot(u, v)
  {
  }

  /** The dot product distributes over addition. */
  lemma DotAdd(u: Vec3, w: Vec3, v: Vec3)
    ensures Dot(Add(u, w), v) == Dot(u, v) + Dot(w, v)
  {
  }
}
