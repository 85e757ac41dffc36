/** The parts of Eigen's `MatrixXd` that the trajectory code uses: reading and
    writing one column of a 3-row buffer, copying a 3-row block into a taller
    buffer, and multiplying a 3x3 matrix, given by its columns, with a vector. */
module Matrices {
  import opened Vectors

  /** A 3x3 matrix given by its three columns, as `R.col(0..2)` assigns it. */
  datatype Mat3 = Mat3(c0: Vec3, c1: Vec3, c2: Vec3)

  /** `R.coeff(row, col)`: the entry in row `row` of column `col`. */
  function Coeff(R: Mat3, row: int, col: int): real
    requires 0 <= row < 3 && 0 <= col < 3
  {
    var c := if col == 0 then R.c0 else if col == 1 then R.c1 else R.c2;
    if row == 0 then c.x else if row == 1 then c.y else c.z
  }

  /** `R * v` */
  function MulVec(R: Mat3, v: Vec3): Vec3 {
    Add(Add(Scale(v.x, R.c0), Scale(v.y, R.c1)), Scale(v.z, R.c2))
  }

  /** Every product `R * v` with `v.z == 0` is orthogonal to a vector `w` that
      is orthogonal to the first two columns of `R`. */
  lemma MulVecPlanar(R: Mat3, v: Vec3, w: Vec3)
    requires Dot(R.c0, w) == 0.0 && Dot(R.c1, w) == 0.0 && v.z == 0.0
    ensures Dot(MulVec(R, v), w) == 0.0
  {
    DotScale(v.x, R.c0, w);
    DotScale(v.y, R.c1, w);
    DotScale(v.z, R.c2, w);
    DotAdd(Scale(v.x, R.c0), Scale(v.y, R.c1), w);
    DotAdd(Add(Scale(v.x, R.c0), Scale(v.y, R.c1)), Scale(v.z, R.c2), w);
  }

  /** The buffer has three rows and at least `n` columns. */
  predicate HasColumns(m: array2<real>, n: int) {
    m.Length0 == 3 && n <= m.Length1
  }

  /** Column `k` of a 3-row buffer. */
  function Col(m: array2<real>, k: int): Vec3
    reads m
    requires m.Length0 == 3 && 0 <= k < m.Length1
  {
    Vec3(m[0, k], m[1, k], m[2, k])
  }

  /** `m.col(k) = v`: column `k` becomes `v`, every other cell keeps its value. */
  method SetCol(m: array2<real>, k: int, v: Vec3)
    requires m.Length0 == 3 && 0 <= k < m.Length1
    modifies m
    ensures Col(m, k) == v
    ensures forall r, j :: 0 <= r < 3 && 0 <= j < m.Length1 && j != k ==> m[r, j] == old(m[r, j])
  {
    m[0, k] := v.x;
    m[1, k] := v.y;
    m[2, k] := v.z;
  }
}
