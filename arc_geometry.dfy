/** The trig-free geometry of the circular path in src/talker.cpp: `sign_func`,
    the sign and `atan2` arguments of `vecangle`, the arc sample count of
    `circular_length`, and the local frame `R` that `circular_motion` and
    `circular_tilde` build about the centre. The transcendental functions
    (`atan2`, `sin`, `cos`) are parameters; square roots are passed as norms
    with the side condition `IsNorm`. */
module ArcGeometry {
  import opened Vectors
  import opened Matrices
  import TimeScaling

  // ---------------------------------------------------------------------------
  // Signs of squares. The products are named by functions so that the solver
  // sees the same terms here as in the unfolded dot products.

  function Square(a: real): real {
    a * a
  }

  function Product(a: real, b: real): real {
    a * b
  }

  lemma ProductPositive(a: real, b: real)
    requires a > 0.0 && b > 0.0
    ensures Product(a, b) > 0.0
  {
  }

  lemma SquarePositive(a: real)
    requires a != 0.0
    ensures Square(a) > 0.0
  {
    if a > 0.0 {
      assert Square(a) == Product(a, a);
      ProductPositive(a, a);
    } else {
      assert Square(a) == Product(-a, -a);
      ProductPositive(-a, -a);
    }
  }

  lemma SquareNonNegative(a: real)
    ensures Square(a) >= 0.0
  {
    if a != 0.0 {
      SquarePositive(a);
    }
  }

  lemma ProductNonNegative(a: real, b: real)
    requires a >= 0.0 && b >= 0.0
    ensures a * b >= 0.0
  {
    if a > 0.0 {
      TimeScaling.MulMono(0.0, b, a);
    }
  }

  /** A vector that is not zero has a positive squared length. */
  lemma DotSelfPositive(v: Vec3)
    requires v != ZERO
    ensures Dot(v, v) > 0.0
  {
    SquareNonNegative(v.x);
    SquareNonNegative(v.y);
    SquareNonNegative(v.z);
    if v.x != 0.0 {
      SquarePositive(v.x);
    } else if v.y != 0.0 {
      SquarePositive(v.y);
    } else {
      SquarePositive(v.z);
    }
  }

  /** The norm of a vector is zero exactly when the vector is. */
  lemma NormPositive(v: Vec3, n: real)
    requires IsNorm(v, n)
    ensures n > 0.0 <==> v != ZERO
  {
    if v != ZERO {
      DotSelfPositive(v);
    } else if n > 0.0 {
      SquarePositive(n);
    }
  }

  // ---------------------------------------------------------------------------
  // sign_func (lines 80-94)

  /** `+1`, `0` or `-1` as `x` is positive, zero or negative. */
  function SignFunc(x: real): (s: real)
    ensures (s == 1.0 <==> x > 0.0) && (s == 0.0 <==> x == 0.0) && (s == -1.0 <==> x < 0.0)
    ensures s * x >= 0.0
  {
    if x > 0.0 then 1.0 else if x == 0.0 then 0.0 else -1.0
  }

  // ---------------------------------------------------------------------------
  // vecangle (lines 96-109)

  /** The first argument of the `atan2` call at line 104: the norm of
      `v1 x v2`, signed by the side of `normal` it lies on. It is zero for
      parallel vectors and otherwise has the sign of `(v1 x v2) . normal`. */
  function AngleNumerator(v1: Vec3, v2: Vec3, normal: Vec3, crossNorm: real): (num: real)
    requires IsNorm(Cross(v1, v2), crossNorm)
    ensures Cross(v1, v2) == ZERO ==> num == 0.0
    ensures Cross(v1, v2) != ZERO ==>
              (num > 0.0 <==> Dot(Cross(v1, v2), normal) > 0.0) && (num < 0.0 <==> Dot(Cross(v1, v2), normal) < 0.0)
    ensures num == crossNorm || num == -crossNorm || num == 0.0
  {
    NormPositive(Cross(v1, v2), crossNorm);
    SignFunc(Dot(Cross(v1, v2), normal)) * crossNorm
  }

  /** `vecangle(v1, v2, normal)`: the angle between `v1` and `v2`, as `atan2`
      of `||v1 x v2||` and `v1 . v2`, taken negative when `v1 x v2` points
      away from `normal` and zero-sided when it is orthogonal to it. */
  function VecAngle(v1: Vec3, v2: Vec3, normal: Vec3, crossNorm: real, atan2: (real, real) -> real): (angle: real)
    requires IsNorm(Cross(v1, v2), crossNorm)
    ensures Dot(Cross(v1, v2), normal) > 0.0 ==> angle == atan2(crossNorm, Dot(v1, v2))
    ensures Dot(Cross(v1, v2), normal) < 0.0 ==> angle == atan2(-crossNorm, Dot(v1, v2))
    ensures Dot(Cross(v1, v2), normal) == 0.0 ==> angle == atan2(0.0, Dot(v1, v2))
    ensures Cross(v1, v2) == ZERO ==> angle == atan2(0.0, Dot(v1, v2))
  {
    atan2(AngleNumerator(v1, v2, normal, crossNorm), Dot(v1, v2))
  }

  /** When the normal is `x x y` itself, as `circular_length` passes it, the sign
      is `+1` for non-parallel vectors and `0` for parallel ones, so the
      numerator is the norm of `x x y`: never negative, and zero exactly when
      `x` and `y` are parallel. */
  lemma SelfNormalNumerator(x: Vec3, y: Vec3, crossNorm: real)
    requires IsNorm(Cross(x, y), crossNorm)
    ensures SignFunc(Dot(Cross(x, y), Cross(x, y))) == if Cross(x, y) == ZERO then 0.0 else 1.0
    ensures AngleNumerator(x, y, Cross(x, y), crossNorm) == crossNorm
    ensures AngleNumerator(x, y, Cross(x, y), crossNorm) > 0.0 <==> Cross(x, y) != ZERO
  {
    NormPositive(Cross(x, y), crossNorm);
    if Cross(x, y) != ZERO {
      DotSelfPositive(Cross(x, y));
    } else {
      ZeroNumerator(Cross(x, y), crossNorm);
    }
  }

  /** A zero vector has norm zero, so the sign of its squared length and the
      signed norm are zero too. */
  lemma ZeroNumerator(v: Vec3, n: real)
    requires IsNorm(v, n) && v == ZERO
    ensures SignFunc(Dot(v, v)) == 0.0 && SignFunc(Dot(v, v)) * n == n == 0.0
  {
    NormPositive(v, n);
    assert Dot(v, v) == 0.0;
  }

  // ---------------------------------------------------------------------------
  // circular_length (lines 111-125)

  /** The rotation axis `r = x x y` with `x = c - pf`, `y = c - pi`. */
  function ArcAxis(pi: Vec3, pf: Vec3, c: Vec3): Vec3 {
    Cross(Sub(c, pf), Sub(c, pi))
  }

  /** `circular_length`: the arc length `rho * angle` counted in samples of
      `Ts`, where `rho = ||pi - c||` and the angle is `vecangle(x, y, x x y)`.
      With a positive period, `length` whole samples fit into the arc and
      `length + 1` do not. */
  function CircularLength(pi: Vec3, pf: Vec3, Ts: real, c: Vec3, rho: real, axisNorm: real,
                          atan2: (real, real) -> real): (length: int)
    requires Ts != 0.0
    requires IsNorm(Sub(pi, c), rho) && IsNorm(ArcAxis(pi, pf, c), axisNorm)
    ensures var arc := rho * VecAngle(Sub(c, pf), Sub(c, pi), ArcAxis(pi, pf, c), axisNorm, atan2);
      Ts > 0.0 ==> length as real * Ts <= arc < (length + 1) as real * Ts
  {
    var arc := rho * VecAngle(Sub(c, pf), Sub(c, pi), ArcAxis(pi, pf, c), axisNorm, atan2);
    if Ts > 0.0 then
      TimeScaling.SampleCountOfBounds(arc, Ts);
      TimeScaling.SampleCountOf(arc, Ts)
    else
      TimeScaling.SampleCountOf(arc, Ts)
  }

  /** `atan2` with a non-negative first argument lies in `[0, pi]`, so the arc
      angle is never negative and neither is the arc sample count. */
  lemma CircularLengthNonNegative(pi: Vec3, pf: Vec3, Ts: real, c: Vec3, rho: real, axisNorm: real,
                                  atan2: (real, real) -> real)
    requires Ts > 0.0
    requires IsNorm(Sub(pi, c), rho) && IsNorm(ArcAxis(pi, pf, c), axisNorm)
    requires forall u: real, w: real :: u >= 0.0 ==> atan2(u, w) >= 0.0
    ensures CircularLength(pi, pf, Ts, c, rho, axisNorm, atan2) >= 0
  {
    var x, y := Sub(c, pf), Sub(c, pi);
    SelfNormalNumerator(x, y, axisNorm);
    var angle := VecAngle(x, y, ArcAxis(pi, pf, c), axisNorm, atan2);
    assert angle >= 0.0;
    ProductNonNegative(rho, angle);
    TimeScaling.SampleCountOfBounds(rho * angle, Ts);
  }

  // ---------------------------------------------------------------------------
  // The frame R of circular_motion (165-171) and circular_tilde (251-256)

  /** `R = [e_x | e_x x e_z | e_z]` with `e_x = (pi - c) / rho` and
      `e_z = r / ||r||`. */
  function CircleFrame(pi: Vec3, pf: Vec3, c: Vec3, rho: real, axisNorm: real): Mat3
    requires rho != 0.0 && axisNorm != 0.0
  {
    var ex := Div(Sub(pi, c), rho);
    var ez := Div(ArcAxis(pi, pf, c), axisNorm);
    Mat3(ex, Cross(ex, ez), ez)
  }

  lemma DotDiv(u: Vec3, a: real, w: Vec3, b: real)
    requires a != 0.0 && b != 0.0
    ensures Dot(Div(u, a), Div(w, b)) == Dot(u, w) / (a * b)
  {
  }

  lemma DotNegate(u: Vec3, w: Vec3)
    ensures Dot(Sub(ZERO, u), w) == -Dot(u, w)
  {
  }

  /** `|a x b|^2 = |a|^2 |b|^2 - (a . b)^2` */
  lemma Lagrange(a: Vec3, b: Vec3)
    ensures Dot(Cross(a, b), Cross(a, b)) == Dot(a, a) * Dot(b, b) - Dot(a, b) * Dot(a, b)
  {
  }

  /** Both end points lie in the plane through the centre orthogonal to the
      axis `r`. */
  lemma EndsOrthogonalToAxis(pi: Vec3, pf: Vec3, c: Vec3)
    ensures Dot(Sub(pi, c), ArcAxis(pi, pf, c)) == 0.0 && Dot(Sub(pf, c), ArcAxis(pi, pf, c)) == 0.0
  {
    var x, y, r := Sub(c, pf), Sub(c, pi), ArcAxis(pi, pf, c);
    CrossOrthogonal(x, y);
    assert Sub(pi, c) == Sub(ZERO, y) && Sub(pf, c) == Sub(ZERO, x);
    DotNegate(y, r);
    DotNegate(x, r);
  }

  /** A vector orthogonal to `r` is orthogonal to `r / n`. */
  lemma OrthogonalToDirection(v: Vec3, r: Vec3, n: real)
    requires n != 0.0 && Dot(v, r) == 0.0
    ensures Dot(v, Div(r, n)) == 0.0
  {
    DotDiv(v, 1.0, r, n);
    assert Div(v, 1.0) == v;
  }

  /** The frame is orthonormal, and both end points lie in the plane through
      the centre orthogonal to its third column. */
  lemma CircleFrameOrthonormal(pi: Vec3, pf: Vec3, c: Vec3, rho: real, axisNorm: real)
    requires IsNorm(Sub(pi, c), rho) && rho > 0.0
    requires IsNorm(ArcAxis(pi, pf, c), axisNorm) && axisNorm > 0.0
    ensures var R := CircleFrame(pi, pf, c, rho, axisNorm);
      Dot(R.c0, R.c2) == 0.0 && Dot(R.c1, R.c0) == 0.0 && Dot(R.c1, R.c2) == 0.0 &&
      IsNorm(R.c0, 1.0) && IsNorm(R.c1, 1.0) && IsNorm(R.c2, 1.0) &&
      Dot(Sub(pi, c), R.c2) == 0.0 && Dot(Sub(pf, c), R.c2) == 0.0
  {
    var R := CircleFrame(pi, pf, c, rho, axisNorm);
    var r := ArcAxis(pi, pf, c);
    EndsOrthogonalToAxis(pi, pf, c);
    OrthogonalToDirection(Sub(pi, c), r, axisNorm);
    OrthogonalToDirection(Sub(pf, c), r, axisNorm);
    DotDiv(Sub(pi, c), rho, r, axisNorm);
    CrossOrthogonal(R.c0, R.c2);
    UnitDirection(Sub(pi, c), rho);
    UnitDirection(r, axisNorm);
    Lagrange(R.c0, R.c2);
  }

  /** Every `R * v` whose third coordinate is zero (the zero third row of the
      local parametrisation, lines 159-162 and 246-249) lies in the plane of the
      arc: it is orthogonal to the rotation axis. */
  lemma FramePlanar(pi: Vec3, pf: Vec3, c: Vec3, rho: real, axisNorm: real, v: Vec3)
    requires IsNorm(Sub(pi, c), rho) && rho > 0.0
    requires IsNorm(ArcAxis(pi, pf, c), axisNorm) && axisNorm > 0.0
    requires v.z == 0.0
    ensures Dot(MulVec(CircleFrame(pi, pf, c, rho, axisNorm), v), CircleFrame(pi, pf, c, rho, axisNorm).c2) == 0.0
  {
    var R := CircleFrame(pi, pf, c, rho, axisNorm);
    CircleFrameOrthonormal(pi, pf, c, rho, axisNorm);
    assert Dot(R.c0, R.c2) == Dot(R.c2, R.c0);
    MulVecPlanar(R, v, R.c2);
  }
}
