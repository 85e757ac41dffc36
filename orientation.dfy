/** The end-effector orientation of src/talker.cpp: the Frenet-style frame that
    `frenet_frame` builds at the two ends of a sampled path, with the angle
    triple it extracts from each, and `EE_orientation`, which moves the angle
    triple from `PHI_i` to `PHI_f` along a fixed unit direction with the
    quintic law. `atan2` is a parameter; the norms that `frenet_frame` takes
    with `norm()` and `sqrt` are passed as values with the side condition
    `IsNorm`. */
module Orientation {
  import opened Vectors
  import opened Matrices
  import opened TimeScaling
  import Motion
  import ArcGeometry

  // ---------------------------------------------------------------------------
  // frenet_frame (lines 316-358)

  /** The sample a frame column is taken from (lines 322-326): column 0 uses
      the first sample, column 1 the last. */
  function EndIndex(column: int, length: int): int {
    if column == 1 then length - 1 else 0
  }

  /** `R = [t | b | n]` at one end (lines 328-343): `t` is the velocity column
      as it is, not normalised; `n` is the acceleration divided by its norm;
      `b = t x n`. */
  function FrenetColumns(t: Vec3, acc: Vec3, accNorm: real): Mat3
    requires accNorm != 0.0
  {
    var n := Div(acc, accNorm);
    Mat3(t, Cross(t, n), n)
  }

  /** `(v.x, v.y, 0)`: the part of `v` in the `x`-`y` plane. */
  function Horizontal(v: Vec3): Vec3 {
    Vec3(v.x, v.y, 0.0)
  }

  /** The angle triple of lines 347-349 (and 355-357) read off the entries of
      `R`, where `planarNorm` is the `sqrt(R02^2 + R12^2)` of the source. The
      first two angles depend only on the normal `n = R.c2`: the first is
      `atan2` of the length of its horizontal part and its height, the second
      `atan2` of its `y` and `x`; the third reads the heights of the binormal
      and of the tangent. */
  function AngleVector(R: Mat3, planarNorm: real, atan2: (real, real) -> real): (phi: Vec3)
    requires IsNorm(Horizontal(R.c2), planarNorm)
    ensures phi.x == atan2(planarNorm, R.c2.z) && phi.y == atan2(R.c2.y, R.c2.x)
    ensures phi.z == atan2(R.c1.z, -R.c0.z)
  {
    Vec3(atan2(planarNorm, Coeff(R, 2, 2)),
         atan2(Coeff(R, 1, 2), Coeff(R, 0, 2)),
         atan2(Coeff(R, 2, 1), -Coeff(R, 2, 0)))
  }

  /** The binormal is orthogonal to the tangent and to the normal, and the
      normal is a unit vector. If the tangent is a unit vector orthogonal to
      the acceleration, the binormal is a unit vector too. */
  lemma FrenetColumnsOrthogonal(t: Vec3, acc: Vec3, accNorm: real)
    requires IsNorm(acc, accNorm) && accNorm > 0.0
    ensures var R := FrenetColumns(t, acc, accNorm);
      Dot(R.c1, R.c0) == 0.0 && Dot(R.c1, R.c2) == 0.0 && IsNorm(R.c2, 1.0)
    ensures IsNorm(t, 1.0) && Dot(t, acc) == 0.0 ==> IsNorm(FrenetColumns(t, acc, accNorm).c1, 1.0)
  {
    var R := FrenetColumns(t, acc, accNorm);
    CrossOrthogonal(t, R.c2);
    UnitDirection(acc, accNorm);
    if IsNorm(t, 1.0) && Dot(t, acc) == 0.0 {
      ArcGeometry.DotDiv(t, 1.0, acc, accNorm);
      assert Div(t, 1.0) == t;
      assert Dot(t, R.c2) == 0.0;
      ArcGeometry.Lagrange(t, R.c2);
    }
  }

  /** For a unit normal, the two arguments of the first `atan2` are the sine
      and cosine of the normal's angle from the `z` axis: they lie on the unit
      circle, so they are never both zero, and the horizontal length is at
      most one. */
  lemma FrenetAngleArguments(t: Vec3, acc: Vec3, accNorm: real, planarNorm: real)
    requires IsNorm(acc, accNorm) && accNorm > 0.0
    requires IsNorm(Horizontal(FrenetColumns(t, acc, accNorm).c2), planarNorm)
    ensures var n := FrenetColumns(t, acc, accNorm).c2;
      planarNorm * planarNorm + n.z * n.z == 1.0 && (planarNorm != 0.0 || n.z != 0.0) && planarNorm <= 1.0
  {
    var n := FrenetColumns(t, acc, accNorm).c2;
    FrenetColumnsOrthogonal(t, acc, accNorm);
    assert planarNorm * planarNorm + n.z * n.z == Dot(n, n);
    ArcGeometry.SquareNonNegative(n.z);
    if planarNorm > 1.0 {
      TimeScaling.MulMono(1.0, planarNorm, planarNorm);
    }
  }

  /** The frame at one end of the path: sample `EndIndex(column, length)`
      with the norm of its acceleration. */
  function EndFrame(dp: array2<real>, ddp: array2<real>, column: int, length: int, accFirst: real, accLast: real): Mat3
    reads dp, ddp
    requires 1 <= length && HasColumns(dp, length) && HasColumns(ddp, length)
    requires accFirst != 0.0 && accLast != 0.0
  {
    var index := EndIndex(column, length);
    FrenetColumns(Col(dp, index), Col(ddp, index), if column == 1 then accLast else accFirst)
  }

  /** `frenet_frame`: for `column` 0 and 1 it takes the sample `EndIndex`, stores
      the tangent, normal and binormal in column `column` of `o_EE_t`, `o_EE_n`
      and `o_EE_b`, then reads `PHI_i` off the frame at the first sample and
      `PHI_f` off the frame at the last. `accFirst` and `accLast` are the
      norms of the two acceleration columns, `planarFirst` and `planarLast`
      the horizontal lengths of the two normals. The position buffer `p` of
      the source is not read and is dropped. */
  method FrenetFrame(dp: array2<real>, ddp: array2<real>,
                     o_EE_t: array2<real>, o_EE_n: array2<real>, o_EE_b: array2<real>,
                     PHI_i: array2<real>, PHI_f: array2<real>, length: int,
                     accFirst: real, accLast: real, planarFirst: real, planarLast: real,
                     atan2: (real, real) -> real)
    requires 1 <= length && HasColumns(dp, length) && HasColumns(ddp, length)
    requires o_EE_t.Length0 == 3 && o_EE_t.Length1 == 2 && o_EE_n.Length0 == 3 && o_EE_n.Length1 == 2
    requires o_EE_b.Length0 == 3 && o_EE_b.Length1 == 2
    requires PHI_i.Length0 == 3 && PHI_i.Length1 == 1 && PHI_f.Length0 == 3 && PHI_f.Length1 == 1
    requires o_EE_t != o_EE_n && o_EE_t != o_EE_b && o_EE_n != o_EE_b
    requires PHI_i != PHI_f && PHI_i != o_EE_t && PHI_i != o_EE_n && PHI_i != o_EE_b
    requires PHI_f != o_EE_t && PHI_f != o_EE_n && PHI_f != o_EE_b
    requires dp != o_EE_t && dp != o_EE_n && dp != o_EE_b && dp != PHI_i && dp != PHI_f
    requires ddp != o_EE_t && ddp != o_EE_n && ddp != o_EE_b && ddp != PHI_i && ddp != PHI_f
    requires IsNorm(Col(ddp, 0), accFirst) && accFirst > 0.0
    requires IsNorm(Col(ddp, length - 1), accLast) && accLast > 0.0
    requires IsNorm(Horizontal(FrenetColumns(Col(dp, 0), Col(ddp, 0), accFirst).c2), planarFirst)
    requires IsNorm(Horizontal(FrenetColumns(Col(dp, length - 1), Col(ddp, length - 1), accLast).c2), planarLast)
    modifies o_EE_t, o_EE_n, o_EE_b, PHI_i, PHI_f
    ensures forall column :: 0 <= column < 2 ==>
              var R := EndFrame(dp, ddp, column, length, accFirst, accLast);
              Col(o_EE_t, column) == R.c0 && Col(o_EE_b, column) == R.c1 && Col(o_EE_n, column) == R.c2
    ensures Col(PHI_i, 0) == AngleVector(FrenetColumns(Col(dp, 0), Col(ddp, 0), accFirst), planarFirst, atan2)
    ensures Col(PHI_f, 0) == AngleVector(FrenetColumns(Col(dp, length - 1), Col(ddp, length - 1), accLast),
                                         planarLast, atan2)
  {
    for column := 0 to 2
      invariant forall c :: 0 <= c < column ==>
                  var R := EndFrame(dp, ddp, c, length, accFirst, accLast);
                  Col(o_EE_t, c) == R.c0 && Col(o_EE_b, c) == R.c1 && Col(o_EE_n, c) == R.c2
    {
      var index := 0;
      var accNorm := accFirst;
      if column == 1 {
        index := length - 1;
        accNorm := accLast;
      }
      var n := Div(Col(ddp, index), accNorm);
      SetCol(o_EE_t, column, Col(dp, index));
      SetCol(o_EE_n, column, n);
      var b := Cross(Col(o_EE_t, column), Col(o_EE_n, column));
      SetCol(o_EE_b, column, b);
    }
    var R := Mat3(Col(o_EE_t, 0), Col(o_EE_b, 0), Col(o_EE_n, 0));
    SetCol(PHI_i, 0, AngleVector(R, planarFirst, atan2));
    R := Mat3(Col(o_EE_t, 1), Col(o_EE_b, 1), Col(o_EE_n, 1));
    SetCol(PHI_f, 0, AngleVector(R, planarLast, atan2));
  }

  // ---------------------------------------------------------------------------
  // EE_orientation (lines 360-387)

  /** `l = (PHI_f - PHI_i) / ||PHI_f - PHI_i||` (lines 379-380). */
  function AngleDirection(PHI_i: Vec3, PHI_f: Vec3, phiDist: real): Vec3
    requires phiDist != 0.0
  {
    Div(Sub(PHI_f, PHI_i), phiDist)
  }

  /** The loop of lines 381-386: column `i` of `o_tilde` is `PHI_i + l s[i]`,
      of `do_tilde` is `l sd[i]` and of `ddo_tilde` is `l sdd[i]`. */
  method FillOrientation(o_tilde: array2<real>, do_tilde: array2<real>, ddo_tilde: array2<real>,
                         s: array<real>, sd: array<real>, sdd: array<real>,
                         PHI_i: Vec3, l: Vec3, length: int)
    requires HasColumns(o_tilde, length) && HasColumns(do_tilde, length) && HasColumns(ddo_tilde, length)
    requires length <= s.Length && length <= sd.Length && length <= sdd.Length
    requires o_tilde != do_tilde && o_tilde != ddo_tilde && do_tilde != ddo_tilde
    modifies o_tilde, do_tilde, ddo_tilde
    ensures forall k :: 0 <= k < length ==>
              Col(o_tilde, k) == Motion.LinePoint(PHI_i, l, s[k]) && Col(do_tilde, k) == Scale(sd[k], l) &&
              Col(ddo_tilde, k) == Scale(sdd[k], l)
    ensures forall r, k :: 0 <= r < 3 && 0 <= k < o_tilde.Length1 && k >= length ==> o_tilde[r, k] == old(o_tilde[r, k])
    ensures forall r, k :: 0 <= r < 3 && 0 <= k < do_tilde.Length1 && k >= length ==> do_tilde[r, k] == old(do_tilde[r, k])
    ensures forall r, k :: 0 <= r < 3 && 0 <= k < ddo_tilde.Length1 && k >= length ==> ddo_tilde[r, k] == old(ddo_tilde[r, k])
  {
    var i := 0;
    while i < length
      invariant 0 <= i && (i <= length || i == 0)
      invariant forall k :: 0 <= k < i ==>
                  Col(o_tilde, k) == Motion.LinePoint(PHI_i, l, s[k]) && Col(do_tilde, k) == Scale(sd[k], l) &&
                  Col(ddo_tilde, k) == Scale(sdd[k], l)
      invariant forall r, k :: 0 <= r < 3 && 0 <= k < o_tilde.Length1 && k >= i ==> o_tilde[r, k] == old(o_tilde[r, k])
      invariant forall r, k :: 0 <= r < 3 && 0 <= k < do_tilde.Length1 && k >= i ==> do_tilde[r, k] == old(do_tilde[r, k])
      invariant forall r, k :: 0 <= r < 3 && 0 <= k < ddo_tilde.Length1 && k >= i ==> ddo_tilde[r, k] == old(ddo_tilde[r, k])
    {
      SetCol(o_tilde, i, Motion.LinePoint(PHI_i, l, s[i]));
      SetCol(do_tilde, i, Scale(sd[i], l));
      SetCol(ddo_tilde, i, Scale(sdd[i], l));
      i := i + 1;
    }
  }

  /** `EE_orientation`: runs the quintic law from `0` to `||pf - pi||` (the
      position distance, lines 367-368) on the grid of `T` and moves the angle
      triple from `PHI_i` along `l`. The coefficients `a` solve the boundary
      system with `qf = ||pf - pi||`; `PHI_f != PHI_i` keeps line 380 from
      dividing by zero. */
  method EEOrientation(T: array<real>, PHI_i: Vec3, PHI_f: Vec3,
                       o_tilde: array2<real>, do_tilde: array2<real>, ddo_tilde: array2<real>,
                       pi: Vec3, pf: Vec3, ti: real, tf: real, Ts: real,
                       dist: real, phiDist: real, a: seq<real>)
    requires Ts != 0.0 && SampleCount(ti, tf, Ts) >= 0
    requires IsNorm(Sub(pf, pi), dist)
    requires IsNorm(Sub(PHI_f, PHI_i), phiDist) && phiDist > 0.0
    requires SolvesBoundary(a, ti, tf, 0.0, 0.0, 0.0, dist, 0.0, 0.0)
    requires SampleCount(ti, tf, Ts) <= T.Length
    requires HasColumns(o_tilde, SampleCount(ti, tf, Ts)) && HasColumns(do_tilde, SampleCount(ti, tf, Ts))
    requires HasColumns(ddo_tilde, SampleCount(ti, tf, Ts))
    requires o_tilde != do_tilde && o_tilde != ddo_tilde && do_tilde != ddo_tilde
    modifies T, o_tilde, do_tilde, ddo_tilde
    ensures forall k :: 0 <= k < GridCount(ti, Ts, SampleCount(ti, tf, Ts)) ==> T[k] == ti + k as real * Ts
    ensures forall k :: GridCount(ti, Ts, SampleCount(ti, tf, Ts)) <= k < T.Length ==> T[k] == old(T[k])
    ensures forall k :: 0 <= k < SampleCount(ti, tf, Ts) ==>
              Col(o_tilde, k) == Motion.LinePoint(PHI_i, AngleDirection(PHI_i, PHI_f, phiDist), SampledPosition(a, T[k], T[0])) &&
              Col(do_tilde, k) == Scale(Velocity(a, T[k]), AngleDirection(PHI_i, PHI_f, phiDist)) &&
              Col(ddo_tilde, k) == Scale(Acceleration(a, T[k]), AngleDirection(PHI_i, PHI_f, phiDist))
    ensures forall r, k :: 0 <= r < 3 && 0 <= k < o_tilde.Length1 && k >= SampleCount(ti, tf, Ts) ==>
              o_tilde[r, k] == old(o_tilde[r, k])
    ensures forall r, k :: 0 <= r < 3 && 0 <= k < do_tilde.Length1 && k >= SampleCount(ti, tf, Ts) ==>
              do_tilde[r, k] == old(do_tilde[r, k])
    ensures forall r, k :: 0 <= r < 3 && 0 <= k < ddo_tilde.Length1 && k >= SampleCount(ti, tf, Ts) ==>
              ddo_tilde[r, k] == old(ddo_tilde[r, k])
  {
    var length := SampleCount(ti, tf, Ts);
    var s := new real[length];
    var sd := new real[length];
    var sdd := new real[length];
    FifthPolynomials(T, s, sd, sdd, ti, tf, 0.0, 0.0, 0.0, dist, 0.0, 0.0, Ts, a);
    FillOrientation(o_tilde, do_tilde, ddo_tilde, s, sd, sdd, PHI_i, AngleDirection(PHI_i, PHI_f, phiDist), length);
  }

  /** `k (x / n) == x` with `x != 0` forces `k == n`. */
  lemma ScaledQuotient(k: real, x: real, n: real)
    requires n != 0.0 && x != 0.0 && k * (x / n) == x
    ensures k == n
  {
    var q := x / n;
    assert x == q * n;
    assert q != 0.0;
    assert k * q == n * q;
  }

  /** The orientation profile starts at `PHI_i` with zero angular velocity and
      acceleration and ends with zero velocity and acceleration; but since its
      target is the position distance `||pf - pi||`, it ends at `PHI_f`
      exactly when that distance equals `||PHI_f - PHI_i||`. */
  lemma OrientationEnds(PHI_i: Vec3, PHI_f: Vec3, ti: real, tf: real, dist: real, phiDist: real, a: seq<real>)
    requires IsNorm(Sub(PHI_f, PHI_i), phiDist) && phiDist > 0.0
    requires SolvesBoundary(a, ti, tf, 0.0, 0.0, 0.0, dist, 0.0, 0.0)
    ensures Motion.LinePoint(PHI_i, AngleDirection(PHI_i, PHI_f, phiDist), SampledPosition(a, ti, ti)) == PHI_i
    ensures Scale(Velocity(a, ti), AngleDirection(PHI_i, PHI_f, phiDist)) == ZERO
    ensures Scale(Acceleration(a, ti), AngleDirection(PHI_i, PHI_f, phiDist)) == ZERO
    ensures Scale(Velocity(a, tf), AngleDirection(PHI_i, PHI_f, phiDist)) == ZERO
    ensures Scale(Acceleration(a, tf), AngleDirection(PHI_i, PHI_f, phiDist)) == ZERO
    ensures Motion.LinePoint(PHI_i, AngleDirection(PHI_i, PHI_f, phiDist), Position(a, tf)) == PHI_f
            <==> dist == phiDist
  {
    BoundaryConditions(a, ti, tf, 0.0, 0.0, 0.0, dist, 0.0, 0.0);
    SampledPositionOffset(a, ti, ti);
    var d := Sub(PHI_f, PHI_i);
    var l := AngleDirection(PHI_i, PHI_f, phiDist);
    ArcGeometry.NormPositive(d, phiDist);
    if Motion.LinePoint(PHI_i, l, dist) == PHI_f {
      assert Scale(dist, l) == d;
      if d.x != 0.0 {
        ScaledQuotient(dist, d.x, phiDist);
      } else if d.y != 0.0 {
        ScaledQuotient(dist, d.y, phiDist);
      } else {
        ScaledQuotient(dist, d.z, phiDist);
      }
    }
    if dist == phiDist {
      ScaleUnitDirection(d, phiDist);
    }
  }
}
