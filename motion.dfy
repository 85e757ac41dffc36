/** The position paths of src/talker.cpp: the straight segment from `pi` to
    `pf` (`linear_motion`, `linear_tilde`) and the arc about a centre `c`
    (`circular_motion`, `circular_tilde`). Each procedure fills caller-owned
    3-row buffers column by column; here they are `array2<real>` with three
    rows, and columns are read and written as `Vec3` values. */
module Motion {
  import opened Vectors
  import opened Matrices
  import opened TimeScaling
  import ArcGeometry

  // ---------------------------------------------------------------------------
  // The straight segment

  /** `support / ||support||` with `support = pf - pi`. */
  function Direction(pi: Vec3, pf: Vec3, dist: real): Vec3
    requires dist != 0.0
  {
    Div(Sub(pf, pi), dist)
  }

  /** `pi + dir * s`: the point at arc length `s` along `dir` from `pi`. */
  function LinePoint(pi: Vec3, dir: Vec3, s: real): Vec3 {
    Add(pi, Scale(s, dir))
  }

  /** The direction is a unit vector, and walking the full distance from `pi`
      along it ends at `pf`: the profile value `0` is `pi` and `||pf - pi||` is
      `pf`. */
  lemma LineEnds(pi: Vec3, pf: Vec3, dist: real)
    requires IsNorm(Sub(pf, pi), dist) && dist > 0.0
    ensures IsNorm(Direction(pi, pf, dist), 1.0)
    ensures LinePoint(pi, Direction(pi, pf, dist), 0.0) == pi
    ensures LinePoint(pi, Direction(pi, pf, dist), dist) == pf
  {
    UnitDirection(Sub(pf, pi), dist);
    ScaleUnitDirection(Sub(pf, pi), dist);
  }

  /** Every point of the line lies on the line through `pi` and `pf`: its
      offset from `pi` is parallel to `pf - pi`. */
  lemma LinePointCollinear(pi: Vec3, pf: Vec3, dist: real, s: real)
    requires dist != 0.0
    ensures Cross(Sub(LinePoint(pi, Direction(pi, pf, dist), s), pi), Sub(pf, pi)) == ZERO
  {
    var d := Sub(pf, pi);
    var k := s / dist;
    assert Sub(LinePoint(pi, Direction(pi, pf, dist), s), pi) == Scale(k, d);
  }

  /** `linear_motion` (lines 197-213): column `i` of `p` is the point at
      `s[i]` on the segment, `dp` holds the unit direction and `ddp` zero, for
      every `i < length1`; later columns are left alone. The time buffer `T`
      and the period `Ts` of the source are not read and are dropped. */
  method LinearMotion(p: array2<real>, dp: array2<real>, ddp: array2<real>, s: array<real>,
                      pi: Vec3, pf: Vec3, dist: real, length1: int)
    requires IsNorm(Sub(pf, pi), dist) && dist > 0.0
    requires HasColumns(p, length1) && HasColumns(dp, length1) && HasColumns(ddp, length1)
    requires length1 <= s.Length
    requires p != dp && p != ddp && dp != ddp
    modifies p, dp, ddp
    ensures forall k :: 0 <= k < length1 ==>
              Col(p, k) == LinePoint(pi, Direction(pi, pf, dist), s[k]) &&
              Col(dp, k) == Direction(pi, pf, dist) && Col(ddp, k) == ZERO
    ensures forall r, k :: 0 <= r < 3 && 0 <= k < p.Length1 && k >= length1 ==> p[r, k] == old(p[r, k])
    ensures forall r, k :: 0 <= r < 3 && 0 <= k < dp.Length1 && k >= length1 ==> dp[r, k] == old(dp[r, k])
    ensures forall r, k :: 0 <= r < 3 && 0 <= k < ddp.Length1 && k >= length1 ==> ddp[r, k] == old(ddp[r, k])
  {
    var dir := Direction(pi, pf, dist);
    var i := 0;
    while i < length1
      invariant 0 <= i && (i <= length1 || i == 0)
      invariant forall k :: 0 <= k < i ==>
                  Col(p, k) == LinePoint(pi, dir, s[k]) && Col(dp, k) == dir && Col(ddp, k) == ZERO
      invariant forall r, k :: 0 <= r < 3 && 0 <= k < p.Length1 && k >= i ==> p[r, k] == old(p[r, k])
      invariant forall r, k :: 0 <= r < 3 && 0 <= k < dp.Length1 && k >= i ==> dp[r, k] == old(dp[r, k])
      invariant forall r, k :: 0 <= r < 3 && 0 <= k < ddp.Length1 && k >= i ==> ddp[r, k] == old(ddp[r, k])
    {
      SetCol(p, i, LinePoint(pi, dir, s[i]));
      SetCol(dp, i, dir);
      SetCol(ddp, i, ZERO);
      i := i + 1;
    }
  }

  /** The loop of lines 308-313: column `i` of each output is `pi` plus the
      direction scaled by the matching profile sample, for every `i < length`. */
  method FillLine(P: array2<real>, dP: array2<real>, ddP: array2<real>,
                  s: array<real>, sd: array<real>, sdd: array<real>,
                  pi: Vec3, dir: Vec3, length: int)
    requires HasColumns(P, length) && HasColumns(dP, length) && HasColumns(ddP, length)
    requires length <= s.Length && length <= sd.Length && length <= sdd.Length
    requires P != dP && P != ddP && dP != ddP
    modifies P, dP, ddP
    ensures forall k :: 0 <= k < length ==>
              Col(P, k) == LinePoint(pi, dir, s[k]) && Col(dP, k) == LinePoint(pi, dir, sd[k]) &&
              Col(ddP, k) == LinePoint(pi, dir, sdd[k])
    ensures forall r, k :: 0 <= r < 3 && 0 <= k < P.Length1 && k >= length ==> P[r, k] == old(P[r, k])
    ensures forall r, k :: 0 <= r < 3 && 0 <= k < dP.Length1 && k >= length ==> dP[r, k] == old(dP[r, k])
    ensures forall r, k :: 0 <= r < 3 && 0 <= k < ddP.Length1 && k >= length ==> ddP[r, k] == old(ddP[r, k])
  {
    var i := 0;
    while i < length
      invariant 0 <= i && (i <= length || i == 0)
      invariant forall k :: 0 <= k < i ==>
                  Col(P, k) == LinePoint(pi, dir, s[k]) && Col(dP, k) == LinePoint(pi, dir, sd[k]) &&
                  Col(ddP, k) == LinePoint(pi, dir, sdd[k])
      invariant forall r, k :: 0 <= r < 3 && 0 <= k < P.Length1 && k >= i ==> P[r, k] == old(P[r, k])
      invariant forall r, k :: 0 <= r < 3 && 0 <= k < dP.Length1 && k >= i ==> dP[r, k] == old(dP[r, k])
      invariant forall r, k :: 0 <= r < 3 && 0 <= k < ddP.Length1 && k >= i ==> ddP[r, k] == old(ddP[r, k])
    {
      SetCol(P, i, LinePoint(pi, dir, s[i]));
      SetCol(dP, i, LinePoint(pi, dir, sd[i]));
      SetCol(ddP, i, LinePoint(pi, dir, sdd[i]));
      i := i + 1;
    }
  }

  /** `linear_tilde` (lines 290-314): runs the quintic law from `0` to
      `||pf - pi||` on the grid of `T` and fills column `i` of `p_tilde`,
      `dp_tilde` and `ddp_tilde` with `pi + dir * s`, `pi + dir * sd` and
      `pi + dir * sdd`. The velocity and acceleration columns carry the `+ pi`
      offset exactly as the source writes them. The coefficients `a` solve the
      boundary system with `qf = ||pf - pi||`. */
  method LinearTilde(T: array<real>, p_tilde: array2<real>, dp_tilde: array2<real>, ddp_tilde: array2<real>,
                     pi: Vec3, pf: Vec3, ti: real, tf: real, Ts: real, dist: real, a: seq<real>)
    requires Ts != 0.0 && SampleCount(ti, tf, Ts) >= 0
    requires IsNorm(Sub(pf, pi), dist) && dist > 0.0
    requires SolvesBoundary(a, ti, tf, 0.0, 0.0, 0.0, dist, 0.0, 0.0)
    requires SampleCount(ti, tf, Ts) <= T.Length
    requires HasColumns(p_tilde, SampleCount(ti, tf, Ts)) && HasColumns(dp_tilde, SampleCount(ti, tf, Ts))
    requires HasColumns(ddp_tilde, SampleCount(ti, tf, Ts))
    requires p_tilde != dp_tilde && p_tilde != ddp_tilde && dp_tilde != ddp_tilde
    modifies T, p_tilde, dp_tilde, ddp_tilde
    ensures forall k :: 0 <= k < GridCount(ti, Ts, SampleCount(ti, tf, Ts)) ==> T[k] == ti + k as real * Ts
    ensures forall k :: GridCount(ti, Ts, SampleCount(ti, tf, Ts)) <= k < T.Length ==> T[k] == old(T[k])
    ensures forall k :: 0 <= k < SampleCount(ti, tf, Ts) ==>
              Col(p_tilde, k) == LinePoint(pi, Direction(pi, pf, dist), SampledPosition(a, T[k], T[0])) &&
              Col(dp_tilde, k) == LinePoint(pi, Direction(pi, pf, dist), Velocity(a, T[k])) &&
              Col(ddp_tilde, k) == LinePoint(pi, Direction(pi, pf, dist), Acceleration(a, T[k]))
    ensures forall r, k :: 0 <= r < 3 && 0 <= k < p_tilde.Length1 && k >= SampleCount(ti, tf, Ts) ==>
              p_tilde[r, k] == old(p_tilde[r, k])
    ensures forall r, k :: 0 <= r < 3 && 0 <= k < dp_tilde.Length1 && k >= SampleCount(ti, tf, Ts) ==>
              dp_tilde[r, k] == old(dp_tilde[r, k])
    ensures forall r, k :: 0 <= r < 3 && 0 <= k < ddp_tilde.Length1 && k >= SampleCount(ti, tf, Ts) ==>
              ddp_tilde[r, k] == old(ddp_tilde[r, k])
  {
    var length := SampleCount(ti, tf, Ts);
    var s := new real[length];
    var sd := new real[length];
    var sdd := new real[length];
    FifthPolynomials(T, s, sd, sdd, ti, tf, 0.0, 0.0, 0.0, dist, 0.0, 0.0, Ts, a);
    FillLine(p_tilde, dp_tilde, ddp_tilde, s, sd, sdd, pi, Direction(pi, pf, dist), length);
  }

  /** What the profile makes of the straight segment: the first sample (taken
      at `ti`) is `pi`, the law reaches `pf` at `tf`, and, because of the `+ pi`
      offset, the velocity and acceleration columns at `ti` are `pi` rather
      than zero. */
  lemma LinearTildeEnds(pi: Vec3, pf: Vec3, ti: real, tf: real, dist: real, a: seq<real>)
    requires IsNorm(Sub(pf, pi), dist) && dist > 0.0
    requires SolvesBoundary(a, ti, tf, 0.0, 0.0, 0.0, dist, 0.0, 0.0)
    ensures LinePoint(pi, Direction(pi, pf, dist), SampledPosition(a, ti, ti)) == pi
    ensures LinePoint(pi, Direction(pi, pf, dist), Position(a, tf)) == pf
    ensures LinePoint(pi, Direction(pi, pf, dist), Velocity(a, ti)) == pi
    ensures LinePoint(pi, Direction(pi, pf, dist), Acceleration(a, ti)) == pi
  {
    BoundaryConditions(a, ti, tf, 0.0, 0.0, 0.0, dist, 0.0, 0.0);
    SampledPositionOffset(a, ti, ti);
    LineEnds(pi, pf, dist);
  }

  // ---------------------------------------------------------------------------
  // The arc

  /** Column `k` of `p_prime`: `(rho cos(s / rho), rho sin(s / rho), 0)`. */
  function LocalPoint(rho: real, s: real, cos: real -> real, sin: real -> real): Vec3
    requires rho != 0.0
  {
    Vec3(rho * cos(s / rho), rho * sin(s / rho), 0.0)
  }

  /** Column `k` of `tmp` in `circular_motion`: `(-sin(s / rho), cos(s / rho), 0)`. */
  function LocalTangent(rho: real, s: real, cos: real -> real, sin: real -> real): Vec3
    requires rho != 0.0
  {
    Vec3(-sin(s / rho), cos(s / rho), 0.0)
  }

  /** Column `k` of `tmp1` in `circular_motion`:
      `(-(1 / rho) cos(s / rho), -(1 / rho) sin(s / rho), 0)`. */
  function LocalNormal(rho: real, s: real, cos: real -> real, sin: real -> real): Vec3
    requires rho != 0.0
  {
    Vec3(-((1.0 / rho) * cos(s / rho)), -((1.0 / rho) * sin(s / rho)), 0.0)
  }

  /** The arc grid of lines 139-148: `s[k] = k * Ts` for every `k < length`.
      The float counter `i` steps by one, so the guard `i < length` and the
      `count >= length` break stop at the same column. */
  method ArcGrid(s: array<real>, Ts: real, length: int)
    requires length <= s.Length
    modifies s
    ensures forall k :: 0 <= k < length ==> s[k] == k as real * Ts
    ensures forall k :: 0 <= k < s.Length && k >= length ==> s[k] == old(s[k])
  {
    var count := 0;
    var i := 0.0;
    while i < length as real
      invariant 0 <= count && (count <= length || count == 0)
      invariant i == count as real
      invariant forall k :: 0 <= k < count ==> s[k] == k as real * Ts
      invariant forall k :: 0 <= k < s.Length && k >= count ==> s[k] == old(s[k])
      decreases length - count
    {
      if count >= length {
        break;
      }
      s[count] := i * Ts;
      count := count + 1;
      i := i + 1.0;
    }
  }

  /** Lines 155-162 (and 242-249): `p_prime` gets `rho cos(s / rho)` and
      `rho sin(s / rho)` in its first two rows, then a loop sets its third row
      to zero. */
  method LocalCircle(s: array<real>, rho: real, cos: real -> real, sin: real -> real, length: nat)
    returns (p_prime: array2<real>)
    requires rho != 0.0 && length <= s.Length
    ensures fresh(p_prime) && p_prime.Length0 == 3 && p_prime.Length1 == length
    ensures forall k :: 0 <= k < length ==> Col(p_prime, k) == LocalPoint(rho, s[k], cos, sin)
    ensures forall k :: 0 <= k < length ==> p_prime[2, k] == 0.0
  {
    p_prime := new real[3, length];
    var j := 0;
    while j < length
      invariant 0 <= j <= length
      invariant forall k :: 0 <= k < j ==>
                  p_prime[0, k] == LocalPoint(rho, s[k], cos, sin).x && p_prime[1, k] == LocalPoint(rho, s[k], cos, sin).y
    {
      p_prime[0, j] := rho * cos(s[j] / rho);
      p_prime[1, j] := rho * sin(s[j] / rho);
      j := j + 1;
    }
    var i := 0;
    while i < length
      invariant 0 <= i <= length
      invariant forall k :: 0 <= k < length ==>
                  p_prime[0, k] == LocalPoint(rho, s[k], cos, sin).x && p_prime[1, k] == LocalPoint(rho, s[k], cos, sin).y
      invariant forall k :: 0 <= k < i ==> p_prime[2, k] == 0.0
    {
      p_prime[2, i] := 0.0;
      i := i + 1;
    }
  }

  /** Row 2 of `dst` becomes row 2 of `src` (`tmp.row(2) = p_prime.row(2)`);
      the other rows keep their values. */
  method CopyThirdRow(dst: array2<real>, src: array2<real>, length: nat)
    requires dst.Length0 == 3 && src.Length0 == 3 && length <= dst.Length1 && length <= src.Length1
    requires dst != src
    modifies dst
    ensures forall k :: 0 <= k < length ==> dst[2, k] == src[2, k]
    ensures forall r, k :: 0 <= r < 3 && 0 <= k < dst.Length1 && (r < 2 || k >= length) ==> dst[r, k] == old(dst[r, k])
  {
    var i := 0;
    while i < length
      invariant 0 <= i <= length
      invariant forall k :: 0 <= k < i ==> dst[2, k] == src[2, k]
      invariant forall r, k :: 0 <= r < 3 && 0 <= k < dst.Length1 && (r < 2 || k >= i) ==> dst[r, k] == old(dst[r, k])
    {
      dst[2, i] := src[2, i];
      i := i + 1;
    }
  }

  /** The final loop of `circular_motion` and `circular_tilde` (lines 189-194
      and 282-287): column `i` of `p`, `dp` and `ddp` is `c + R p'`, `R tmp` and
      `R tmp1` of the matching local columns. */
  method MapColumns(p: array2<real>, dp: array2<real>, ddp: array2<real>, c: Vec3, R: Mat3,
                    p_prime: array2<real>, tmp: array2<real>, tmp1: array2<real>, length: nat)
    requires HasColumns(p, length) && HasColumns(dp, length) && HasColumns(ddp, length)
    requires HasColumns(p_prime, length) && HasColumns(tmp, length) && HasColumns(tmp1, length)
    requires p != dp && p != ddp && dp != ddp
    requires p_prime != p && p_prime != dp && p_prime != ddp
    requires tmp != p && tmp != dp && tmp != ddp && tmp1 != p && tmp1 != dp && tmp1 != ddp
    modifies p, dp, ddp
    ensures forall k :: 0 <= k < length ==>
              Col(p, k) == Add(c, MulVec(R, Col(p_prime, k))) && Col(dp, k) == MulVec(R, Col(tmp, k)) &&
              Col(ddp, k) == MulVec(R, Col(tmp1, k))
    ensures forall r, k :: 0 <= r < 3 && 0 <= k < p.Length1 && k >= length ==> p[r, k] == old(p[r, k])
    ensures forall r, k :: 0 <= r < 3 && 0 <= k < dp.Length1 && k >= length ==> dp[r, k] == old(dp[r, k])
    ensures forall r, k :: 0 <= r < 3 && 0 <= k < ddp.Length1 && k >= length ==> ddp[r, k] == old(ddp[r, k])
  {
    var i := 0;
    while i < length
      invariant 0 <= i <= length
      invariant forall k :: 0 <= k < i ==>
                  Col(p, k) == Add(c, MulVec(R, Col(p_prime, k))) && Col(dp, k) == MulVec(R, Col(tmp, k)) &&
                  Col(ddp, k) == MulVec(R, Col(tmp1, k))
      invariant forall r, k :: 0 <= r < 3 && 0 <= k < p.Length1 && k >= i ==> p[r, k] == old(p[r, k])
      invariant forall r, k :: 0 <= r < 3 && 0 <= k < dp.Length1 && k >= i ==> dp[r, k] == old(dp[r, k])
      invariant forall r, k :: 0 <= r < 3 && 0 <= k < ddp.Length1 && k >= i ==> ddp[r, k] == old(ddp[r, k])
    {
      SetCol(p, i, Add(c, MulVec(R, Col(p_prime, i))));
      SetCol(dp, i, MulVec(R, Col(tmp, i)));
      SetCol(ddp, i, MulVec(R, Col(tmp1, i)));
      i := i + 1;
    }
  }

  /** `tmp.row(0)` and `tmp.row(1)` of lines 177-178: the first two rows of
      the local tangent; row 2 keeps its value. */
  method FillTangentRows(tmp: array2<real>, s: array<real>, rho: real,
                         cos: real -> real, sin: real -> real, length: nat)
    requires rho != 0.0 && length <= s.Length && HasColumns(tmp, length)
    modifies tmp
    ensures forall k :: 0 <= k < length ==>
              tmp[0, k] == LocalTangent(rho, s[k], cos, sin).x && tmp[1, k] == LocalTangent(rho, s[k], cos, sin).y
    ensures forall k :: 0 <= k < tmp.Length1 ==> tmp[2, k] == old(tmp[2, k])
  {
    var i := 0;
    while i < length
      invariant 0 <= i <= length
      invariant forall k :: 0 <= k < i ==>
                  tmp[0, k] == LocalTangent(rho, s[k], cos, sin).x && tmp[1, k] == LocalTangent(rho, s[k], cos, sin).y
      invariant forall k :: 0 <= k < tmp.Length1 ==> tmp[2, k] == old(tmp[2, k])
    {
      tmp[0, i] := -sin(s[i] / rho);
      tmp[1, i] := cos(s[i] / rho);
      i := i + 1;
    }
  }

  /** `tmp1.row(0)` and `tmp1.row(1)` of lines 181-182: the first two rows of
      the local normal; row 2 keeps its value. */
  method FillNormalRows(tmp1: array2<real>, s: array<real>, rho: real,
                        cos: real -> real, sin: real -> real, length: nat)
    requires rho != 0.0 && length <= s.Length && HasColumns(tmp1, length)
    modifies tmp1
    ensures forall k :: 0 <= k < length ==>
              tmp1[0, k] == LocalNormal(rho, s[k], cos, sin).x && tmp1[1, k] == LocalNormal(rho, s[k], cos, sin).y
    ensures forall k :: 0 <= k < tmp1.Length1 ==> tmp1[2, k] == old(tmp1[2, k])
  {
    var i := 0;
    while i < length
      invariant 0 <= i <= length
      invariant forall k :: 0 <= k < i ==>
                  tmp1[0, k] == LocalNormal(rho, s[k], cos, sin).x && tmp1[1, k] == LocalNormal(rho, s[k], cos, sin).y
      invariant forall k :: 0 <= k < tmp1.Length1 ==> tmp1[2, k] == old(tmp1[2, k])
    {
      tmp1[0, i] := -((1.0 / rho) * cos(s[i] / rho));
      tmp1[1, i] := -((1.0 / rho) * sin(s[i] / rho));
      i := i + 1;
    }
  }

  /** Lines 173-183: `tmp` holds `(-sin(s / rho), cos(s / rho))` and `tmp1`
      holds `-(1 / rho) (cos(s / rho), sin(s / rho))` in their first two rows;
      both copy their third row from `p_prime`. */
  method ArcDerivatives(s: array<real>, p_prime: array2<real>, rho: real,
                        cos: real -> real, sin: real -> real, length: nat)
    returns (tmp: array2<real>, tmp1: array2<real>)
    requires rho != 0.0 && length <= s.Length && HasColumns(p_prime, length)
    requires forall k :: 0 <= k < length ==> p_prime[2, k] == 0.0
    ensures fresh(tmp) && fresh(tmp1) && tmp != tmp1
    ensures HasColumns(tmp, length) && HasColumns(tmp1, length)
    ensures forall k :: 0 <= k < length ==>
              Col(tmp, k) == LocalTangent(rho, s[k], cos, sin) && Col(tmp1, k) == LocalNormal(rho, s[k], cos, sin)
  {
    tmp := new real[3, length];
    tmp1 := new real[3, length];
    FillTangentRows(tmp, s, rho, cos, sin, length);
    CopyThirdRow(tmp, p_prime, length);
    FillNormalRows(tmp1, s, rho, cos, sin, length);
    CopyThirdRow(tmp1, p_prime, length);
  }

  /** `circular_motion` (lines 127-195): the arc about `c` through `pi`,
      sampled at arc lengths `s = k * Ts`. Column `k` of `p` is `c + R p'(s)`,
      of `dp` is `R (-sin(s / rho), cos(s / rho), 0)` and of `ddp` is
      `R (-(1 / rho) (cos(s / rho), sin(s / rho)), 0)`, where `R` is the frame
      built from `pi - c` and `r = (c - pf) x (c - pi)`. Columns from `length`
      on are left alone. */
  method CircularMotion(p: array2<real>, dp: array2<real>, ddp: array2<real>, pi: Vec3, pf: Vec3,
                        Ts: real, c: Vec3, length: nat, rho: real, axisNorm: real,
                        cos: real -> real, sin: real -> real)
    requires IsNorm(Sub(pi, c), rho) && rho > 0.0
    requires IsNorm(ArcGeometry.ArcAxis(pi, pf, c), axisNorm) && axisNorm > 0.0
    requires HasColumns(p, length) && HasColumns(dp, length) && HasColumns(ddp, length)
    requires p != dp && p != ddp && dp != ddp
    modifies p, dp, ddp
    ensures var R := ArcGeometry.CircleFrame(pi, pf, c, rho, axisNorm);
      forall k :: 0 <= k < length ==>
        Col(p, k) == Add(c, MulVec(R, LocalPoint(rho, k as real * Ts, cos, sin))) &&
        Col(dp, k) == MulVec(R, LocalTangent(rho, k as real * Ts, cos, sin)) &&
        Col(ddp, k) == MulVec(R, LocalNormal(rho, k as real * Ts, cos, sin))
    ensures forall r, k :: 0 <= r < 3 && 0 <= k < p.Length1 && k >= length ==> p[r, k] == old(p[r, k])
    ensures forall r, k :: 0 <= r < 3 && 0 <= k < dp.Length1 && k >= length ==> dp[r, k] == old(dp[r, k])
    ensures forall r, k :: 0 <= r < 3 && 0 <= k < ddp.Length1 && k >= length ==> ddp[r, k] == old(ddp[r, k])
  {
    var s := new real[length];
    ArcGrid(s, Ts, length);
    var p_prime := LocalCircle(s, rho, cos, sin, length);
    var R := ArcGeometry.CircleFrame(pi, pf, c, rho, axisNorm);
    var tmp, tmp1 := ArcDerivatives(s, p_prime, rho, cos, sin, length);
    MapColumns(p, dp, ddp, c, R, p_prime, tmp, tmp1, length);
  }

  /** Every column that `circular_motion` writes lies in the plane of the arc:
      the offset of a position from `c`, a velocity and an acceleration are all
      orthogonal to the axis `R.c2`, whatever `sin` and `cos` return. */
  lemma ArcPlanar(pi: Vec3, pf: Vec3, c: Vec3, rho: real, axisNorm: real, s: real,
                  cos: real -> real, sin: real -> real)
    requires IsNorm(Sub(pi, c), rho) && rho > 0.0
    requires IsNorm(ArcGeometry.ArcAxis(pi, pf, c), axisNorm) && axisNorm > 0.0
    ensures var R := ArcGeometry.CircleFrame(pi, pf, c, rho, axisNorm);
      Dot(Sub(Add(c, MulVec(R, LocalPoint(rho, s, cos, sin))), c), R.c2) == 0.0 &&
      Dot(MulVec(R, LocalTangent(rho, s, cos, sin)), R.c2) == 0.0 &&
      Dot(MulVec(R, LocalNormal(rho, s, cos, sin)), R.c2) == 0.0
  {
    var R := ArcGeometry.CircleFrame(pi, pf, c, rho, axisNorm);
    var v := MulVec(R, LocalPoint(rho, s, cos, sin));
    assert Sub(Add(c, v), c) == v;
    ArcGeometry.FramePlanar(pi, pf, c, rho, axisNorm, LocalPoint(rho, s, cos, sin));
    ArcGeometry.FramePlanar(pi, pf, c, rho, axisNorm, LocalTangent(rho, s, cos, sin));
    ArcGeometry.FramePlanar(pi, pf, c, rho, axisNorm, LocalNormal(rho, s, cos, sin));
  }

  /** With `cos 0 = 1` and `sin 0 = 0`, the arc starts at `pi` (the first
      sample, `s = 0`) and leaves it along the second frame column. */
  lemma ArcStartsAtPi(pi: Vec3, pf: Vec3, c: Vec3, rho: real, axisNorm: real,
                      cos: real -> real, sin: real -> real)
    requires IsNorm(Sub(pi, c), rho) && rho > 0.0
    requires IsNorm(ArcGeometry.ArcAxis(pi, pf, c), axisNorm) && axisNorm > 0.0
    requires cos(0.0) == 1.0 && sin(0.0) == 0.0
    ensures var R := ArcGeometry.CircleFrame(pi, pf, c, rho, axisNorm);
      Add(c, MulVec(R, LocalPoint(rho, 0.0, cos, sin))) == pi &&
      MulVec(R, LocalTangent(rho, 0.0, cos, sin)) == R.c1
  {
    var R := ArcGeometry.CircleFrame(pi, pf, c, rho, axisNorm);
    assert 0.0 / rho == 0.0;
    assert LocalPoint(rho, 0.0, cos, sin) == Vec3(rho, 0.0, 0.0);
    ScaleUnitDirection(Sub(pi, c), rho);
    assert MulVec(R, Vec3(rho, 0.0, 0.0)) == Sub(pi, c);
  }

  /** Column `k` of `tmp` in `circular_tilde`: the local tangent scaled by the
      profile speed, `(-sin(s / rho) sd, cos(s / rho) sd, 0)`. */
  function TildeTangent(rho: real, s: real, sd: real, cos: real -> real, sin: real -> real): Vec3
    requires rho != 0.0
  {
    Vec3(-sin(s / rho) * sd, cos(s / rho) * sd, 0.0)
  }

  /** Lines 258-276: `tmp` holds `(-sin(s / rho) sd, cos(s / rho) sd)` in its
      first two rows; `tmp1` is allocated but only its third row is assigned.
      Both copy their third row from `p_prime`. */
  method ArcDerivativesTilde(s: array<real>, sd: array<real>, p_prime: array2<real>, rho: real,
                             cos: real -> real, sin: real -> real, length: nat)
    returns (tmp: array2<real>, tmp1: array2<real>)
    requires rho != 0.0 && length <= s.Length && length <= sd.Length && HasColumns(p_prime, length)
    requires forall k :: 0 <= k < length ==> p_prime[2, k] == 0.0
    ensures fresh(tmp) && fresh(tmp1) && tmp != tmp1
    ensures HasColumns(tmp, length) && HasColumns(tmp1, length)
    ensures forall k :: 0 <= k < length ==> Col(tmp, k) == TildeTangent(rho, s[k], sd[k], cos, sin)
    ensures forall k :: 0 <= k < length ==> tmp1[2, k] == 0.0
  {
    tmp := new real[3, length];
    tmp1 := new real[3, length];
    var i := 0;
    while i < length
      invariant 0 <= i <= length
      invariant forall k :: 0 <= k < i ==>
                  tmp[0, k] == TildeTangent(rho, s[k], sd[k], cos, sin).x &&
                  tmp[1, k] == TildeTangent(rho, s[k], sd[k], cos, sin).y
    {
      tmp[0, i] := -sin(s[i] / rho) * sd[i];
      tmp[1, i] := cos(s[i] / rho) * sd[i];
      i := i + 1;
    }
    CopyThirdRow(tmp, p_prime, length);
    CopyThirdRow(tmp1, p_prime, length);
  }

  /** `circular_tilde` (lines 215-288): the arc with the quintic law from `0`
      to `length_qf` (the arc sample count, cast to a real) as its arc-length
      profile. Column `k` of `p_tilde` is `c + R p'(s)` and of `dp_tilde` is
      `R (-sin(s / rho) sd, cos(s / rho) sd, 0)`, with `s` and `sd` the profile
      samples. Only the third row of `tmp1` is assigned, so of `ddp_tilde` the
      model states just what that row fixes: every column lies in the plane of
      the arc. */
  method CircularTilde(T: array<real>, p_tilde: array2<real>, dp_tilde: array2<real>, ddp_tilde: array2<real>,
                       pi: Vec3, pf: Vec3, c: Vec3, ti: real, tf: real, Ts: real, length_qf: int,
                       a: seq<real>, rho: real, axisNorm: real, cos: real -> real, sin: real -> real)
    requires Ts != 0.0 && SampleCount(ti, tf, Ts) >= 0
    requires IsNorm(Sub(pi, c), rho) && rho > 0.0
    requires IsNorm(ArcGeometry.ArcAxis(pi, pf, c), axisNorm) && axisNorm > 0.0
    requires SolvesBoundary(a, ti, tf, 0.0, 0.0, 0.0, length_qf as real, 0.0, 0.0)
    requires SampleCount(ti, tf, Ts) <= T.Length
    requires HasColumns(p_tilde, SampleCount(ti, tf, Ts)) && HasColumns(dp_tilde, SampleCount(ti, tf, Ts))
    requires HasColumns(ddp_tilde, SampleCount(ti, tf, Ts))
    requires p_tilde != dp_tilde && p_tilde != ddp_tilde && dp_tilde != ddp_tilde
    modifies T, p_tilde, dp_tilde, ddp_tilde
    ensures forall k :: 0 <= k < GridCount(ti, Ts, SampleCount(ti, tf, Ts)) ==> T[k] == ti + k as real * Ts
    ensures forall k :: GridCount(ti, Ts, SampleCount(ti, tf, Ts)) <= k < T.Length ==> T[k] == old(T[k])
    ensures var R := ArcGeometry.CircleFrame(pi, pf, c, rho, axisNorm);
      forall k :: 0 <= k < SampleCount(ti, tf, Ts) ==>
        Col(p_tilde, k) == Add(c, MulVec(R, LocalPoint(rho, SampledPosition(a, T[k], T[0]), cos, sin))) &&
        Col(dp_tilde, k) == MulVec(R, TildeTangent(rho, SampledPosition(a, T[k], T[0]), Velocity(a, T[k]), cos, sin)) &&
        Dot(Col(ddp_tilde, k), R.c2) == 0.0
    ensures forall r, k :: 0 <= r < 3 && 0 <= k < p_tilde.Length1 && k >= SampleCount(ti, tf, Ts) ==>
              p_tilde[r, k] == old(p_tilde[r, k])
    ensures forall r, k :: 0 <= r < 3 && 0 <= k < dp_tilde.Length1 && k >= SampleCount(ti, tf, Ts) ==>
              dp_tilde[r, k] == old(dp_tilde[r, k])
    ensures forall r, k :: 0 <= r < 3 && 0 <= k < ddp_tilde.Length1 && k >= SampleCount(ti, tf, Ts) ==>
              ddp_tilde[r, k] == old(ddp_tilde[r, k])
  {
    var length := SampleCount(ti, tf, Ts);
    var s := new real[length];
    var sd := new real[length];
    var sdd := new real[length];
    FifthPolynomials(T, s, sd, sdd, ti, tf, 0.0, 0.0, 0.0, length_qf as real, 0.0, 0.0, Ts, a);
    var p_prime := LocalCircle(s, rho, cos, sin, length);
    var R := ArcGeometry.CircleFrame(pi, pf, c, rho, axisNorm);
    var tmp, tmp1 := ArcDerivativesTilde(s, sd, p_prime, rho, cos, sin, length);
    MapColumns(p_tilde, dp_tilde, ddp_tilde, c, R, p_prime, tmp, tmp1, length);
    forall k | 0 <= k < length
      ensures Dot(Col(ddp_tilde, k), R.c2) == 0.0
    {
      ArcGeometry.FramePlanar(pi, pf, c, rho, axisNorm, Col(tmp1, k));
    }
  }
}
