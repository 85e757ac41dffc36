/** The quintic time-scaling law of `fifth_polinomials` (src/talker.cpp): the
    sample count, the time grid, the 6x6 boundary system and the sample-by-sample
    evaluation of position, velocity and acceleration. Everything is over exact
    reals; the source's `float`/`double` rounding is not modelled. */
module TimeScaling {

  // ---------------------------------------------------------------------------
  // Small facts about real multiplication, one step each.

  lemma MulMono(a: real, b: real, k: real)
    requires k > 0.0
    ensures a <= b ==> a * k <= b * k
    ensures a < b ==> a * k < b * k
  {
  }

  lemma DivLe(b: real, x: real, k: real)
    requires k > 0.0 && b <= x / k
    ensures b * k <= x
  {
    MulMono(b, x / k, k);
  }

  lemma DivLt(x: real, b: real, k: real)
    requires k > 0.0 && x / k < b
    ensures x < b * k
  {
    MulMono(x / k, b, k);
  }

  lemma PosTimesPos(n: int, k: real)
    requires k > 0.0 && n >= 1
    ensures n as real * k > 0.0
  {
    MulMono(0.0, n as real, k);
  }

  lemma StepTimes(c: int, k: real)
    ensures (c + 1) as real * k == c as real * k + k
  {
  }

  // ---------------------------------------------------------------------------
  // Sample count: `(int)floor((tf - ti) / Ts)` (lines 57, 233, 301, 372, 519).

  /** The number of samples of a span `x` at period `Ts`. */
  function SampleCountOf(x: real, Ts: real): int
    requires Ts != 0.0
  {
    (x / Ts).Floor
  }

  /** The number of samples between `ti` and `tf` at period `Ts`. */
  function SampleCount(ti: real, tf: real, Ts: real): int
    requires Ts != 0.0
  {
    SampleCountOf(tf - ti, Ts)
  }

  /** With a positive period, `n` samples fit into the span and `n + 1` do not;
      a span that is empty or negative gives no samples. */
  lemma SampleCountOfBounds(x: real, Ts: real)
    requires Ts > 0.0
    ensures SampleCountOf(x, Ts) as real * Ts <= x < (SampleCountOf(x, Ts) + 1) as real * Ts
    ensures x <= 0.0 ==> SampleCountOf(x, Ts) <= 0
    ensures x >= 0.0 ==> SampleCountOf(x, Ts) >= 0
  {
    var n := SampleCountOf(x, Ts);
    DivLe(n as real, x, Ts);
    DivLt(x, (n + 1) as real, Ts);
    if x <= 0.0 && n >= 1 {
      PosTimesPos(n, Ts);
    }
  }

  /** The half-open time grid: `length * Ts <= tf - ti < (length + 1) * Ts`, so
      `tf` itself is never a sample time; `tf <= ti` gives no samples. */
  lemma SampleCountBounds(ti: real, tf: real, Ts: real)
    requires Ts > 0.0
    ensures SampleCount(ti, tf, Ts) as real * Ts <= tf - ti < (SampleCount(ti, tf, Ts) + 1) as real * Ts
    ensures tf <= ti ==> SampleCount(ti, tf, Ts) <= 0
    ensures tf >= ti ==> SampleCount(ti, tf, Ts) >= 0
  {
    SampleCountOfBounds(tf - ti, Ts);
  }

  // ---------------------------------------------------------------------------
  // Time grid (lines 58-67): `for (i = ti; i < length; i += Ts)`, stopped by
  // `count >= length`. The loop compares the time `i` with the sample COUNT.

  /** The value of `count` when the grid loop stops, starting from `count`. */
  function GridCountFrom(ti: real, Ts: real, length: int, count: nat): nat
    decreases if count < length then length - count else 0
  {
    if ti + count as real * Ts < length as real && count < length
    then GridCountFrom(ti, Ts, length, count + 1)
    else count
  }

  lemma {:induction false} GridCountFromBounds(ti: real, Ts: real, length: int, count: nat)
    ensures count <= GridCountFrom(ti, Ts, length, count)
    ensures GridCountFrom(ti, Ts, length, count) <= length || GridCountFrom(ti, Ts, length, count) == count
    decreases if count < length then length - count else 0
  {
    if ti + count as real * Ts < length as real && count < length {
      GridCountFromBounds(ti, Ts, length, count + 1);
    }
  }

  /** How many entries of `T` the grid loop writes: at most `length`, none
      when `length <= 0`, and none when the start time is already at or past
      the sample count. */
  function GridCount(ti: real, Ts: real, length: int): (c: nat)
    ensures c <= if length > 0 then length else 0
    ensures ti >= length as real ==> c == 0
  {
    GridCountFromBounds(ti, Ts, length, 0);
    GridCountFrom(ti, Ts, length, 0)
  }

  lemma {:induction false} GridCountFromFull(ti: real, Ts: real, length: int, count: nat)
    requires count <= length && Ts >= 0.0
    requires ti + (length - 1) as real * Ts < length as real
    ensures GridCountFrom(ti, Ts, length, count) == length
    decreases length - count
  {
    if count < length {
      assert (length - 1) as real * Ts - count as real * Ts == (length - 1 - count) as real * Ts;
      if Ts > 0.0 {
        MulMono(0.0, (length - 1 - count) as real, Ts);
      }
      GridCountFromFull(ti, Ts, length, count + 1);
    }
  }

  /** With a non-negative period, the grid loop writes all `length` entries as
      soon as the last grid time `ti + (length - 1) * Ts` is below `length`. */
  lemma GridCountFull(ti: real, Ts: real, length: int)
    requires length >= 0 && Ts >= 0.0
    requires ti + (length - 1) as real * Ts < length as real
    ensures GridCount(ti, Ts, length) == length
  {
    GridCountFromFull(ti, Ts, length, 0);
  }

  /** The parameters `main` uses (ti = 0, tf = 2, Ts = 0.1) give 20 samples,
      and the grid loop writes all of them. */
  lemma MainGrid()
    ensures SampleCount(0.0, 2.0, 0.1) == 20
    ensures GridCount(0.0, 0.1, 20) == 20
  {
    assert (2.0 - 0.0) / 0.1 == 20.0;
    GridCountFull(0.0, 0.1, 20);
  }

  // ---------------------------------------------------------------------------
  // Quintic polynomial and its boundary system (lines 32-48).

  /** `pow(x, n)` */
  function Pow(x: real, n: nat): real {
    if n == 0 then 1.0 else x * Pow(x, n - 1)
  }

  /** `P(t) = a0 + a1 t + a2 t^2 + a3 t^3 + a4 t^4 + a5 t^5` */
  function Position(a: seq<real>, t: real): real
    requires |a| == 6
  {
    a[5] * Pow(t, 5) + a[4] * Pow(t, 4) + a[3] * Pow(t, 3) + a[2] * Pow(t, 2) + a[1] * Pow(t, 1) + a[0]
  }

  /** `P'(t)`, as evaluated at line 75. */
  function Velocity(a: seq<real>, t: real): real
    requires |a| == 6
  {
    5.0 * a[5] * Pow(t, 4) + 4.0 * a[4] * Pow(t, 3) + 3.0 * a[3] * Pow(t, 2) + 2.0 * a[2] * Pow(t, 1) + a[1]
  }

  /** `P''(t)`, as evaluated at line 76. */
  function Acceleration(a: seq<real>, t: real): real
    requires |a| == 6
  {
    20.0 * a[5] * Pow(t, 3) + 12.0 * a[4] * Pow(t, 2) + 6.0 * a[3] * Pow(t, 1) + 2.0 * a[2]
  }

  /** The value stored in `q(0, k)` at line 74 for the sample time `t`, when the
      first sample time is `t0`: the quadratic term is taken at `T(0, 0)`. */
  function SampledPosition(a: seq<real>, t: real, t0: real): real
    requires |a| == 6
  {
    a[5] * Pow(t, 5) + a[4] * Pow(t, 4) + a[3] * Pow(t, 3) + a[2] * Pow(t0, 2) + a[1] * Pow(t, 1) + a[0]
  }

  /** Coefficients of the formal derivative of `P`. */
  function Derivative(a: seq<real>): (d: seq<real>)
    requires |a| == 6
    ensures |d| == 6
  {
    [a[1], 2.0 * a[2], 3.0 * a[3], 4.0 * a[4], 5.0 * a[5], 0.0]
  }

  /** The position row of `H` at time `t` (lines 33 and 36). */
  function PositionRow(t: real): seq<real> {
    [1.0, t, Pow(t, 2), Pow(t, 3), Pow(t, 4), Pow(t, 5)]
  }

  /** The velocity row of `H` at time `t` (lines 34 and 37). */
  function VelocityRow(t: real): seq<real> {
    [0.0, 1.0, 2.0 * t, 3.0 * Pow(t, 2), 4.0 * Pow(t, 3), 5.0 * Pow(t, 4)]
  }

  /** The acceleration row of `H` at time `t` (lines 35 and 38). */
  function AccelerationRow(t: real): seq<real> {
    [0.0, 0.0, 2.0, 6.0 * t, 12.0 * Pow(t, 2), 20.0 * Pow(t, 3)]
  }

  /** The rows of `H` for one boundary time `t` (lines 33-35 and 36-38). */
  function BoundaryRows(t: real): seq<seq<real>> {
    [PositionRow(t), VelocityRow(t), AccelerationRow(t)]
  }

  /** The 6x6 boundary matrix `H`. */
  function BoundaryMatrix(ti: real, tf: real): seq<seq<real>> {
    BoundaryRows(ti) + BoundaryRows(tf)
  }

  /** The right-hand side `Q` (lines 40-46). */
  function BoundaryVector(qi: real, dqi: real, ddqi: real, qf: real, dqf: real, ddqf: real): seq<real> {
    [qi, dqi, ddqi, qf, dqf, ddqf]
  }

  function RowTimes(row: seq<real>, a: seq<real>): real
    requires |row| == 6 && |a| == 6
  {
    row[0] * a[0] + row[1] * a[1] + row[2] * a[2] + row[3] * a[3] + row[4] * a[4] + row[5] * a[5]
  }

  /** `H * a` for a matrix with six columns. */
  function MatVec(H: seq<seq<real>>, a: seq<real>): seq<real>
    requires |a| == 6 && forall i :: 0 <= i < |H| ==> |H[i]| == 6
  {
    seq(|H|, i requires 0 <= i < |H| => RowTimes(H[i], a))
  }

  /** `a` is the coefficient vector that line 48 computes as `H.inverse() * Q`:
      it solves `H * a = Q`. */
  predicate SolvesBoundary(a: seq<real>, ti: real, tf: real,
                           qi: real, dqi: real, ddqi: real, qf: real, dqf: real, ddqf: real)
  {
    |a| == 6 && MatVec(BoundaryMatrix(ti, tf), a) == BoundaryVector(qi, dqi, ddqi, qf, dqf, ddqf)
  }

  lemma PositionRowAt(a: seq<real>, t: real)
    requires |a| == 6
    ensures RowTimes(PositionRow(t), a) == Position(a, t)
  {
    assert Pow(t, 1) == t;
  }

  lemma VelocityRowAt(a: seq<real>, t: real)
    requires |a| == 6
    ensures RowTimes(VelocityRow(t), a) == Velocity(a, t)
  {
    assert Pow(t, 1) == t;
  }

  lemma AccelerationRowAt(a: seq<real>, t: real)
    requires |a| == 6
    ensures RowTimes(AccelerationRow(t), a) == Acceleration(a, t)
  {
    assert Pow(t, 1) == t;
  }

  lemma RowsAt(a: seq<real>, t: real)
    requires |a| == 6
    ensures RowTimes(BoundaryRows(t)[0], a) == Position(a, t)
    ensures RowTimes(BoundaryRows(t)[1], a) == Velocity(a, t)
    ensures RowTimes(BoundaryRows(t)[2], a) == Acceleration(a, t)
  {
    PositionRowAt(a, t);
    VelocityRowAt(a, t);
    AccelerationRowAt(a, t);
  }

  /** A solution of `H * a = Q` gives a polynomial that meets all six boundary
      conditions: position, velocity and acceleration at `ti` and at `tf`. */
  lemma BoundaryConditions(a: seq<real>, ti: real, tf: real,
                           qi: real, dqi: real, ddqi: real, qf: real, dqf: real, ddqf: real)
    requires SolvesBoundary(a, ti, tf, qi, dqi, ddqi, qf, dqf, ddqf)
    ensures Position(a, ti) == qi && Velocity(a, ti) == dqi && Acceleration(a, ti) == ddqi
    ensures Position(a, tf) == qf && Velocity(a, tf) == dqf && Acceleration(a, tf) == ddqf
  {
    var H := BoundaryMatrix(ti, tf);
    var Q := BoundaryVector(qi, dqi, ddqi, qf, dqf, ddqf);
    assert H[..3] == BoundaryRows(ti) && H[3..] == BoundaryRows(tf);
    RowsAt(a, ti);
    RowsAt(a, tf);
    assert MatVec(H, a)[0] == Q[0] && MatVec(H, a)[1] == Q[1] && MatVec(H, a)[2] == Q[2];
    assert MatVec(H, a)[3] == Q[3] && MatVec(H, a)[4] == Q[4] && MatVec(H, a)[5] == Q[5];
  }

  /** The velocity evaluated at line 75 is the formal derivative of the position
      polynomial, and the acceleration at line 76 the derivative of that. */
  lemma DerivativeChain(a: seq<real>, t: real)
    requires |a| == 6
    ensures Velocity(a, t) == Position(Derivative(a), t)
    ensures Acceleration(a, t) == Velocity(Derivative(a), t)
  {
    assert Pow(t, 1) == t;
  }

  /** Line 74 is off from `P(t)` by exactly `a2 * (t0^2 - t^2)`, so the first
      sample, where `t == t0`, is exact. */
  lemma SampledPositionOffset(a: seq<real>, t: real, t0: real)
    requires |a| == 6
    ensures SampledPosition(a, t, t0) == Position(a, t) + a[2] * (Pow(t0, 2) - Pow(t, 2))
    ensures SampledPosition(a, t0, t0) == Position(a, t0)
  {
  }

  // ---------------------------------------------------------------------------
  // fifth_polinomials (lines 29-78)

  /** The grid loop of lines 58-67: writes `T[k] = ti + k * Ts` for the first
      `GridCount` entries and leaves the rest of `T` as it was. */
  method FillTimeGrid(T: array<real>, ti: real, Ts: real, length: int)
    requires length <= T.Length
    modifies T
    ensures forall k :: 0 <= k < GridCount(ti, Ts, length) ==> T[k] == ti + k as real * Ts
    ensures forall k :: GridCount(ti, Ts, length) <= k < T.Length ==> T[k] == old(T[k])
  {
    var count := 0;
    var i := ti;
    while i < length as real
      invariant count <= length || count == 0
      invariant i == ti + count as real * Ts
      invariant GridCountFrom(ti, Ts, length, count) == GridCount(ti, Ts, length)
      invariant forall k :: 0 <= k < count ==> T[k] == ti + k as real * Ts
      invariant forall k :: count <= k < T.Length ==> T[k] == old(T[k])
      decreases length - count
    {
      if count >= length {
        break;
      }
      T[count] := i;
      StepTimes(count, Ts);
      count := count + 1;
      i := i + Ts;
    }
  }

  /** The evaluation loop of lines 71-77 over the first `length` grid times. */
  method EvaluateSamples(T: array<real>, q: array<real>, qd: array<real>, qdd: array<real>,
                         a: seq<real>, length: int)
    requires |a| == 6
    requires length <= T.Length && length <= q.Length && length <= qd.Length && length <= qdd.Length
    requires q != qd && q != qdd && qd != qdd
    requires T != q && T != qd && T != qdd
    modifies q, qd, qdd
    ensures forall k :: 0 <= k < length ==>
              q[k] == SampledPosition(a, T[k], T[0]) && qd[k] == Velocity(a, T[k]) && qdd[k] == Acceleration(a, T[k])
    ensures forall k :: 0 <= k < q.Length && k >= length ==> q[k] == old(q[k])
    ensures forall k :: 0 <= k < qd.Length && k >= length ==> qd[k] == old(qd[k])
    ensures forall k :: 0 <= k < qdd.Length && k >= length ==> qdd[k] == old(qdd[k])
  {
    var j := 0;
    while j < length
      invariant 0 <= j && (j <= length || j == 0)
      invariant forall k :: 0 <= k < j ==>
                  q[k] == SampledPosition(a, T[k], T[0]) && qd[k] == Velocity(a, T[k]) && qdd[k] == Acceleration(a, T[k])
      invariant forall k :: 0 <= k < q.Length && k >= j ==> q[k] == old(q[k])
      invariant forall k :: 0 <= k < qd.Length && k >= j ==> qd[k] == old(qd[k])
      invariant forall k :: 0 <= k < qdd.Length && k >= j ==> qdd[k] == old(qdd[k])
    {
      q[j] := SampledPosition(a, T[j], T[0]);
      qd[j] := Velocity(a, T[j]);
      qdd[j] := Acceleration(a, T[j]);
      j := j + 1;
    }
  }

  /** Fills the time grid `T` and the samples `q`, `qd`, `qdd` of the quintic
      that solves the boundary system. The source computes the coefficients by
      inverting `H`; here they are the parameter `a`, required to solve it. */
  method FifthPolynomials(T: array<real>, q: array<real>, qd: array<real>, qdd: array<real>,
                          ti: real, tf: real, qi: real, dqi: real, ddqi: real,
                          qf: real, dqf: real, ddqf: real, Ts: real, a: seq<real>)
    requires Ts != 0.0
    requires SolvesBoundary(a, ti, tf, qi, dqi, ddqi, qf, dqf, ddqf)
    requires SampleCount(ti, tf, Ts) <= T.Length && SampleCount(ti, tf, Ts) <= q.Length
    requires SampleCount(ti, tf, Ts) <= qd.Length && SampleCount(ti, tf, Ts) <= qdd.Length
    requires T != q && T != qd && T != qdd && q != qd && q != qdd && qd != qdd
    modifies T, q, qd, qdd
    ensures forall k :: 0 <= k < GridCount(ti, Ts, SampleCount(ti, tf, Ts)) ==> T[k] == ti + k as real * Ts
    ensures forall k :: GridCount(ti, Ts, SampleCount(ti, tf, Ts)) <= k < T.Length ==> T[k] == old(T[k])
    ensures forall k :: 0 <= k < SampleCount(ti, tf, Ts) ==>
              q[k] == SampledPosition(a, T[k], T[0]) && qd[k] == Velocity(a, T[k]) && qdd[k] == Acceleration(a, T[k])
    ensures forall k :: 0 <= k < q.Length && k >= SampleCount(ti, tf, Ts) ==> q[k] == old(q[k])
    ensures forall k :: 0 <= k < qd.Length && k >= SampleCount(ti, tf, Ts) ==> qd[k] == old(qd[k])
    ensures forall k :: 0 <= k < qdd.Length && k >= SampleCount(ti, tf, Ts) ==> qdd[k] == old(qdd[k])
  {
    var length := SampleCount(ti, tf, Ts);
    FillTimeGrid(T, ti, Ts, length);
    EvaluateSamples(T, q, qd, qdd, a, length);
  }
}
