/** What `main` in src/talker.cpp does with the trajectory code: it plans the
    straight segment with its orientation on one time grid, stacks positions
    and orientations into 6-row matrices, and, sample by sample, keeps the
    inverse-kinematics solutions that succeeded and lie within the joint
    limits. The inverse kinematics itself is an input sequence here. */
module Talker {
  import opened Vectors
  import opened Matrices
  import opened TimeScaling
  import Motion
  import Orientation

  // ---------------------------------------------------------------------------
  // Assembly (lines 628-639)

  /** Rows 0-2 of column `k` of a 6-row buffer. */
  function Upper(m: array2<real>, k: int): Vec3
    reads m
    requires m.Length0 == 6 && 0 <= k < m.Length1
  {
    Vec3(m[0, k], m[1, k], m[2, k])
  }

  /** Rows 3-5 of column `k` of a 6-row buffer. */
  function Lower(m: array2<real>, k: int): Vec3
    reads m
    requires m.Length0 == 6 && 0 <= k < m.Length1
  {
    Vec3(m[3, k], m[4, k], m[5, k])
  }

  /** `dst.block(offset, 0, 3, length) = src.block(0, 0, 3, length)`: rows
      `offset .. offset + 2` of the first `length` columns of `dst` become the
      rows of `src`; every other cell of `dst` keeps its value. */
  method CopyBlock(dst: array2<real>, offset: int, src: array2<real>, length: int)
    requires dst.Length0 == 6 && (offset == 0 || offset == 3)
    requires HasColumns(src, length) && length <= dst.Length1
    modifies dst
    ensures forall r, k :: 0 <= r < 3 && 0 <= k < length ==> dst[offset + r, k] == src[r, k]
    ensures forall r, k :: 0 <= r < 6 && 0 <= k < dst.Length1 && (r < offset || r >= offset + 3 || k >= length) ==>
              dst[r, k] == old(dst[r, k])
  {
    var k := 0;
    while k < length
      invariant 0 <= k && (k <= length || k == 0)
      invariant forall r, j :: 0 <= r < 3 && 0 <= j < k ==> dst[offset + r, j] == src[r, j]
      invariant forall r, j :: 0 <= r < 6 && 0 <= j < dst.Length1 && (r < offset || r >= offset + 3 || j >= k) ==>
                  dst[r, j] == old(dst[r, j])
    {
      dst[offset, k] := src[0, k];
      dst[offset + 1, k] := src[1, k];
      dst[offset + 2, k] := src[2, k];
      k := k + 1;
    }
  }

  /** One of the three 6 x `length` matrices: position rows on top of
      orientation rows, column by column. */
  method Stack(top: array2<real>, bottom: array2<real>, length: nat) returns (data: array2<real>)
    requires HasColumns(top, length) && HasColumns(bottom, length)
    ensures fresh(data) && data.Length0 == 6 && data.Length1 == length
    ensures forall k :: 0 <= k < length ==> Upper(data, k) == Col(top, k) && Lower(data, k) == Col(bottom, k)
  {
    data := new real[6, length];
    CopyBlock(data, 0, top, length);
    CopyBlock(data, 3, bottom, length);
  }

  /** Lines 628-639: `dataPosition`, `dataVelocities` and `dataAcceleration`
      hold the position buffers in rows 0-2 and the orientation buffers in rows
      3-5. */
  method Assemble(p_tilde: array2<real>, dp_tilde: array2<real>, ddp_tilde: array2<real>,
                  o_tilde: array2<real>, do_tilde: array2<real>, ddo_tilde: array2<real>, length: nat)
    returns (dataPosition: array2<real>, dataVelocities: array2<real>, dataAcceleration: array2<real>)
    requires HasColumns(p_tilde, length) && HasColumns(dp_tilde, length) && HasColumns(ddp_tilde, length)
    requires HasColumns(o_tilde, length) && HasColumns(do_tilde, length) && HasColumns(ddo_tilde, length)
    ensures fresh(dataPosition) && fresh(dataVelocities) && fresh(dataAcceleration)
    ensures dataPosition.Length0 == 6 && dataPosition.Length1 == length
    ensures dataVelocities.Length0 == 6 && dataVelocities.Length1 == length
    ensures dataAcceleration.Length0 == 6 && dataAcceleration.Length1 == length
    ensures forall k :: 0 <= k < length ==>
              Upper(dataPosition, k) == Col(p_tilde, k) && Lower(dataPosition, k) == Col(o_tilde, k) &&
              Upper(dataVelocities, k) == Col(dp_tilde, k) && Lower(dataVelocities, k) == Col(do_tilde, k) &&
              Upper(dataAcceleration, k) == Col(ddp_tilde, k) && Lower(dataAcceleration, k) == Col(ddo_tilde, k)
  {
    dataPosition := Stack(p_tilde, o_tilde, length);
    dataVelocities := Stack(dp_tilde, do_tilde, length);
    dataAcceleration := Stack(ddp_tilde, ddo_tilde, length);
  }

  // ---------------------------------------------------------------------------
  // The planning part of main (lines 505-639)

  /** Lines 519-550: the time grid and the straight segment, in freshly
      allocated buffers of `length = floor((tf - ti) / Ts)` columns. */
  method PlanSegment(ti: real, tf: real, Ts: real, pi: Vec3, pf: Vec3, dist: real, a: seq<real>)
    returns (T: array<real>, p_tilde: array2<real>, dp_tilde: array2<real>, ddp_tilde: array2<real>)
    requires Ts != 0.0 && SampleCount(ti, tf, Ts) >= 0
    requires IsNorm(Sub(pf, pi), dist) && dist > 0.0
    requires SolvesBoundary(a, ti, tf, 0.0, 0.0, 0.0, dist, 0.0, 0.0)
    ensures fresh(T) && fresh(p_tilde) && fresh(dp_tilde) && fresh(ddp_tilde)
    ensures T.Length == SampleCount(ti, tf, Ts)
    ensures forall k :: 0 <= k < GridCount(ti, Ts, T.Length) ==> T[k] == ti + k as real * Ts
    ensures HasColumns(p_tilde, T.Length) && HasColumns(dp_tilde, T.Length) && HasColumns(ddp_tilde, T.Length)
    ensures var dir := Motion.Direction(pi, pf, dist);
      forall k :: 0 <= k < T.Length ==>
        Col(p_tilde, k) == Motion.LinePoint(pi, dir, SampledPosition(a, T[k], T[0])) &&
        Col(dp_tilde, k) == Motion.LinePoint(pi, dir, Velocity(a, T[k])) &&
        Col(ddp_tilde, k) == Motion.LinePoint(pi, dir, Acceleration(a, T[k]))
  {
    var length := SampleCount(ti, tf, Ts);
    T := new real[length];
    p_tilde := new real[3, length];
    dp_tilde := new real[3, length];
    ddp_tilde := new real[3, length];
    Motion.LinearTilde(T, p_tilde, dp_tilde, ddp_tilde, pi, pf, ti, tf, Ts, dist, a);
  }

  /** Lines 622-625: the orientation on the same grid, in freshly allocated
      buffers. `EE_orientation` rewrites `T` with the values it already holds. */
  method PlanOrientation(T: array<real>, ti: real, tf: real, Ts: real, pi: Vec3, pf: Vec3,
                         PHI_i: Vec3, PHI_f: Vec3, dist: real, phiDist: real, a: seq<real>)
    returns (o_tilde: array2<real>, do_tilde: array2<real>, ddo_tilde: array2<real>)
    requires Ts != 0.0 && SampleCount(ti, tf, Ts) >= 0 && T.Length == SampleCount(ti, tf, Ts)
    requires forall k :: 0 <= k < GridCount(ti, Ts, T.Length) ==> T[k] == ti + k as real * Ts
    requires IsNorm(Sub(pf, pi), dist)
    requires IsNorm(Sub(PHI_f, PHI_i), phiDist) && phiDist > 0.0
    requires SolvesBoundary(a, ti, tf, 0.0, 0.0, 0.0, dist, 0.0, 0.0)
    modifies T
    ensures fresh(o_tilde) && fresh(do_tilde) && fresh(ddo_tilde)
    ensures forall k :: 0 <= k < T.Length ==> T[k] == old(T[k])
    ensures HasColumns(o_tilde, T.Length) && HasColumns(do_tilde, T.Length) && HasColumns(ddo_tilde, T.Length)
    ensures var l := Orientation.AngleDirection(PHI_i, PHI_f, phiDist);
      forall k :: 0 <= k < T.Length ==>
        Col(o_tilde, k) == Motion.LinePoint(PHI_i, l, SampledPosition(a, T[k], T[0])) &&
        Col(do_tilde, k) == Scale(Velocity(a, T[k]), l) &&
        Col(ddo_tilde, k) == Scale(Acceleration(a, T[k]), l)
  {
    var length := T.Length;
    o_tilde := new real[3, length];
    do_tilde := new real[3, length];
    ddo_tilde := new real[3, length];
    Orientation.EEOrientation(T, PHI_i, PHI_f, o_tilde, do_tilde, ddo_tilde, pi, pf, ti, tf, Ts, dist, phiDist, a);
  }

  /** `main` up to the assembly (lines 505-639): plans the straight segment from
      `pi` to `pf` and the orientation from `PHI_i` to `PHI_f` on one time grid
      and stacks them. Both profiles solve the same boundary problem (from `0`
      to `||pf - pi||`), so one coefficient vector `a` serves both. `main`
      itself passes `ti = 0`, `tf = 2`, `Ts = 0.1` and constant `pi`, `pf`,
      `PHI_i`, `PHI_f`. */
  method PlanTrajectory(ti: real, tf: real, Ts: real, pi: Vec3, pf: Vec3, PHI_i: Vec3, PHI_f: Vec3,
                        dist: real, phiDist: real, a: seq<real>)
    returns (T: array<real>, dataPosition: array2<real>, dataVelocities: array2<real>, dataAcceleration: array2<real>)
    requires Ts != 0.0 && SampleCount(ti, tf, Ts) >= 0
    requires IsNorm(Sub(pf, pi), dist) && dist > 0.0
    requires IsNorm(Sub(PHI_f, PHI_i), phiDist) && phiDist > 0.0
    requires SolvesBoundary(a, ti, tf, 0.0, 0.0, 0.0, dist, 0.0, 0.0)
    ensures T.Length == SampleCount(ti, tf, Ts)
    ensures forall k :: 0 <= k < GridCount(ti, Ts, T.Length) ==> T[k] == ti + k as real * Ts
    ensures dataPosition.Length0 == 6 && dataPosition.Length1 == T.Length
    ensures dataVelocities.Length0 == 6 && dataVelocities.Length1 == T.Length
    ensures dataAcceleration.Length0 == 6 && dataAcceleration.Length1 == T.Length
    ensures var dir, l := Motion.Direction(pi, pf, dist), Orientation.AngleDirection(PHI_i, PHI_f, phiDist);
      forall k :: 0 <= k < T.Length ==>
        Upper(dataPosition, k) == Motion.LinePoint(pi, dir, SampledPosition(a, T[k], T[0])) &&
        Lower(dataPosition, k) == Motion.LinePoint(PHI_i, l, SampledPosition(a, T[k], T[0])) &&
        Upper(dataVelocities, k) == Motion.LinePoint(pi, dir, Velocity(a, T[k])) &&
        Lower(dataVelocities, k) == Scale(Velocity(a, T[k]), l) &&
        Upper(dataAcceleration, k) == Motion.LinePoint(pi, dir, Acceleration(a, T[k])) &&
        Lower(dataAcceleration, k) == Scale(Acceleration(a, T[k]), l)
  {
    var p_tilde, dp_tilde, ddp_tilde;
    T, p_tilde, dp_tilde, ddp_tilde := PlanSegment(ti, tf, Ts, pi, pf, dist, a);
    var o_tilde, do_tilde, ddo_tilde := PlanOrientation(T, ti, tf, Ts, pi, pf, PHI_i, PHI_f, dist, phiDist, a);
    dataPosition, dataVelocities, dataAcceleration :=
      Assemble(p_tilde, dp_tilde, ddp_tilde, o_tilde, do_tilde, ddo_tilde, T.Length);
  }

  // ---------------------------------------------------------------------------
  // The per-sample filter (lines 687-776)

  /** What the inverse kinematics returns for one sample: the success flag and
      the six joint values. */
  datatype IkResult = IkResult(flag: bool, joints: seq<real>)

  /** A point of the published trajectory: joint positions and
      `time_from_start` in whole seconds. */
  datatype TrajectoryPoint = TrajectoryPoint(positions: seq<real>, timeFromStart: int)

  /** Every joint lies in `[-3.14, 3.14]`. */
  predicate WithinLimits(joints: seq<real>) {
    forall j :: 0 <= j < |joints| ==> -3.14 <= joints[j] <= 3.14
  }

  /** Lines 726-734: `check` stays true unless some joint is above `3.14` or
      below `-3.14`, where the loop stops. */
  method CheckJoints(joints: seq<real>) returns (check: bool)
    requires |joints| == 6
    ensures check <==> WithinLimits(joints)
  {
    check := true;
    var j := 0;
    while j < 6
      invariant 0 <= j <= 6
      invariant check <==> WithinLimits(joints[..j])
      invariant !check ==> !WithinLimits(joints)
      invariant check && j == 6 ==> WithinLimits(joints)
    {
      if joints[j] > 3.14 || joints[j] < -3.14 {
        check := false;
        break;
      }
      assert joints[..j + 1] == joints[..j] + [joints[j]];
      j := j + 1;
    }
    if check {
      assert joints[..j] == joints;
    }
  }

  /** A sample is published when the solver succeeded and the joints are in
      range. */
  predicate Accepted(r: IkResult) {
    r.flag && WithinLimits(r.joints)
  }

  /** The points the loop publishes for the samples `results`: sample `i` gives
      the point with the sample's joints and `time_from_start = i + 1` when it
      is accepted, and nothing otherwise. */
  function Selected(results: seq<IkResult>): seq<TrajectoryPoint> {
    if |results| == 0 then []
    else
      var last := results[|results| - 1];
      Selected(results[..|results| - 1]) +
      (if Accepted(last) then [TrajectoryPoint(last.joints, |results|)] else [])
  }

  /** The loop of lines 687-776 over the samples `0 .. length - 1` (the loop
      stops at `i == length`): it checks the joints of each result and appends
      the accepted ones. */
  method FilterPoints(results: seq<IkResult>) returns (points: seq<TrajectoryPoint>)
    requires forall i :: 0 <= i < |results| ==> |results[i].joints| == 6
    ensures points == Selected(results)
  {
    points := [];
    var i := 0;
    while i != |results|
      invariant 0 <= i <= |results|
      invariant points == Selected(results[..i])
      decreases |results| - i
    {
      var r := results[i];
      var check := CheckJoints(r.joints);
      if r.flag && check {
        points := points + [TrajectoryPoint(r.joints, i + 1)];
      }
      assert results[..i + 1][..i] == results[..i];
      i := i + 1;
    }
    assert results[..i] == results;
  }

  /** Every published point comes from an accepted sample: its time is
      `i + 1` for a sample `i` whose result was accepted, and its positions are
      that sample's joints. */
  lemma {:induction false} SelectedSound(results: seq<IkResult>)
    ensures forall p :: p in Selected(results) ==>
              1 <= p.timeFromStart <= |results| &&
              Accepted(results[p.timeFromStart - 1]) && p.positions == results[p.timeFromStart - 1].joints
  {
    if |results| > 0 {
      var prefix := results[..|results| - 1];
      SelectedSound(prefix);
      forall p | p in Selected(results)
        ensures 1 <= p.timeFromStart <= |results|
        ensures Accepted(results[p.timeFromStart - 1]) && p.positions == results[p.timeFromStart - 1].joints
      {
        if p in Selected(prefix) {
          assert results[p.timeFromStart - 1] == prefix[p.timeFromStart - 1];
        }
      }
    }
  }

  /** Every accepted sample is published, with time `i + 1`. */
  lemma {:induction false} SelectedComplete(results: seq<IkResult>)
    ensures forall i :: 0 <= i < |results| && Accepted(results[i]) ==>
              TrajectoryPoint(results[i].joints, i + 1) in Selected(results)
  {
    if |results| > 0 {
      var prefix := results[..|results| - 1];
      SelectedComplete(prefix);
      forall i | 0 <= i < |results| && Accepted(results[i])
        ensures TrajectoryPoint(results[i].joints, i + 1) in Selected(results)
      {
        if i < |results| - 1 {
          assert results[i] == prefix[i];
          assert TrajectoryPoint(results[i].joints, i + 1) in Selected(prefix);
        }
      }
    }
  }

  /** The published times strictly increase, so the points are in sample
      order and no sample is published twice. */
  lemma {:induction false} SelectedIncreasing(results: seq<IkResult>)
    ensures forall m, n :: 0 <= m < n < |Selected(results)| ==>
              Selected(results)[m].timeFromStart < Selected(results)[n].timeFromStart
  {
    if |results| > 0 {
      var prefix := results[..|results| - 1];
      SelectedIncreasing(prefix);
      SelectedSound(prefix);
      var sel := Selected(results);
      forall m, n | 0 <= m < n < |sel|
        ensures sel[m].timeFromStart < sel[n].timeFromStart
      {
        if n >= |Selected(prefix)| {
          assert sel[m] in Selected(prefix);
        }
      }
    }
  }
}
