# Trajectory generation of the rvc talker node, in Dafny

`src/talker.cpp` plans a Cartesian trajectory for a robot arm, solves
inverse kinematics sample by sample, and publishes the accepted joint
positions to the arm's trajectory controller in one JointTrajectory message. This project models the
planning part of that file and proves what it computes:

- the quintic time law `fifth_polinomials`, which fills the time grid `T`
  and the profile `q`, `qd`, `qdd` from the six boundary conditions;
- the straight segment `linear_motion` / `linear_tilde`, the arc
  `circular_motion` / `circular_tilde`, and the end-effector orientation
  `frenet_frame` / `EE_orientation`, which fill 3-row buffers column by
  column;
- the helpers `sign_func`, `vecangle` and `circular_length`;
- in `main`, the sample count, the stacking of positions and orientations
  into the 6-row `dataPosition`, `dataVelocities` and `dataAcceleration`,
  and the per-sample filter that keeps the inverse-kinematics solutions
  within the joint limits.

Numbers are exact reals. `sin`, `cos` and `atan2` are function parameters.
Every norm and square root the code takes (`norm()`, and the `sqrt` in
`frenet_frame`) is passed as a value `n` together with the condition
`IsNorm(v, n)`, meaning `n >= 0` and `n * n == v . v`. The Eigen buffers
keep their own form: a 1 x N matrix is an `array<real>`, and a 3 x N or
6 x N matrix is an `array2<real>`. Freshly allocated Dafny arrays have
unknown contents, just as uninitialised `MatrixXd`s do. Each routine is a
method over those arrays. Its postcondition says which cells it writes,
what each written column is, and that the other cells keep their values.

Modules, in dependency order:

- `Vectors`: 3-vectors, dot and cross products, and unit directions.
- `Matrices`: 3 x 3 frames and columns of 3-row buffers.
- `TimeScaling`: the sample count, the time grid and the quintic law.
- `ArcGeometry`: `sign_func`, `vecangle`, `circular_length` and the arc frame `R`.
- `Motion`: the line and arc routines.
- `Orientation`: `frenet_frame` and `EE_orientation`.
- `Talker`: the planning part of `main`, the assembly and the filter.

The model keeps these behaviours of the code as written:

- The time-grid loop of `fifth_polinomials` compares the time `i` with the
  sample count `length`, not with `tf`. `TimeScaling.GridCount` gives the
  number of entries it writes. `TimeScaling.GridCountFull` gives a condition
  under which it writes all of them.
- `EE_orientation` drives the angle profile to the position distance
  `||pf - pi||`, not to `||PHI_f - PHI_i||`. `Orientation.OrientationEnds`
  shows that the final angles equal `PHI_f` exactly when the two distances
  agree.
- `frenet_frame` takes the velocity column itself as the tangent, without
  normalising it.
- `linear_tilde` adds `pi` to the velocity and acceleration columns as well
  as to the position. `Motion.LinearTildeEnds` shows what that does at the
  first sample.
- Line 74 evaluates the `a2` term at `T(0,0)` instead of `T(0,i)`.
  `TimeScaling.SampledPositionOffset` gives the exact error this causes.

## Model

| member | source | states |
|---|---|---|
| TimeScaling.SampleCountBounds | src/talker.cpp:57 | `length = floor((tf - ti) / Ts)` satisfies `length * Ts <= tf - ti < (length + 1) * Ts` for `Ts > 0`; `tf <= ti` gives no samples and `tf >= ti` a non-negative count |
| TimeScaling.SampleCountOfBounds | src/talker.cpp:122 | the same floor bounds for any span `x`, as `circular_length` counts the samples of an arc length: `n Ts <= x < (n + 1) Ts`, no samples for `x <= 0` |
| TimeScaling.GridCount | src/talker.cpp:58-67 | the grid loop writes at most `length` entries, none when `length <= 0`, and none when `ti` is already at or past the sample count |
| TimeScaling.GridCountFull | src/talker.cpp:58-67 | with `Ts >= 0`, the loop writes all `length` entries once the last grid time `ti + (length - 1) Ts` is below `length` |
| TimeScaling.MainGrid | src/talker.cpp:507-519 | `main`'s parameters `ti = 0`, `tf = 2`, `Ts = 0.1` give 20 samples, and the grid loop fills all 20 |
| TimeScaling.BoundaryConditions | src/talker.cpp:32-48 | a solution `a` of `H a = Q` gives a quintic that meets all six conditions: position, velocity and acceleration at `ti` and at `tf` |
| TimeScaling.DerivativeChain | src/talker.cpp:71-77 | the velocity that is evaluated is the derivative of the position polynomial, and the acceleration is the derivative of the velocity |
| TimeScaling.SampledPositionOffset | src/talker.cpp:74 | the stored position differs from `P(T[i])` by exactly `a2 (T[0]^2 - T[i]^2)`, so the first sample is exact |
| TimeScaling.FillTimeGrid | src/talker.cpp:58-67 | `T[k] = ti + k Ts` for the first `GridCount` entries; the rest of `T` is unchanged |
| TimeScaling.EvaluateSamples | src/talker.cpp:71-77 | for every `i < length`, `q[i]` is the line-74 value and `qd[i]`, `qdd[i]` are `P'(T[i])`, `P''(T[i])` |
| TimeScaling.FifthPolynomials | src/talker.cpp:29-78 | the whole routine: the grid prefix of `T`, then the three profiles at every sample of the grid |
| ArcGeometry.SignFunc | src/talker.cpp:80-94 | the result is `1`, `0` or `-1` exactly when `x` is positive, zero or negative, and `sign(x) x >= 0` |
| ArcGeometry.NormPositive | src/talker.cpp:99-103 | a norm is positive if and only if its vector is non-zero |
| ArcGeometry.SelfNormalNumerator | src/talker.cpp:116-119 | with `x x y` as its own normal, the sign in `vecangle` is `1` for non-parallel `x`, `y` and `0` for parallel ones; the `atan2` numerator equals `||x x y||` and is positive exactly when they are not parallel |
| ArcGeometry.AngleNumerator | src/talker.cpp:99-103 | the `atan2` numerator of `vecangle` is `0`, `+||v1 x v2||` or `-||v1 x v2||`: zero for parallel vectors, otherwise positive exactly when `v1 x v2` points to the side of `normal` and negative exactly when it points away |
| ArcGeometry.VecAngle | src/talker.cpp:96-109 | the angle is `atan2(||v1 x v2||, v1 . v2)` when `(v1 x v2) . normal > 0`, `atan2(-||v1 x v2||, v1 . v2)` when it is negative, and `atan2(0, v1 . v2)` when it is zero or the vectors are parallel |
| ArcGeometry.CircularLength | src/talker.cpp:111-125 | for `Ts > 0`, the count `length = floor(rho * angle / Ts)` of the arc from `pi` to `pf` about `c` satisfies `length Ts <= rho * angle < (length + 1) Ts` |
| ArcGeometry.CircularLengthNonNegative | src/talker.cpp:111-125 | if `atan2` is non-negative for a non-negative first argument, the arc sample count is never negative |
| ArcGeometry.CircleFrameOrthonormal | src/talker.cpp:165-171 | `R = [e_x, e_x x e_z, e_z]` has orthogonal unit columns, and `pi - c` and `pf - c` are both orthogonal to `e_z` |
| ArcGeometry.FramePlanar | src/talker.cpp:159-171 | `R` maps every local vector with zero third coordinate into the plane orthogonal to the axis |
| Motion.LineEnds | src/talker.cpp:296-312 | `(pf - pi) / ||pf - pi||` is a unit vector; profile value `0` maps to `pi` and `||pf - pi||` maps to `pf` |
| Motion.LinePointCollinear | src/talker.cpp:207-212 | every point of the line is on the line through `pi` and `pf` |
| Motion.LinearMotion | src/talker.cpp:197-213 | for `i < length1`, column `i` of `p` is `pi + dir s[i]`, `dp` is `dir` and `ddp` is zero; other columns are unchanged |
| Motion.FillLine | src/talker.cpp:308-313 | column `i` of each output is `pi + dir` times the matching profile sample, for every `i < length` |
| Motion.LinearTilde | src/talker.cpp:290-314 | `T` is the grid, and column `k` is `pi + dir q[k]`, `pi + dir qd[k]`, `pi + dir qdd[k]` for the quintic from `0` to `||pf - pi||` |
| Motion.LinearTildeEnds | src/talker.cpp:308-313 | the first sample is `pi`, the law reaches `pf` at `tf`, and the `+ pi` offset makes the velocity and acceleration columns at `ti` equal `pi`, not zero |
| Motion.ArcGrid | src/talker.cpp:139-148 | `s[k] = k Ts` for every `k < length`; the rest of `s` is unchanged |
| Motion.LocalCircle | src/talker.cpp:155-162 | `p_prime` holds `(rho cos(s/rho), rho sin(s/rho), 0)` in every column, with a zero third row |
| Motion.CopyThirdRow | src/talker.cpp:179 | row 2 of the first `length` columns becomes that of `p_prime`; rows 0 and 1 are unchanged |
| Motion.MapColumns | src/talker.cpp:189-194 | column `i` of `p`, `dp`, `ddp` is `c + R p'`, `R tmp`, `R tmp1` of the matching local column |
| Motion.FillTangentRows | src/talker.cpp:177-178 | rows 0-1 of every column `k < length` of `tmp` are those of the local tangent `(-sin(s/rho), cos(s/rho))`; row 2 is unchanged |
| Motion.FillNormalRows | src/talker.cpp:181-182 | rows 0-1 of every column `k < length` of `tmp1` are those of the local normal `-(1/rho) (cos(s/rho), sin(s/rho))`; row 2 is unchanged |
| Motion.ArcDerivatives | src/talker.cpp:173-183 | `tmp` holds the local tangent `(-sin, cos, 0)` and `tmp1` the local normal `-(1/rho) (cos, sin, 0)` in every column |
| Motion.CircularMotion | src/talker.cpp:127-195 | column `k` is `c + R p'(k Ts)`, `R` times the local tangent, and `R` times the local normal; later columns are unchanged |
| Motion.ArcPlanar | src/talker.cpp:189-194 | every position offset from `c`, velocity and acceleration column lies in the plane of the arc |
| Motion.ArcStartsAtPi | src/talker.cpp:139-171 | when `cos 0 = 1` and `sin 0 = 0`, the first sample is `pi` and the first velocity is `R`'s second column |
| Motion.ArcDerivativesTilde | src/talker.cpp:258-276 | `tmp` holds the local tangent scaled by `sd`, and row 2 of `tmp` and `tmp1` is zero; rows 0-1 of `tmp1` are never assigned |
| Motion.CircularTilde | src/talker.cpp:215-288 | `p_tilde` and `dp_tilde` follow the arc at the quintic arc lengths; every `ddp_tilde` column lies in the plane of the arc |
| Orientation.FrenetColumnsOrthogonal | src/talker.cpp:328-343 | the binormal is orthogonal to tangent and normal and the normal is a unit vector; a unit tangent orthogonal to the acceleration gives a unit binormal |
| Orientation.AngleVector | src/talker.cpp:347-349 | the three angles read off `R = [t, b, n]`: `atan2` of the horizontal length of `n` and `n.z`, `atan2(n.y, n.x)`, and `atan2(b.z, -t.z)`; the first two depend only on the normal |
| Orientation.FrenetAngleArguments | src/talker.cpp:328-347 | for the normal built from a non-zero acceleration, the two arguments of the first `atan2` lie on the unit circle: never both zero, and the horizontal length is at most one |
| Orientation.FrenetFrame | src/talker.cpp:316-358 | columns 0 and 1 of `o_EE_t`, `o_EE_n`, `o_EE_b` hold the frame `[t, b, n]` at sample `0` and `length - 1`, with `n` the acceleration over its norm; `PHI_i`, `PHI_f` are the angles read off those frames |
| Orientation.FillOrientation | src/talker.cpp:381-386 | column `i` is `PHI_i + l s[i]`, `l sd[i]`, `l sdd[i]` for every `i < length` |
| Orientation.EEOrientation | src/talker.cpp:360-387 | the same columns for the quintic from `0` to `||pf - pi||` on the grid of `T`, with `l = (PHI_f - PHI_i) / ||PHI_f - PHI_i||` |
| Orientation.OrientationEnds | src/talker.cpp:364-386 | the angles start at `PHI_i` with zero rates at both ends; they end at `PHI_f` if and only if `||pf - pi|| == ||PHI_f - PHI_i||` |
| Talker.CopyBlock | src/talker.cpp:632 | the three rows at the offset take the rows of `src` in the first `length` columns; every other cell is unchanged |
| Talker.Stack | src/talker.cpp:632-633 | a fresh 6 x `length` matrix whose top half is `top` and whose bottom half is `bottom`, column by column |
| Talker.Assemble | src/talker.cpp:628-639 | rows 0-2 of the three data matrices are the position, velocity and acceleration columns; rows 3-5 are the orientation ones |
| Talker.PlanSegment | src/talker.cpp:519-550 | fresh buffers of `floor((tf - ti) / Ts)` columns, filled by `linear_tilde` |
| Talker.PlanOrientation | src/talker.cpp:622-625 | fresh orientation buffers filled by `EE_orientation`, which leaves `T` as it was |
| Talker.PlanTrajectory | src/talker.cpp:505-639 | every column of the three 6-row matrices is the line point above the orientation point (and likewise for rates), on the grid `T` |
| Talker.CheckJoints | src/talker.cpp:726-734 | `check` holds if and only if every joint lies in `[-3.14, 3.14]` |
| Talker.FilterPoints | src/talker.cpp:687-766 | the points appended are exactly `Selected(results)`: one per accepted sample, in sample order |
| Talker.SelectedSound | src/talker.cpp:736-766 | every published point comes from a sample `i` whose flag is set and whose joints are within limits; its time is `i + 1` and its positions are those joints |
| Talker.SelectedComplete | src/talker.cpp:736-766 | every accepted sample `i` is published, with time `i + 1` |
| Talker.SelectedIncreasing | src/talker.cpp:765-766 | published times strictly increase, so no sample is published twice |

## Left out

- Floating point: values are exact reals. This leaves out the `float` parameters and casts, the accumulated drift of the float loop variable `i += Ts`, and rounding in `floor`.
- The 6 x 6 inverse at line 48 is not computed. The coefficients `a` are required to solve `H a = Q`, as a precondition.
- `sin`, `cos`, `atan2`, `sqrt` and `norm` are parameters or given values. Nothing is proved about their values, such as the arc keeping radius `rho` or the angle formulas of `frenet_frame`.
- Zero norms would divide by zero and give NaN in the source. The model requires the norms it divides by to be positive.
- A zero period `Ts == 0` is excluded. The source divides by `Ts` without a guard at lines 57, 301 and 372, which is undefined at zero.
- A negative sample count would be an invalid Eigen size. The routines that allocate require a non-negative count.
- Motion.CircularTilde: `ddp_tilde` is stated only to lie in the plane of the arc. Rows 0-1 of `tmp1` are never assigned in the source, so they hold whatever the fresh buffer held.
- Motion.LinearMotion: the source's `T` and `Ts` parameters are never read and are dropped.
- Motion.CircularMotion: the source's `T` parameter (line 127) is never read and is dropped.
- Orientation.FrenetFrame: the source's `p` parameter is never read and is dropped.
- Motion.LocalCircle: it returns a fresh `p_prime` rather than writing a caller's buffer.
- Motion.CircularMotion: the same applies to `tmp` and `tmp1`, which the source allocates locally.
- Talker.FilterPoints: the loop is modelled for a non-negative `length`, where it stops at `i == length`.
- Talker.FilterPoints: `ros::ok()` is treated as always true.
- Talker.FilterPoints: the console output of the loop (lines 707, 725 and 739) is dropped.
- Talker.FilterPoints: the velocity and acceleration arrays `vel_`, `acc_`, `previous_vel_` and the unused local `p` are dropped.
- Talker.PlanTrajectory: the constant `pi`, `pf`, `PHI_i`, `PHI_f` of `main` become parameters.
- Talker.PlanTrajectory: `main` also fills an arc-length grid `s` of `floor(||pf - pi|| / Ts)` entries (lines 564-578). It is not modelled, because its only reader, the `linear_motion` call at line 584, is commented out.
- TimeScaling.FifthPolynomials: an empty time window `ti == tf` with a non-zero target is excluded. There `H` is singular, and the model cannot state `H a = Q`. The source computes the inverse anyway and then writes nothing, because `length` is 0.
- The inverse kinematics `ra.IKinematics` is an external library. Its results are an input sequence of flags and joint values.
- The ROS parts are not modelled: node setup, subscribers, the camera, image and joint callbacks, the busy-wait on `joints_done`, `loop_rate.sleep` and publishing the message.
- Commented-out code is not modelled, including the `toRad` helper and the disabled blocks in `main`.
- `src/aruco_info.cpp` is not part of this model. It is a transform lookup and printing, with no trajectory logic.
