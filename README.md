# Per-frame kinematics of video-output, in Dafny

This project models the core of the pose-to-kinematics pipeline. Each video
frame passes through two stateful stages:

- **`SkeletonBuilder`** (`skeleton_builder.dfy`, module `Skeleton`) takes the
  detected landmarks of a frame. It first picks one point per joint. That is
  the raw detection, or the joint's last recorded point when the detection's
  visibility is below 0.5 and the joint was seen before. It appends that point
  to the joint's history. It then reports the moving average of the history's
  trailing window as the joint's smoothed 3D position, and the average's first
  two coordinates as its 2D position.
- **`MotionAnalyzer`** (`motion_analysis.dfy`, module `Motion`) takes the
  smoothed 3D positions and the time since the previous frame. Each call
  reports:
  - the lengths of 8 bones;
  - the angles at the elbows and knees;
  - each joint's velocity and acceleration, by finite differences against the
    positions and velocities it kept from the previous call;
  - a log of every computation: segment lines, then angle lines, then velocity
    lines.

The numeric helpers they share live in `math_utils.dfy` (module `MathUtils`):
the trailing moving average, the cosine-rule angle and `Vector2D`.

`dicts.dfy` (module `Dicts`) models Python's insertion-ordered `dict`. A
`Dict` is a key order plus a map, and `Put` is `d[k] = v`.

Both classes are imperative Dafny:

- `SkeletonBuilder.Build` and `MotionAnalyzer.Analyze` update map fields in
  loops.
- Each is proved equal to a specification function of the old state and the
  input: `FrameHistory` and `FramePoints`, or `Report`, `NextPositions` and
  `NextVelocities`.
- The properties of the source are lemmas about those functions.

Numbers are reals. numpy's `sqrt` (inside `linalg.norm`) and `arccos` are
parameters of every operation that needs them, bundled in a `Numerics` value.
The predicate `Sound` lists what is assumed of them:

- `sqrt` is the non-negative square root;
- `arccos` maps [-1, 1] into [0, pi];
- `arccos(0)` is pi/2.

A barely visible joint that was seen before re-records the last entry of its
history (skeleton_builder.py:59-61). The history holds the recorded input
points (skeleton_builder.py:47), not the smoothed outputs. `RecordedPoint` and
`HiddenJointRepeatsLast` state this.

## Model

| member | source | states |
|---|---|---|
| Dicts.Dict.Put | skeleton_builder.py:64-65 | Python `d[k] = v`: the map gains `k -> v`, a new key goes last in the iteration order, an existing key keeps its place, and keys stay distinct |
| Dicts.FreshAt | motion_analysis.py:77 | iterating a dictionary meets each key once: the key at position k is not among the keys before it |
| MathUtils.Mean | utils/math_utils.py:47 | each component of the mean, times the number of vectors, is that component's sum over the vectors |
| MathUtils.TrailingCount | utils/math_utils.py:45-49 | the number of trailing values averaged is at most the number of values and at least 1 when there are some; below the count of values it is the window, or 1 for a window below 1 |
| MathUtils.MovingAverage | utils/math_utils.py:39-49 | no values give the empty vector; otherwise the result has the values' dimension |
| MathUtils.MovingAverageIsTrailingMean | utils/math_utils.py:45-49 | the moving average is the mean of exactly the last min(max(1, window), n) values |
| MathUtils.MovingAverageSmallWindow | utils/math_utils.py:45 | a window of 1 or less (including 0 and negative windows) returns the last value |
| MathUtils.MovingAverageShortHistory | utils/math_utils.py:46-47 | with no more values than the window, the result is the mean of all of them |
| MathUtils.MovingAverageOfCopies | utils/math_utils.py:46-49 | averaging any number of copies of one vector, with any window, gives that vector |
| MathUtils.MeanOfCopies | utils/math_utils.py:47 | the mean of copies of one vector is that vector |
| MathUtils.MeanPermutation | utils/math_utils.py:47-49 | the mean does not depend on the order of the vectors averaged |
| MathUtils.ColumnSumPermutation | utils/math_utils.py:47-49 | a component's sum is the same over any reordering of the vectors |
| MathUtils.Clip | utils/math_utils.py:35 | the clipped cosine lies in [lo, hi] and is unchanged when already inside |
| MathUtils.AngleBetween | utils/math_utils.py:26-36 | the angle is 0.0 when the product of the norms is zero; with sound numerics it lies in [0, 180] degrees; it is defined for every pair of equal-length vectors |
| MathUtils.AngleSymmetric | utils/math_utils.py:32-36 | swapping the two vectors gives the same angle |
| MathUtils.DotSymmetric | utils/math_utils.py:35 | the dot product is symmetric |
| MathUtils.AngleWithZeroVector | utils/math_utils.py:32-34 | a zero vector on either side gives the fallback 0.0 |
| MathUtils.RightAngleExample | utils/math_utils.py:35-36 | the x and y unit axes are 90 degrees apart |
| MathUtils.NormNonNegative | utils/math_utils.py:32 | a norm is never negative |
| MathUtils.Vector2D.AsArray | utils/math_utils.py:19-20 | the array has two components, x then y |
| MathUtils.Vector2D.Length | utils/math_utils.py:22-23 | `Vector2D.norm`: the Euclidean length of `[x, y]`, never negative with sound numerics; `Vector2DLength` gives its value along an axis |
| MathUtils.Vector2DLength | utils/math_utils.py:22-23 | a 2D vector's length is non-negative, and along an axis it is the magnitude of the non-zero coordinate |
| Skeleton.SkeletonBuilder.constructor | skeleton_builder.py:38-43 | a new builder has the given window and no history |
| Skeleton.SkeletonBuilder.Default | skeleton_builder.py:42-43 | the builder made with no arguments has the default window of 5 and no history |
| Skeleton.SkeletonBuilder.SmoothPoint | skeleton_builder.py:45-48 | the joint's history (empty when missing) gains the point at its end, other joints' histories are unchanged, and the result is the moving average of the grown history |
| Skeleton.SkeletonBuilder.Build | skeleton_builder.py:50-67 | the new histories are `FrameHistory` of the old ones; the frame carries the input keypoints, `FramePoints` as its 3D points and their projections as its 2D points |
| Skeleton.RecordedPoint | skeleton_builder.py:56-61 | the point recorded for a detection is the raw (x, y, z) or the joint's last history entry, and always the raw point for a joint without history; `VisibleJointRecordsDetection` and `HiddenJointRepeatsLast` say which |
| Skeleton.FrameHistory | skeleton_builder.py:46-47 | the histories after a frame are the old ones plus one history per detected joint, none of them empty; `HistoryGrowsByOne` gives each one |
| Skeleton.FramePoints | skeleton_builder.py:54-65 | the 3D points of a frame are a well-formed dictionary with exactly the detected joints, in detection order; `SmoothedIsTrailingMean` gives each value |
| Skeleton.FrameShape | skeleton_builder.py:54-67 | the 3D and 2D points have exactly the input's keys, in input order, and each 2D point is the first two coordinates of the 3D point |
| Skeleton.HistoryGrowsByOne | skeleton_builder.py:46-63 | each detected joint's history grows by exactly one point and keeps its old points as a prefix; an undetected joint's history is unchanged or still absent; no history is ever emptied |
| Skeleton.VisibleJointRecordsDetection | skeleton_builder.py:56-63 | a detection with visibility of at least 0.5 is recorded as the raw (x, y, z) |
| Skeleton.HiddenJointRepeatsLast | skeleton_builder.py:59-63 | a detection with visibility below 0.5 of a joint with history records the history's last entry again |
| Skeleton.FirstObservationIsRaw | skeleton_builder.py:56-63 | a joint with no history, whatever its visibility, gets history [raw point] and is reported at the raw point |
| Skeleton.SmoothedIsTrailingMean | skeleton_builder.py:47-48 | the reported 3D point is the mean of the last min(max(1, window), length) entries of the updated history |
| Skeleton.NoSmoothingForUnitWindow | skeleton_builder.py:63-65 | with a window of at most 1, the reported point is the point just recorded |
| Skeleton.SteadyJointStaysPut | skeleton_builder.py:45-48 | a joint whose history and new point are all `p` is reported at `p`, for every window |
| Skeleton.ProjectedPut | skeleton_builder.py:64-65 | adding a 3D point and then projecting is the same as adding its projection to the projected points |
| Motion.MotionAnalyzer.constructor | motion_analysis.py:32-34 | a new analyzer keeps no position and no velocity |
| Motion.MeasureSegments | motion_analysis.py:50-57 | the segment loop's lengths and log lines are those of `SegmentPass` over the 8-segment table |
| Motion.MeasureAngles | motion_analysis.py:66-74 | the angle loop's angles and log lines are those of `AnglePass` over the 4-triple table |
| Motion.MotionAnalyzer.Differentiate | motion_analysis.py:78-85 | the velocity and acceleration computed from the kept state are those of `Kinematics` |
| Motion.MotionAnalyzer.TrackJoints | motion_analysis.py:77-96 | the velocity loop's metrics are `FrameMetrics`, its log lines are `VelocityLog`, and the kept state becomes `NextPositions` / `NextVelocities` |
| Motion.MotionAnalyzer.Analyze | motion_analysis.py:36-98 | the report is `Report` of the state kept before the call, and the kept state moves on to `NextPositions` / `NextVelocities` |
| Motion.SegmentTableNamesUnique | motion_analysis.py:40-49 | the 8 segment names are distinct |
| Motion.AngleTableNamesUnique | motion_analysis.py:60-65 | the 4 angle names are distinct |
| Motion.SegmentPass | motion_analysis.py:50-57 | the segment loop's result is a well-formed dictionary with at most one length and one log line per table entry; `SegmentPresence` and `SegmentLog` give its contents |
| Motion.SegmentPresence | motion_analysis.py:50-54 | a segment is reported if and only if both of its joints are present, and then at the norm of `b - a` |
| Motion.SegmentLog | motion_analysis.py:50-57 | the reported segments appear in table order, and the log has one segment line per reported segment, in the same order |
| Motion.PresentSegmentNamesAbsent | motion_analysis.py:50-54 | a name that no table entry carries is never reported |
| Motion.SegmentLengthsNonNegative | motion_analysis.py:52-54 | every reported length is non-negative |
| Motion.ThreeFourFiveSegment | motion_analysis.py:52-53 | a bone from (0, 0, 0) to (3, 4, 0) has length 5 |
| Motion.AnglePass | motion_analysis.py:66-74 | the angle loop's result is a well-formed dictionary with at most one angle and one log line per table entry; `AnglePresence` and `AngleLog` give its contents |
| Motion.AnglePresence | motion_analysis.py:66-71 | an angle is reported if and only if all three of its joints are present, and then as the angle between `a - vertex` and `c - vertex` |
| Motion.AngleLog | motion_analysis.py:66-74 | the reported angles appear in table order, and the log has one angle line per reported angle, in the same order |
| Motion.PresentAngleNamesAbsent | motion_analysis.py:66-71 | a name that no table entry carries is never reported |
| Motion.AnglesInRange | motion_analysis.py:70-71 | every reported angle lies in [0, 180] degrees |
| Motion.Kinematics | motion_analysis.py:78-85 | a joint's metrics carry its input position, and a joint moving at its kept velocity has zero acceleration; `NoMotionWithoutHistory` and `FiniteDifferences` give velocity and acceleration in every case |
| Motion.NoMotionWithoutHistory | motion_analysis.py:78-81 | a joint with no kept position, or a `delta_t` of at most 0, gets zero velocity and zero acceleration at its input position |
| Motion.FiniteDifferences | motion_analysis.py:81-85 | with a kept position and `delta_t > 0`: previous position plus velocity times `delta_t` is the position; previous velocity plus acceleration times `delta_t` is the velocity; acceleration is zero without a kept velocity |
| Motion.StillJointHasNoVelocity | motion_analysis.py:81-85 | a joint at its kept position has zero velocity, and zero acceleration if its kept velocity was zero |
| Motion.FrameMetrics | motion_analysis.py:90-94 | the metrics dictionary is well formed |
| Motion.MetricsCoverFrame | motion_analysis.py:77-94 | metrics are reported for exactly the input joints, in input order, each at its input position |
| Motion.NextPositions | motion_analysis.py:95 | the kept positions after a call cover the joints kept before plus the joints of the frame; `NextStateOfFrame` gives each value |
| Motion.NextVelocities | motion_analysis.py:96 | the kept velocities after a call cover the joints kept before plus the joints of the frame; `NextStateOfFrame` gives each value |
| Motion.NextStateOfFrame | motion_analysis.py:95-96 | after a call, each input joint's kept position is its input position and its kept velocity is the velocity just reported; joints absent from the input keep their state |
| Motion.VelocityLog | motion_analysis.py:86-88 | there are never more velocity lines than joints |
| Motion.VelocityLogStep | motion_analysis.py:77-88 | handling one more joint adds its velocity line exactly when it has a kept position and `delta_t > 0` |
| Motion.VelocityLogContents | motion_analysis.py:77-88 | every velocity line names an input joint with a kept position; with `delta_t > 0` every such joint has a line; with `delta_t <= 0` there are none |
| Motion.NoVelocityLinesWithoutHistory | motion_analysis.py:81-88 | joints none of which has a kept position give no velocity line |
| Motion.FirstFrameIsStill | motion_analysis.py:32-34 | on an analyzer's first frame every velocity and acceleration is zero and no velocity line is logged |
| Motion.Report | motion_analysis.py:36-98 | a report's three dictionaries are well formed, with at most 8 lengths and 4 angles and metrics in input order; `ReportLogLayout`, `MetricsCoverFrame`, `SegmentPresence` and `AnglePresence` give its contents |
| Motion.ReportLogLayout | motion_analysis.py:50-88 | the log is the segment lines in table order, then the angle lines in table order, then the velocity lines in input order; its length is the count of lengths plus angles plus velocity lines, with at most 8 and 4 of the first two |
| Motion.LogLayoutConcat | motion_analysis.py:55-88 | appending the three blocks of lines one after another yields that layout |
| Motion.Replay | motion_analysis.py:36-98 | a run over n frames gives n reports |
| Motion.ReplayKeepsStateAligned | motion_analysis.py:95-96 | an analyzer always keeps a position and a velocity for exactly the same joints |
| Motion.AccelerationFromRest | motion_analysis.py:81-85 | a joint kept at rest that has moved has acceleration times `delta_t` equal to its velocity |
| Motion.FirstMoveAcceleration | motion_analysis.py:79-96 | a joint present in an analyzer's first two frames is kept at zero velocity after the first, so on the second (with `delta_t > 0`) its acceleration times `delta_t` is its velocity |
| Motion.AnalyzeFrames | main.py:54-55 | a fresh analyzer fed frames one by one (each frame's 3D points being the skeleton stage's output, taken as given) reports `Replay` of those frames, a function of the frames alone, so two fresh analyzers fed the same frames report the same |
| Motion.TrackStep | motion_analysis.py:77-96 | handling the next joint moves the metrics, the kept positions, the kept velocities and the log on by that joint |
| Motion.TrackDone | motion_analysis.py:77-96 | once all joints are handled, the loop's results are the specified metrics, log and next state |

## Left out

- Video decoding, pose detection, the download, the GUI, drawing and report
  serialisation are not part of this model. Their only inputs to the core are
  the landmarks of a frame and the elapsed time, which are parameters here.
- The first-frame choice of `delta_t = 1 / fps` (main.py:48-51) is
  caller-supplied input. `AnalyzeFrames` takes each frame's `delta_t` as given.
- The concatenation of all reports' log lines by the report writer
  (math_report.py:22-24) is not modelled. `AnalyzeFrames` returns the
  per-frame reports.
- Floating point is modelled by reals. Rounding, numpy dtypes and broadcasting
  are not modelled.
- MathUtils.AngleBetween: its range [0, 180] is proved only for numerics
  satisfying `Sound`. `sqrt` and `arccos` are parameters, not computed.
  `degrees` is the exact `x * 180 / pi`.
- Log lines are records naming the segment, angle or joint. Their formula text
  is not modelled.
- Skeleton.SkeletonBuilder.Build: the 2D point computed at
  skeleton_builder.py:55 and 60 is never read (line 64 stores the smoothed
  point's first two coordinates), so it is not modelled.
- Skeleton.SkeletonBuilder.constructor: the builder is created with a window
  and an empty history. Starting from a caller-supplied history is not
  modelled.
- Points are 3-component vectors throughout. numpy would accept arrays of any
  length, but the builder only produces 3D points.
- Several numpy arrays are shared by reference:
  - each 2D point is a view of its 3D point (skeleton_builder.py:64-65);
  - a barely visible joint appends the very array object already at the end of
    its history (skeleton_builder.py:61 and 47);
  - each array in the frame's 3D points is both the report's `position` and
    the analyzer's kept position (main.py:54, motion_analysis.py:90-95);
  - each velocity array is both the report's and the kept velocity
    (motion_analysis.py:90-96).

  Nothing mutates these arrays afterwards, so they are modelled as values.
- Motion.MotionAnalyzer.Analyze: its three loops are three helper methods
  (`MeasureSegments`, `MeasureAngles`, `TrackJoints`). Each builds its own
  log lines, and `Analyze` concatenates them. That equals the source's
  appends to one list, but the single in-place list is not modelled.
