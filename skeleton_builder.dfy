/**
 * The temporal smoothing stage of skeleton_builder.py. For every detected
 * joint of a frame it records one point in that joint's history -- the raw
 * detection, or the joint's last recorded point when the detection is barely
 * visible -- and reports the moving average of the history's trailing window.
 * Histories are kept per joint for the builder's whole lifetime.
 */
module Skeleton {
  import opened MathUtils
  import opened Dicts

  /** A detected landmark: pixel-scale x and y, a relative depth z, and a visibility score. */
  datatype Keypoint = Keypoint(name: string, x: real, y: real, z: real, visibility: real)

  /** One frame's skeleton: the detections, and the smoothed 2D and 3D positions per joint. */
  datatype SkeletonFrame = SkeletonFrame(keypoints: Dict<Keypoint>, points2d: Dict<Vec>, points3d: Dict<Point3>)

  /** The joint pairs drawn as bones (constant data read by the renderer). */
  const SkeletonConnections: seq<(string, string)> := [
    ("head", "left_shoulder"),
    ("head", "right_shoulder"),
    ("left_shoulder", "left_elbow"),
    ("left_elbow", "left_wrist"),
    ("right_shoulder", "right_elbow"),
    ("right_elbow", "right_wrist"),
    ("left_shoulder", "left_hip"),
    ("right_shoulder", "right_hip"),
    ("left_hip", "right_hip"),
    ("left_hip", "left_knee"),
    ("left_knee", "left_ankle"),
    ("right_hip", "right_knee"),
    ("right_knee", "right_ankle")
  ]

  /** Below this visibility a detection of an already-seen joint is not trusted. */
  const VisibilityThreshold: real := 0.5

  const DefaultSmoothingWindow: int := 5

  /** Every point recorded so far, per joint, oldest first. */
  type History = map<string, seq<Point3>>

  /** A joint has a history only once something was recorded for it. */
  ghost predicate HistoryWellFormed(h: History)
  {
    forall n :: n in h ==> h[n] != []
  }

  function HistoryOf(h: History, name: string): seq<Point3>
  {
    if name in h then h[name] else []
  }

  function RawPoint(kp: Keypoint): Point3
  {
    [kp.x, kp.y, kp.z]
  }

  /**
   * The point recorded for joint `name` in this frame: the raw detection, or
   * the last recorded point when the detection's visibility is below the
   * threshold and the joint already has a history.
   */
  function RecordedPoint(h: History, name: string, kp: Keypoint): (p: Point3)
    requires HistoryWellFormed(h)
    ensures name !in h ==> p == RawPoint(kp)
    ensures p == RawPoint(kp) || (name in h && p == h[name][|h[name]| - 1])
  {
    if kp.visibility < VisibilityThreshold && name in h then h[name][|h[name]| - 1] else RawPoint(kp)
  }

  lemma PointsSameDim(hist: seq<Point3>)
    ensures SameDim(hist)
  {
  }

  /** The smoothed position of a joint: the moving average of its history. */
  function Smoothed(hist: seq<Point3>, window: int): (p: Point3)
    requires hist != []
  {
    PointsSameDim(hist);
    MovingAverage(hist, window)
  }

  /** The 2D position drawn on screen: the first two coordinates. */
  function Project(p: Point3): Vec
  {
    p[..2]
  }

  function Projected(points: Dict<Point3>): (d: Dict<Vec>)
    requires points.Valid()
    ensures d.Valid()
  {
    Dict(points.order, map n | n in points.entries :: Project(points.entries[n]))
  }

  lemma ProjectedPut(d: Dict<Point3>, k: string, p: Point3)
    requires d.Valid()
    ensures Projected(d.Put(k, p)) == Projected(d).Put(k, Project(p))
  {
    var lhs, rhs := Projected(d.Put(k, p)), Projected(d).Put(k, Project(p));
    assert lhs.order == rhs.order;
    assert forall n :: n in lhs.entries <==> n in rhs.entries;
    assert forall n :: n in lhs.entries ==> lhs.entries[n] == rhs.entries[n];
  }

  /** The history of joint `name` once this frame's detection of it is recorded. */
  function Updated(h: History, name: string, kp: Keypoint): (hist: seq<Point3>)
    requires HistoryWellFormed(h)
    ensures hist != []
  {
    HistoryOf(h, name) + [RecordedPoint(h, name, kp)]
  }

  /** All histories after a whole frame: detected joints gain one point, the others are untouched. */
  function FrameHistory(h: History, keypoints: Dict<Keypoint>): (h': History)
    requires HistoryWellFormed(h) && keypoints.Valid()
    ensures HistoryWellFormed(h')
    ensures h'.Keys == h.Keys + keypoints.entries.Keys
  {
    map n | n in h.Keys + keypoints.entries.Keys ::
      if n in keypoints.entries then Updated(h, n, keypoints.entries[n]) else h[n]
  }

  /** The smoothed 3D positions of a frame, in detection order. */
  function FramePoints(h: History, window: int, keypoints: Dict<Keypoint>): (d: Dict<Point3>)
    requires HistoryWellFormed(h) && keypoints.Valid()
    ensures d.Valid() && d.order == keypoints.order
    ensures d.entries.Keys == keypoints.entries.Keys
  {
    Dict(keypoints.order, map n | n in keypoints.entries :: Smoothed(Updated(h, n, keypoints.entries[n]), window))
  }

  /**
   * A frame reports exactly the detected joints, in detection order, in 3D and
   * in 2D, and each 2D point is the first two coordinates of the 3D one.
   */
  lemma FrameShape(h: History, window: int, keypoints: Dict<Keypoint>)
    requires HistoryWellFormed(h) && keypoints.Valid()
    ensures FramePoints(h, window, keypoints).order == keypoints.order
    ensures Projected(FramePoints(h, window, keypoints)).order == keypoints.order
    ensures forall n :: n in FramePoints(h, window, keypoints).entries <==> n in keypoints.entries
    ensures forall n :: n in Projected(FramePoints(h, window, keypoints)).entries <==> n in keypoints.entries
    ensures forall n :: n in keypoints.entries ==>
              Projected(FramePoints(h, window, keypoints)).entries[n] == FramePoints(h, window, keypoints).entries[n][..2]
  {
  }

  /**
   * Each detected joint's history grows by exactly one point and keeps what it
   * had; a joint absent from the frame keeps its history, or stays without one.
   */
  lemma HistoryGrowsByOne(h: History, keypoints: Dict<Keypoint>, n: string)
    requires HistoryWellFormed(h) && keypoints.Valid()
    ensures var h' := FrameHistory(h, keypoints);
            && HistoryWellFormed(h')
            && (n in keypoints.entries ==>
                  && n in h'
                  && |h'[n]| == |HistoryOf(h, n)| + 1
                  && h'[n][..|HistoryOf(h, n)|] == HistoryOf(h, n))
            && (n !in keypoints.entries ==> (n in h' <==> n in h) && (n in h ==> h'[n] == h[n]))
  {
    var h' := FrameHistory(h, keypoints);
    if n in keypoints.entries {
      assert h'[n][..|HistoryOf(h, n)|] == HistoryOf(h, n);
    }
  }

  /** A detection at or above the visibility threshold is recorded as detected. */
  lemma VisibleJointRecordsDetection(h: History, keypoints: Dict<Keypoint>, n: string)
    requires HistoryWellFormed(h) && keypoints.Valid()
    requires n in keypoints.entries && keypoints.entries[n].visibility >= VisibilityThreshold
    ensures var hist := FrameHistory(h, keypoints)[n];
            hist[|hist| - 1] == RawPoint(keypoints.entries[n])
  {
  }

  /**
   * A barely visible detection of a joint seen before is not trusted: the
   * joint's last recorded point is recorded again.
   */
  lemma HiddenJointRepeatsLast(h: History, keypoints: Dict<Keypoint>, n: string)
    requires HistoryWellFormed(h) && keypoints.Valid()
    requires n in keypoints.entries && n in h && keypoints.entries[n].visibility < VisibilityThreshold
    ensures FrameHistory(h, keypoints)[n] == h[n] + [h[n][|h[n]| - 1]]
  {
  }

  /**
   * The first detection of a joint is recorded and reported as detected,
   * whatever its visibility, since there is nothing to fall back on.
   */
  lemma FirstObservationIsRaw(h: History, window: int, keypoints: Dict<Keypoint>, n: string)
    requires HistoryWellFormed(h) && keypoints.Valid()
    requires n in keypoints.entries && n !in h
    ensures FrameHistory(h, keypoints)[n] == [RawPoint(keypoints.entries[n])]
    ensures FramePoints(h, window, keypoints).entries[n] == RawPoint(keypoints.entries[n])
  {
    var p := RawPoint(keypoints.entries[n]);
    assert Updated(h, n, keypoints.entries[n]) == [p];
    MovingAverageOfCopies([p], p, window);
  }

  /**
   * A reported joint sits at the mean of the trailing `max(1, window)` points of
   * its updated history, or of the whole history when it is shorter.
   */
  lemma SmoothedIsTrailingMean(h: History, window: int, keypoints: Dict<Keypoint>, n: string)
    requires HistoryWellFormed(h) && keypoints.Valid() && n in keypoints.entries
    ensures var hist := FrameHistory(h, keypoints)[n];
            var k := TrailingCount(|hist|, window);
            && SameDim(hist[|hist| - k..])
            && FramePoints(h, window, keypoints).entries[n] == Mean(hist[|hist| - k..])
  {
    var hist := FrameHistory(h, keypoints)[n];
    PointsSameDim(hist);
    MovingAverageIsTrailingMean(hist, window);
  }

  /** With a window of at most one point there is no smoothing: the recorded point is reported. */
  lemma NoSmoothingForUnitWindow(h: History, window: int, keypoints: Dict<Keypoint>, n: string)
    requires HistoryWellFormed(h) && keypoints.Valid() && n in keypoints.entries && window <= 1
    ensures FramePoints(h, window, keypoints).entries[n] == RecordedPoint(h, n, keypoints.entries[n])
  {
    var hist := Updated(h, n, keypoints.entries[n]);
    PointsSameDim(hist);
    MovingAverageSmallWindow(hist, window);
  }

  /** A joint that has stayed at `p` and is recorded at `p` again is reported at `p`. */
  lemma SteadyJointStaysPut(h: History, window: int, keypoints: Dict<Keypoint>, n: string, p: Point3)
    requires HistoryWellFormed(h) && keypoints.Valid() && n in keypoints.entries
    requires forall k :: 0 <= k < |HistoryOf(h, n)| ==> HistoryOf(h, n)[k] == p
    requires RecordedPoint(h, n, keypoints.entries[n]) == p
    ensures FramePoints(h, window, keypoints).entries[n] == p
  {
    var hist := Updated(h, n, keypoints.entries[n]);
    assert forall k :: 0 <= k < |hist| ==> hist[k] == p;
    MovingAverageOfCopies(hist, p, window);
  }

  /**
   * The histories after the first `i` detections of a frame: those joints
   * carry their updated histories, every other joint's is as before the frame.
   */
  ghost predicate HistoryProgress(h0: History, h: History, keypoints: Dict<Keypoint>, i: nat)
    requires HistoryWellFormed(h0) && keypoints.Valid() && i <= |keypoints.order|
  {
    && HistoryWellFormed(h)
    && (forall n :: n in h <==> n in h0 || n in keypoints.order[..i])
    && (forall n :: n in keypoints.order[..i] ==> h[n] == Updated(h0, n, keypoints.entries[n]))
    && (forall n :: n in h0 && n !in keypoints.order[..i] ==> h[n] == h0[n])
  }

  /** The smoothed positions after the first `i` detections of a frame. */
  ghost predicate PointsProgress(h0: History, window: int, keypoints: Dict<Keypoint>, i: nat, points: Dict<Point3>)
    requires HistoryWellFormed(h0) && keypoints.Valid() && i <= |keypoints.order|
  {
    && points.Valid()
    && points.order == keypoints.order[..i]
    && (forall n :: n in points.entries ==> points.entries[n] == Smoothed(Updated(h0, n, keypoints.entries[n]), window))
  }

  /** Recording detection `i` against the current histories keeps the histories on track. */
  lemma HistoryStep(h0: History, h: History, keypoints: Dict<Keypoint>, i: nat)
    requires HistoryWellFormed(h0) && keypoints.Valid() && i < |keypoints.order|
    requires HistoryProgress(h0, h, keypoints, i)
    ensures var name := keypoints.order[i];
            var kp := keypoints.entries[name];
            && Updated(h, name, kp) == Updated(h0, name, kp)
            && HistoryProgress(h0, h[name := Updated(h, name, kp)], keypoints, i + 1)
  {
    FreshAt(keypoints, i);
    assert keypoints.order[..i + 1] == keypoints.order[..i] + [keypoints.order[i]];
  }

  /** Reporting detection `i` at the average of its updated history keeps the positions on track. */
  lemma PointsStep(h0: History, window: int, keypoints: Dict<Keypoint>, i: nat, points: Dict<Point3>)
    requires HistoryWellFormed(h0) && keypoints.Valid() && i < |keypoints.order|
    requires PointsProgress(h0, window, keypoints, i, points)
    ensures var name := keypoints.order[i];
            PointsProgress(h0, window, keypoints, i + 1,
                           points.Put(name, Smoothed(Updated(h0, name, keypoints.entries[name]), window)))
  {
    FreshAt(keypoints, i);
    assert keypoints.order[..i + 1] == keypoints.order[..i] + [keypoints.order[i]];
  }

  lemma HistoryDone(h0: History, h: History, keypoints: Dict<Keypoint>)
    requires HistoryWellFormed(h0) && keypoints.Valid()
    requires HistoryProgress(h0, h, keypoints, |keypoints.order|)
    ensures h == FrameHistory(h0, keypoints)
  {
    assert keypoints.order[..|keypoints.order|] == keypoints.order;
  }

  lemma PointsDone(h0: History, window: int, keypoints: Dict<Keypoint>, points: Dict<Point3>)
    requires HistoryWellFormed(h0) && keypoints.Valid()
    requires PointsProgress(h0, window, keypoints, |keypoints.order|, points)
    ensures points == FramePoints(h0, window, keypoints)
  {
    assert keypoints.order[..|keypoints.order|] == keypoints.order;
  }

  class SkeletonBuilder {
    var smoothingWindow: int
    var history: History

    ghost predicate Valid()
      reads this
    {
      HistoryWellFormed(history)
    }

    constructor(smoothingWindow: int)
      ensures Valid()
      ensures this.smoothingWindow == smoothingWindow && history == map[]
    {
      this.smoothingWindow := smoothingWindow;
      history := map[];
    }

    /** The builder the pipeline creates: the default window of 5 frames and no history. */
    constructor Default()
      ensures Valid()
      ensures smoothingWindow == DefaultSmoothingWindow && history == map[]
    {
      smoothingWindow := DefaultSmoothingWindow;
      history := map[];
    }

    /** Appends `point` to the joint's history and returns the history's moving average. */
    method SmoothPoint(name: string, point: Point3) returns (smoothed: Point3)
      requires Valid()
      modifies this`history
      ensures Valid()
      ensures history == old(history)[name := HistoryOf(old(history), name) + [point]]
      ensures smoothed == Smoothed(history[name], smoothingWindow)
    {
      history := history[name := HistoryOf(history, name) + [point]];
      smoothed := Smoothed(history[name], smoothingWindow);
    }

    /** Smooths every detected joint of one frame, in detection order. */
    method Build(keypoints: Dict<Keypoint>) returns (frame: SkeletonFrame)
      requires Valid() && keypoints.Valid()
      modifies this`history
      ensures Valid()
      ensures history == FrameHistory(old(history), keypoints)
      ensures frame.points3d == FramePoints(old(history), smoothingWindow, keypoints)
      ensures frame.keypoints == keypoints
      ensures frame.points2d == Projected(frame.points3d)
    {
      var points2d := Empty<Vec>();
      var points3d := Empty<Point3>();
      var i := 0;
      while i < |keypoints.order|
        invariant 0 <= i <= |keypoints.order|
        invariant HistoryProgress(old(history), history, keypoints, i)
        invariant PointsProgress(old(history), smoothingWindow, keypoints, i, points3d)
        invariant points2d == Projected(points3d)
      {
        var name := keypoints.order[i];
        var kp := keypoints.entries[name];
        var point3d: Point3 := [kp.x, kp.y, kp.z];
        if kp.visibility < VisibilityThreshold && name in history {
          point3d := history[name][|history[name]| - 1];
        }
        HistoryStep(old(history), history, keypoints, i);
        PointsStep(old(history), smoothingWindow, keypoints, i, points3d);
        assert point3d == RecordedPoint(history, name, kp);
        var smoothed := SmoothPoint(name, point3d);
        ProjectedPut(points3d, name, smoothed);
        points2d := points2d.Put(name, smoothed[..2]);
        points3d := points3d.Put(name, smoothed);
        i := i + 1;
      }
      HistoryDone(old(history), history, keypoints);
      PointsDone(old(history), smoothingWindow, keypoints, points3d);
      frame := SkeletonFrame(keypoints, points2d, points3d);
    }
  }
}
