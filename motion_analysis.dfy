/**
 * The kinematic analyzer of motion_analysis.py. Each call takes one frame of
 * smoothed 3D joint positions and reports bone (segment) lengths, the joint
 * angles at elbows and knees, and per-joint velocity and acceleration by
 * finite differences against the positions and velocities it kept from the
 * previous call. Every computation is also logged, as a structured record.
 */
module Motion {
  import opened MathUtils
  import opened Dicts

  /** Position, velocity and acceleration of one joint in one frame. */
  datatype JointMetrics = JointMetrics(position: Point3, velocity: Point3, acceleration: Point3)

  /** One line of the computation log; the printed formula text is not modelled. */
  datatype MathOperation =
    | SegmentOp(segment: string)
    | AngleOp(angle: string)
    | VelocityOp(joint: string)

  /** Everything one call of the analyzer reports. */
  datatype MotionReport = MotionReport(
    anglesDeg: Dict<real>,
    segmentLengths: Dict<real>,
    jointMetrics: Dict<JointMetrics>,
    mathOperations: seq<MathOperation>)

  /** A bone: its length is the distance from joint `a` to joint `b`. */
  datatype Segment = Segment(name: string, a: string, b: string)

  /** A joint angle: the angle at `vertex` between the directions to `a` and to `c`. */
  datatype AngleTriple = AngleTriple(name: string, a: string, vertex: string, c: string)

  const Segments: seq<Segment> := [
    Segment("left_upper_arm", "left_shoulder", "left_elbow"),
    Segment("left_lower_arm", "left_elbow", "left_wrist"),
    Segment("right_upper_arm", "right_shoulder", "right_elbow"),
    Segment("right_lower_arm", "right_elbow", "right_wrist"),
    Segment("left_upper_leg", "left_hip", "left_knee"),
    Segment("left_lower_leg", "left_knee", "left_ankle"),
    Segment("right_upper_leg", "right_hip", "right_knee"),
    Segment("right_lower_leg", "right_knee", "right_ankle")
  ]

  const AngleTriples: seq<AngleTriple> := [
    AngleTriple("left_elbow", "left_shoulder", "left_elbow", "left_wrist"),
    AngleTriple("right_elbow", "right_shoulder", "right_elbow", "right_wrist"),
    AngleTriple("left_knee", "left_hip", "left_knee", "left_ankle"),
    AngleTriple("right_knee", "right_hip", "right_knee", "right_ankle")
  ]

  type Points = Dict<Point3>

  // ---------------------------------------------------------------------------
  // Segment lengths

  predicate SegmentPresent(points: Points, s: Segment)
  {
    s.a in points.entries && s.b in points.entries
  }

  function SegmentLength(num: Numerics, points: Points, s: Segment): real
    requires SegmentPresent(points, s)
  {
    Norm(num, Sub(points.entries[s.b], points.entries[s.a]))
  }

  /** No two segments of the table share a name (a Python dict literal has distinct keys). */
  ghost predicate UniqueSegmentNames(table: seq<Segment>)
  {
    forall j, k :: 0 <= j < k < |table| ==> table[j].name != table[k].name
  }

  /** The names of the segments whose two joints are both present, in table order. */
  function PresentSegmentNames(points: Points, table: seq<Segment>): (names: seq<string>)
    ensures |names| <= |table|
    decreases |table|
  {
    if table == [] then []
    else
      var s := table[|table| - 1];
      PresentSegmentNames(points, table[..|table| - 1]) + if SegmentPresent(points, s) then [s.name] else []
  }

  /** The values a table loop has reported so far, and the log lines it has appended. */
  datatype Pass = Pass(values: Dict<real>, log: seq<MathOperation>)

  /** The segment lengths and log lines after the segment loop has run over `table`. */
  function SegmentPass(num: Numerics, points: Points, table: seq<Segment>): (r: Pass)
    ensures r.values.Valid()
    ensures |r.values.order| <= |table| && |r.log| <= |table|
    decreases |table|
  {
    if table == [] then Pass(Empty(), [])
    else
      var prev := SegmentPass(num, points, table[..|table| - 1]);
      var s := table[|table| - 1];
      if SegmentPresent(points, s) then Pass(prev.values.Put(s.name, SegmentLength(num, points, s)), prev.log + [SegmentOp(s.name)])
      else prev
  }

  /**
   * A segment is reported exactly when both of its joints are present, at the
   * distance between them.
   */
  lemma {:induction false} SegmentPresence(num: Numerics, points: Points, table: seq<Segment>)
    requires UniqueSegmentNames(table)
    ensures forall j :: 0 <= j < |table| ==>
                  && (table[j].name in SegmentPass(num, points, table).values.entries <==> SegmentPresent(points, table[j]))
                  && (SegmentPresent(points, table[j]) ==>
                        SegmentPass(num, points, table).values.entries[table[j].name] == SegmentLength(num, points, table[j]))
    decreases |table|
  {
    if table != [] {
      var init := table[..|table| - 1];
      SegmentPresence(num, points, init);
      var last := |table| - 1;
      forall j | 0 <= j < last ensures table[j] == init[j] && table[j].name != table[last].name {
      }
      SegmentLog(num, points, init);
      PresentSegmentNamesAbsent(points, init, table[last].name);
    }
  }

  /** A name that no entry of the table carries is never listed. */
  lemma {:induction false} PresentSegmentNamesAbsent(points: Points, table: seq<Segment>, name: string)
    requires forall j :: 0 <= j < |table| ==> table[j].name != name
    ensures name !in PresentSegmentNames(points, table)
    decreases |table|
  {
    if table != [] {
      PresentSegmentNamesAbsent(points, table[..|table| - 1], name);
    }
  }

  /**
   * The reported segments are listed in table order, and the log holds one
   * segment line per reported segment, in the same order.
   */
  lemma {:induction false} SegmentLog(num: Numerics, points: Points, table: seq<Segment>)
    requires UniqueSegmentNames(table)
    ensures && SegmentPass(num, points, table).values.order == PresentSegmentNames(points, table)
            && |SegmentPass(num, points, table).log| == |SegmentPass(num, points, table).values.order|
            && (forall k :: 0 <= k < |SegmentPass(num, points, table).log| ==> SegmentPass(num, points, table).log[k] == SegmentOp(SegmentPass(num, points, table).values.order[k]))
    decreases |table|
  {
    if table != [] {
      var init := table[..|table| - 1];
      SegmentLog(num, points, init);
      var last := |table| - 1;
      forall j | 0 <= j < last ensures init[j].name != table[last].name {
        assert init[j] == table[j];
      }
      PresentSegmentNamesAbsent(points, init, table[last].name);
      var prev, s := SegmentPass(num, points, init), table[last];
      if SegmentPresent(points, s) {
        assert s.name !in prev.values.entries;
        assert SegmentPass(num, points, table).log == prev.log + [SegmentOp(s.name)];
        assert SegmentPass(num, points, table).values.order == prev.values.order + [s.name];
      } else {
        assert SegmentPass(num, points, table) == prev;
      }
    }
  }

  /** Segment lengths are distances, never negative. */
  lemma {:induction false} SegmentLengthsNonNegative(num: Numerics, points: Points, table: seq<Segment>)
    requires Sound(num)
    ensures forall n :: n in SegmentPass(num, points, table).values.entries ==> SegmentPass(num, points, table).values.entries[n] >= 0.0
    decreases |table|
  {
    if table != [] {
      SegmentLengthsNonNegative(num, points, table[..|table| - 1]);
      var s := table[|table| - 1];
      if SegmentPresent(points, s) {
        var d := Sub(points.entries[s.b], points.entries[s.a]);
        NormNonNegative(num, d);
        assert SegmentLength(num, points, s) >= 0.0;
      }
    }
  }

  /** A bone from (0, 0, 0) to (3, 4, 0) is 5 long. */
  lemma ThreeFourFiveSegment(num: Numerics, points: Points, s: Segment)
    requires Sound(num)
    requires SegmentPresent(points, s)
    requires points.entries[s.a] == [0.0, 0.0, 0.0] && points.entries[s.b] == [3.0, 4.0, 0.0]
    ensures SegmentLength(num, points, s) == 5.0
  {
    var d := Sub(points.entries[s.b], points.entries[s.a]);
    assert d == [3.0, 4.0, 0.0];
    assert Dot(d[3..], d[3..]) == 0.0;
    assert Dot(d[2..], d[2..]) == 0.0;
    assert Dot(d[1..], d[1..]) == 16.0;
    assert Dot(d, d) == 25.0 == Square(5.0);
  }

  // ---------------------------------------------------------------------------
  // Joint angles

  predicate AnglePresent(points: Points, t: AngleTriple)
  {
    t.a in points.entries && t.vertex in points.entries && t.c in points.entries
  }

  /** The angle at the vertex, in degrees, between the vectors towards `a` and towards `c`. */
  function JointAngle(num: Numerics, points: Points, t: AngleTriple): real
    requires AnglePresent(points, t)
  {
    var vertex := points.entries[t.vertex];
    AngleBetween(num, Sub(points.entries[t.a], vertex), Sub(points.entries[t.c], vertex))
  }

  ghost predicate UniqueAngleNames(table: seq<AngleTriple>)
  {
    forall j, k :: 0 <= j < k < |table| ==> table[j].name != table[k].name
  }

  /** The names of the angles whose three joints are all present, in table order. */
  function PresentAngleNames(points: Points, table: seq<AngleTriple>): (names: seq<string>)
    ensures |names| <= |table|
    decreases |table|
  {
    if table == [] then []
    else
      var t := table[|table| - 1];
      PresentAngleNames(points, table[..|table| - 1]) + if AnglePresent(points, t) then [t.name] else []
  }

  /** The joint angles and log lines after the angle loop has run over `table`. */
  function AnglePass(num: Numerics, points: Points, table: seq<AngleTriple>): (r: Pass)
    ensures r.values.Valid()
    ensures |r.values.order| <= |table| && |r.log| <= |table|
    decreases |table|
  {
    if table == [] then Pass(Empty(), [])
    else
      var prev := AnglePass(num, points, table[..|table| - 1]);
      var t := table[|table| - 1];
      if AnglePresent(points, t) then Pass(prev.values.Put(t.name, JointAngle(num, points, t)), prev.log + [AngleOp(t.name)])
      else prev
  }

  /**
   * An angle is reported exactly when its three joints are present, as the
   * angle between `a - vertex` and `c - vertex`.
   */
  lemma {:induction false} AnglePresence(num: Numerics, points: Points, table: seq<AngleTriple>)
    requires UniqueAngleNames(table)
    ensures forall j :: 0 <= j < |table| ==>
                  && (table[j].name in AnglePass(num, points, table).values.entries <==> AnglePresent(points, table[j]))
                  && (AnglePresent(points, table[j]) ==>
                        AnglePass(num, points, table).values.entries[table[j].name] == JointAngle(num, points, table[j]))
    decreases |table|
  {
    if table != [] {
      var init := table[..|table| - 1];
      AnglePresence(num, points, init);
      var last := |table| - 1;
      forall j | 0 <= j < last ensures table[j] == init[j] && table[j].name != table[last].name {
      }
      AngleLog(num, points, init);
      PresentAngleNamesAbsent(points, init, table[last].name);
    }
  }

  /** A name that no entry of the table carries is never listed. */
  lemma {:induction false} PresentAngleNamesAbsent(points: Points, table: seq<AngleTriple>, name: string)
    requires forall j :: 0 <= j < |table| ==> table[j].name != name
    ensures name !in PresentAngleNames(points, table)
    decreases |table|
  {
    if table != [] {
      PresentAngleNamesAbsent(points, table[..|table| - 1], name);
    }
  }

  /** The reported angles are listed in table order, with one angle line each in the log. */
  lemma {:induction false} AngleLog(num: Numerics, points: Points, table: seq<AngleTriple>)
    requires UniqueAngleNames(table)
    ensures && AnglePass(num, points, table).values.order == PresentAngleNames(points, table)
            && |AnglePass(num, points, table).log| == |AnglePass(num, points, table).values.order|
            && (forall k :: 0 <= k < |AnglePass(num, points, table).log| ==> AnglePass(num, points, table).log[k] == AngleOp(AnglePass(num, points, table).values.order[k]))
    decreases |table|
  {
    if table != [] {
      var init := table[..|table| - 1];
      AngleLog(num, points, init);
      var last := |table| - 1;
      forall j | 0 <= j < last ensures init[j].name != table[last].name {
        assert init[j] == table[j];
      }
      PresentAngleNamesAbsent(points, init, table[last].name);
      var prev, t := AnglePass(num, points, init), table[last];
      if AnglePresent(points, t) {
        assert t.name !in prev.values.entries;
        assert AnglePass(num, points, table).log == prev.log + [AngleOp(t.name)];
        assert AnglePass(num, points, table).values.order == prev.values.order + [t.name];
      } else {
        assert AnglePass(num, points, table) == prev;
      }
    }
  }

  /** Every reported angle lies between 0 and 180 degrees. */
  lemma {:induction false} AnglesInRange(num: Numerics, points: Points, table: seq<AngleTriple>)
    requires Sound(num)
    ensures forall n :: n in AnglePass(num, points, table).values.entries ==> 0.0 <= AnglePass(num, points, table).values.entries[n] <= 180.0
    decreases |table|
  {
    if table != [] {
      AnglesInRange(num, points, table[..|table| - 1]);
      var t := table[|table| - 1];
      if AnglePresent(points, t) {
        assert 0.0 <= JointAngle(num, points, t) <= 180.0;
      }
    }
  }

  // ---------------------------------------------------------------------------
  // Velocity and acceleration

  /**
   * A joint's metrics from its position and the state kept from the previous
   * call: zero velocity and acceleration unless the joint was seen before and
   * time advanced; then velocity is the displacement over `dt`, and
   * acceleration the change of velocity over `dt` when a previous velocity is kept.
   */
  function Kinematics(prevPos: map<string, Point3>, prevVel: map<string, Point3>, name: string, position: Point3, dt: real): (m: JointMetrics)
    ensures m.position == position
    ensures name in prevPos && dt > 0.0 && name in prevVel && prevVel[name] == m.velocity ==> m.acceleration == [0.0, 0.0, 0.0]
  {
    if name in prevPos && dt > 0.0 then
      var velocity := Div(Sub(position, prevPos[name]), dt);
      var acceleration := if name in prevVel then Div(Sub(velocity, prevVel[name]), dt) else Zero(3);
      JointMetrics(position, velocity, acceleration)
    else
      JointMetrics(position, Zero(3), Zero(3))
  }

  /** A joint seen for the first time, or a frame that does not advance time, has no motion. */
  lemma NoMotionWithoutHistory(prevPos: map<string, Point3>, prevVel: map<string, Point3>, name: string, position: Point3, dt: real)
    requires name !in prevPos || dt <= 0.0
    ensures var m := Kinematics(prevPos, prevVel, name, position, dt);
            m.position == position && m.velocity == [0.0, 0.0, 0.0] && m.acceleration == [0.0, 0.0, 0.0]
  {
  }

  /**
   * Finite differences: over `dt` the joint moves by velocity times `dt`, and
   * its velocity changes by acceleration times `dt` (from rest when no
   * previous velocity is kept, which leaves the acceleration zero).
   */
  lemma FiniteDifferences(prevPos: map<string, Point3>, prevVel: map<string, Point3>, name: string, position: Point3, dt: real)
    requires name in prevPos && dt > 0.0
    ensures var m := Kinematics(prevPos, prevVel, name, position, dt);
            && m.position == position
            && (forall c :: 0 <= c < 3 ==> prevPos[name][c] + m.velocity[c] * dt == position[c])
            && (name in prevVel ==> forall c :: 0 <= c < 3 ==> prevVel[name][c] + m.acceleration[c] * dt == m.velocity[c])
            && (name !in prevVel ==> m.acceleration == [0.0, 0.0, 0.0])
  {
    var m := Kinematics(prevPos, prevVel, name, position, dt);
  }

  /** A joint that keeps its position has zero velocity, and then zero acceleration unless it was moving. */
  lemma StillJointHasNoVelocity(prevPos: map<string, Point3>, prevVel: map<string, Point3>, name: string, dt: real)
    requires name in prevPos && dt > 0.0
    ensures var m := Kinematics(prevPos, prevVel, name, prevPos[name], dt);
            && m.velocity == [0.0, 0.0, 0.0]
            && (name in prevVel && prevVel[name] == [0.0, 0.0, 0.0] ==> m.acceleration == [0.0, 0.0, 0.0])
  {
  }

  /** The metrics of every joint of the frame, in the frame's order. */
  function FrameMetrics(prevPos: map<string, Point3>, prevVel: map<string, Point3>, points: Points, dt: real): (d: Dict<JointMetrics>)
    requires points.Valid()
    ensures d.Valid()
  {
    Dict(points.order, map n | n in points.entries :: Kinematics(prevPos, prevVel, n, points.entries[n], dt))
  }

  /** The positions kept for the next call: this frame's joints at their new position, the others as they were. */
  function NextPositions(prevPos: map<string, Point3>, points: Points): (pos: map<string, Point3>)
    ensures pos.Keys == prevPos.Keys + points.entries.Keys
  {
    map n | n in prevPos.Keys + points.entries.Keys :: if n in points.entries then points.entries[n] else prevPos[n]
  }

  /** The velocities kept for the next call: this frame's joints at their new velocity, the others as they were. */
  function NextVelocities(prevPos: map<string, Point3>, prevVel: map<string, Point3>, points: Points, dt: real): (vel: map<string, Point3>)
    ensures vel.Keys == prevVel.Keys + points.entries.Keys
  {
    map n | n in prevVel.Keys + points.entries.Keys ::
      if n in points.entries then Kinematics(prevPos, prevVel, n, points.entries[n], dt).velocity else prevVel[n]
  }

  /** One velocity line per joint of `names` that was seen before, provided time advanced. */
  function VelocityLog(prevPos: map<string, Point3>, dt: real, names: seq<string>): (log: seq<MathOperation>)
    ensures |log| <= |names|
    decreases |names|
  {
    if names == [] then []
    else
      var name := names[|names| - 1];
      VelocityLog(prevPos, dt, names[..|names| - 1]) + if name in prevPos && dt > 0.0 then [VelocityOp(name)] else []
  }

  /** Going through one more joint adds its velocity line, if any. */
  lemma VelocityLogStep(prevPos: map<string, Point3>, dt: real, names: seq<string>, i: nat)
    requires i < |names|
    ensures VelocityLog(prevPos, dt, names[..i + 1])
         == VelocityLog(prevPos, dt, names[..i]) + if names[i] in prevPos && dt > 0.0 then [VelocityOp(names[i])] else []
  {
    assert names[..i + 1][..i] == names[..i];
  }

  /** The velocity lines name exactly the joints of `names` with a kept position, provided time advanced. */
  lemma {:induction false} VelocityLogContents(prevPos: map<string, Point3>, dt: real, names: seq<string>)
    ensures && (forall k :: 0 <= k < |VelocityLog(prevPos, dt, names)| ==> VelocityLog(prevPos, dt, names)[k].VelocityOp? && VelocityLog(prevPos, dt, names)[k].joint in prevPos && VelocityLog(prevPos, dt, names)[k].joint in names)
            && (dt > 0.0 ==> forall n :: n in names && n in prevPos ==> VelocityOp(n) in VelocityLog(prevPos, dt, names))
            && (dt <= 0.0 ==> VelocityLog(prevPos, dt, names) == [])
    decreases |names|
  {
    if names != [] {
      var init := names[..|names| - 1];
      VelocityLogContents(prevPos, dt, init);
      assert names == init + [names[|names| - 1]];
    }
  }

  /** The whole report of one call, from the state kept by the previous call. */
  function Report(num: Numerics, prevPos: map<string, Point3>, prevVel: map<string, Point3>, points: Points, dt: real): (r: MotionReport)
    requires points.Valid()
    ensures r.anglesDeg.Valid() && r.segmentLengths.Valid() && r.jointMetrics.Valid()
    ensures |r.segmentLengths.order| <= |Segments| && |r.anglesDeg.order| <= |AngleTriples|
    ensures r.jointMetrics.order == points.order
  {
    var segments := SegmentPass(num, points, Segments);
    var angles := AnglePass(num, points, AngleTriples);
    MotionReport(
      angles.values,
      segments.values,
      FrameMetrics(prevPos, prevVel, points, dt),
      segments.log + angles.log + VelocityLog(prevPos, dt, points.order))
  }

  lemma SegmentTableNamesUnique()
    ensures UniqueSegmentNames(Segments)
  {
  }

  lemma AngleTableNamesUnique()
    ensures UniqueAngleNames(AngleTriples)
  {
  }

  /** Segment lines, then angle lines, then the velocity tail, each block in its dictionary's order. */
  ghost predicate LogLayout(log: seq<MathOperation>, segments: Dict<real>, angles: Dict<real>, tail: seq<MathOperation>)
  {
    var s, a := |segments.order|, |angles.order|;
    && |log| == s + a + |tail|
    && (forall k :: 0 <= k < s ==> log[k] == SegmentOp(segments.order[k]))
    && (forall k :: 0 <= k < a ==> log[s + k] == AngleOp(angles.order[k]))
    && log[s + a..] == tail
  }

  lemma LogLayoutConcat(segments: Pass, angles: Pass, tail: seq<MathOperation>)
    requires |segments.log| == |segments.values.order|
    requires forall k :: 0 <= k < |segments.log| ==> segments.log[k] == SegmentOp(segments.values.order[k])
    requires |angles.log| == |angles.values.order|
    requires forall k :: 0 <= k < |angles.log| ==> angles.log[k] == AngleOp(angles.values.order[k])
    ensures LogLayout(segments.log + angles.log + tail, segments.values, angles.values, tail)
  {
    var log := segments.log + angles.log + tail;
    var s := |segments.log|;
    forall k | 0 <= k < |angles.log| ensures log[s + k] == AngleOp(angles.values.order[k]) {
      assert log[s + k] == angles.log[k];
    }
    assert log[s + |angles.log|..] == tail;
  }

  /**
   * The log lists the reported segments, then the reported angles, then the
   * joints given a velocity line, each block in the order of its dictionary;
   * at most one line per table entry is logged before the velocity lines.
   */
  lemma ReportLogLayout(num: Numerics, prevPos: map<string, Point3>, prevVel: map<string, Point3>, points: Points, dt: real)
    requires points.Valid()
    ensures LogLayout(Report(num, prevPos, prevVel, points, dt).mathOperations,
                      Report(num, prevPos, prevVel, points, dt).segmentLengths,
                      Report(num, prevPos, prevVel, points, dt).anglesDeg,
                      VelocityLog(prevPos, dt, points.order))
    ensures |Report(num, prevPos, prevVel, points, dt).segmentLengths.order| <= |Segments|
    ensures |Report(num, prevPos, prevVel, points, dt).anglesDeg.order| <= |AngleTriples|
  {
    var segments, angles := SegmentPass(num, points, Segments), AnglePass(num, points, AngleTriples);
    SegmentTableNamesUnique();
    AngleTableNamesUnique();
    SegmentLog(num, points, Segments);
    AngleLog(num, points, AngleTriples);
    LogLayoutConcat(segments, angles, VelocityLog(prevPos, dt, points.order));
  }

  /** Every joint of the frame, and only those, gets metrics, each at its input position. */
  lemma MetricsCoverFrame(prevPos: map<string, Point3>, prevVel: map<string, Point3>, points: Points, dt: real)
    requires points.Valid()
    ensures && FrameMetrics(prevPos, prevVel, points, dt).order == points.order
            && (forall n :: n in FrameMetrics(prevPos, prevVel, points, dt).entries <==> n in points.entries)
            && (forall n :: n in FrameMetrics(prevPos, prevVel, points, dt).entries ==> FrameMetrics(prevPos, prevVel, points, dt).entries[n].position == points.entries[n])
  {
  }

  /**
   * The state kept for the next call: each joint of the frame at its current
   * position and velocity (zero when no motion was measured); joints absent
   * from the frame keep what they had.
   */
  lemma NextStateOfFrame(prevPos: map<string, Point3>, prevVel: map<string, Point3>, points: Points, dt: real, n: string)
    requires points.Valid()
    ensures var pos, vel := NextPositions(prevPos, points), NextVelocities(prevPos, prevVel, points, dt);
            && (n in points.entries ==>
                  && n in pos && pos[n] == points.entries[n]
                  && n in vel && vel[n] == FrameMetrics(prevPos, prevVel, points, dt).entries[n].velocity)
            && (n !in points.entries ==>
                  && (n in pos <==> n in prevPos) && (n in prevPos ==> pos[n] == prevPos[n])
                  && (n in vel <==> n in prevVel) && (n in prevVel ==> vel[n] == prevVel[n]))
  {
  }

  /**
   * On the first frame an analyzer sees, no joint moves: every velocity and
   * acceleration is zero and the log has no velocity line.
   */
  lemma FirstFrameIsStill(points: Points, dt: real)
    requires points.Valid()
    ensures forall n :: n in points.entries ==>
              && FrameMetrics(map[], map[], points, dt).entries[n].velocity == [0.0, 0.0, 0.0]
              && FrameMetrics(map[], map[], points, dt).entries[n].acceleration == [0.0, 0.0, 0.0]
    ensures VelocityLog(map[], dt, points.order) == []
  {
    NoVelocityLinesWithoutHistory(map[], dt, points.order);
  }

  /** Joints none of which was seen before give no velocity line. */
  lemma {:induction false} NoVelocityLinesWithoutHistory(prevPos: map<string, Point3>, dt: real, names: seq<string>)
    requires forall k :: 0 <= k < |names| ==> names[k] !in prevPos
    ensures VelocityLog(prevPos, dt, names) == []
    decreases |names|
  {
    if names != [] {
      NoVelocityLinesWithoutHistory(prevPos, dt, names[..|names| - 1]);
    }
  }

  /** One frame handed to the analyzer: smoothed 3D joint positions and the time since the previous frame. */
  datatype Frame = Frame(points3d: Points, deltaT: real)

  /** The reports of a run over several frames, and the state kept at its end. */
  datatype Run = Run(reports: seq<MotionReport>, positions: map<string, Point3>, velocities: map<string, Point3>)

  ghost predicate ValidFrames(frames: seq<Frame>)
  {
    forall i :: 0 <= i < |frames| ==> frames[i].points3d.Valid()
  }

  /** A fresh analyzer fed `frames` in order: one report per frame, each from the state the frames before it left. */
  function Replay(num: Numerics, frames: seq<Frame>): (r: Run)
    requires ValidFrames(frames)
    ensures |r.reports| == |frames|
    decreases |frames|
  {
    if frames == [] then Run([], map[], map[])
    else
      var prev := Replay(num, frames[..|frames| - 1]);
      var f := frames[|frames| - 1];
      Run(prev.reports + [Report(num, prev.positions, prev.velocities, f.points3d, f.deltaT)],
          NextPositions(prev.positions, f.points3d),
          NextVelocities(prev.positions, prev.velocities, f.points3d, f.deltaT))
  }

  /**
   * The analyzer keeps a position and a velocity for the same joints: every
   * call stores both for each joint of its frame.
   */
  lemma {:induction false} ReplayKeepsStateAligned(num: Numerics, frames: seq<Frame>)
    requires ValidFrames(frames)
    ensures Replay(num, frames).positions.Keys == Replay(num, frames).velocities.Keys
    decreases |frames|
  {
    if frames != [] {
      ReplayKeepsStateAligned(num, frames[..|frames| - 1]);
    }
  }

  /** Acceleration times `dt` equals velocity: the velocity was all gained from rest within `dt`. */
  predicate GainedFromRest(m: JointMetrics, dt: real)
  {
    forall c :: 0 <= c < 3 ==> m.acceleration[c] * dt == m.velocity[c]
  }

  /** A joint kept at rest that has moved: its acceleration is its velocity over `dt`. */
  lemma AccelerationFromRest(prevPos: map<string, Point3>, prevVel: map<string, Point3>, name: string, position: Point3, dt: real)
    requires name in prevPos && name in prevVel && prevVel[name] == [0.0, 0.0, 0.0] && dt > 0.0
    ensures GainedFromRest(Kinematics(prevPos, prevVel, name, position, dt), dt)
  {
  }

  /**
   * A joint present in an analyzer's first two frames is kept at rest after
   * the first, so on the second (when time advances) its acceleration is its
   * whole velocity over `dt`.
   */
  lemma FirstMoveAcceleration(p1: Points, dt1: real, p2: Points, dt2: real, n: string)
    requires p1.Valid() && p2.Valid()
    requires n in p1.entries && n in p2.entries && dt2 > 0.0
    ensures GainedFromRest(FrameMetrics(NextPositions(map[], p1), NextVelocities(map[], map[], p1, dt1), p2, dt2).entries[n], dt2)
  {
    var none: map<string, Point3> := map[];
    var pos, vel := NextPositions(none, p1), NextVelocities(none, none, p1, dt1);
    assert n in pos;
    assert vel[n] == Kinematics(none, none, n, p1.entries[n], dt1).velocity;
    NoMotionWithoutHistory(none, none, n, p1.entries[n], dt1);
    AccelerationFromRest(pos, vel, n, p2.entries[n], dt2);
    assert FrameMetrics(pos, vel, p2, dt2).entries[n] == Kinematics(pos, vel, n, p2.entries[n], dt2);
  }

  // ---------------------------------------------------------------------------
  // The analyzer


  /**
   * How far the metrics loop has got after the first `i` joints of the frame:
   * their metrics are in, and the kept state holds their new position and
   * velocity while every other joint's state is as before the call.
   */
  ghost predicate MetricsProgress(pos0: map<string, Point3>, vel0: map<string, Point3>, points: Points, dt: real, i: nat, metrics: Dict<JointMetrics>)
    requires points.Valid() && i <= |points.order|
  {
    && metrics.Valid()
    && metrics.order == points.order[..i]
    && (forall n :: n in metrics.entries ==> metrics.entries[n] == Kinematics(pos0, vel0, n, points.entries[n], dt))
  }

  ghost predicate PositionProgress(pos0: map<string, Point3>, points: Points, i: nat, pos: map<string, Point3>)
    requires points.Valid() && i <= |points.order|
  {
    && (forall n :: n in pos <==> n in pos0 || n in points.order[..i])
    && (forall n :: n in points.order[..i] ==> pos[n] == points.entries[n])
    && (forall n :: n in pos0 && n !in points.order[..i] ==> pos[n] == pos0[n])
  }

  ghost predicate VelocityProgress(pos0: map<string, Point3>, vel0: map<string, Point3>, points: Points, dt: real, i: nat,
                                   vel: map<string, Point3>)
    requires points.Valid() && i <= |points.order|
  {
    && (forall n :: n in vel <==> n in vel0 || n in points.order[..i])
    && (forall n :: n in points.order[..i] ==> vel[n] == Kinematics(pos0, vel0, n, points.entries[n], dt).velocity)
    && (forall n :: n in vel0 && n !in points.order[..i] ==> vel[n] == vel0[n])
  }

  lemma ProgressStart(pos0: map<string, Point3>, vel0: map<string, Point3>, points: Points, dt: real)
    requires points.Valid()
    ensures MetricsProgress(pos0, vel0, points, dt, 0, Empty())
    ensures PositionProgress(pos0, points, 0, pos0)
    ensures VelocityProgress(pos0, vel0, points, dt, 0, vel0)
  {
  }

  /** Joint `i` is still untouched, so its metrics read the same from the current state as from the initial one. */
  lemma UntouchedJoint(pos0: map<string, Point3>, vel0: map<string, Point3>, points: Points, dt: real, i: nat,
                       pos: map<string, Point3>, vel: map<string, Point3>, name: string)
    requires points.Valid() && i < |points.order| && name == points.order[i]
    requires PositionProgress(pos0, points, i, pos) && VelocityProgress(pos0, vel0, points, dt, i, vel)
    ensures name in pos <==> name in pos0
    ensures Kinematics(pos, vel, name, points.entries[name], dt) == Kinematics(pos0, vel0, name, points.entries[name], dt)
  {
    FreshAt(points, i);
  }

  lemma PositionStep(pos0: map<string, Point3>, points: Points, i: nat, pos: map<string, Point3>, name: string)
    requires points.Valid() && i < |points.order| && name == points.order[i]
    requires PositionProgress(pos0, points, i, pos)
    ensures PositionProgress(pos0, points, i + 1, pos[name := points.entries[name]])
  {
    FreshAt(points, i);
    assert points.order[..i + 1] == points.order[..i] + [points.order[i]];
  }

  lemma VelocityStep(pos0: map<string, Point3>, vel0: map<string, Point3>, points: Points, dt: real, i: nat,
                     vel: map<string, Point3>, name: string)
    requires points.Valid() && i < |points.order| && name == points.order[i]
    requires VelocityProgress(pos0, vel0, points, dt, i, vel)
    ensures VelocityProgress(pos0, vel0, points, dt, i + 1, vel[name := Kinematics(pos0, vel0, name, points.entries[name], dt).velocity])
  {
    FreshAt(points, i);
    assert points.order[..i + 1] == points.order[..i] + [points.order[i]];
  }

  lemma MetricsStep(pos0: map<string, Point3>, vel0: map<string, Point3>, points: Points, dt: real, i: nat,
                    metrics: Dict<JointMetrics>, name: string)
    requires points.Valid() && i < |points.order| && name == points.order[i]
    requires MetricsProgress(pos0, vel0, points, dt, i, metrics)
    ensures MetricsProgress(pos0, vel0, points, dt, i + 1, metrics.Put(name, Kinematics(pos0, vel0, name, points.entries[name], dt)))
  {
    FreshAt(points, i);
    assert points.order[..i + 1] == points.order[..i] + [points.order[i]];
  }

  /** Handling joint `i` moves all four loop facts on by one joint. */
  lemma TrackStep(pos0: map<string, Point3>, vel0: map<string, Point3>, points: Points, dt: real, i: nat,
                  metrics: Dict<JointMetrics>, pos: map<string, Point3>, vel: map<string, Point3>, log: seq<MathOperation>, name: string)
    requires points.Valid() && i < |points.order| && name == points.order[i]
    requires MetricsProgress(pos0, vel0, points, dt, i, metrics)
    requires PositionProgress(pos0, points, i, pos)
    requires VelocityProgress(pos0, vel0, points, dt, i, vel)
    requires log == VelocityLog(pos0, dt, points.order[..i])
    ensures name in pos <==> name in pos0
    ensures Kinematics(pos, vel, name, points.entries[name], dt) == Kinematics(pos0, vel0, name, points.entries[name], dt)
    ensures MetricsProgress(pos0, vel0, points, dt, i + 1, metrics.Put(name, Kinematics(pos0, vel0, name, points.entries[name], dt)))
    ensures PositionProgress(pos0, points, i + 1, pos[name := points.entries[name]])
    ensures VelocityProgress(pos0, vel0, points, dt, i + 1, vel[name := Kinematics(pos0, vel0, name, points.entries[name], dt).velocity])
    ensures VelocityLog(pos0, dt, points.order[..i + 1]) == log + if name in pos0 && dt > 0.0 then [VelocityOp(name)] else []
  {
    UntouchedJoint(pos0, vel0, points, dt, i, pos, vel, name);
    PositionStep(pos0, points, i, pos, name);
    VelocityStep(pos0, vel0, points, dt, i, vel, name);
    MetricsStep(pos0, vel0, points, dt, i, metrics, name);
    VelocityLogStep(pos0, dt, points.order, i);
  }

  lemma PositionDone(pos0: map<string, Point3>, points: Points, pos: map<string, Point3>)
    requires points.Valid()
    requires PositionProgress(pos0, points, |points.order|, pos)
    ensures pos == NextPositions(pos0, points)
  {
    assert points.order[..|points.order|] == points.order;
  }

  lemma VelocityDone(pos0: map<string, Point3>, vel0: map<string, Point3>, points: Points, dt: real, vel: map<string, Point3>)
    requires points.Valid()
    requires VelocityProgress(pos0, vel0, points, dt, |points.order|, vel)
    ensures vel == NextVelocities(pos0, vel0, points, dt)
  {
    assert points.order[..|points.order|] == points.order;
  }

  lemma MetricsDone(pos0: map<string, Point3>, vel0: map<string, Point3>, points: Points, dt: real, metrics: Dict<JointMetrics>)
    requires points.Valid()
    requires MetricsProgress(pos0, vel0, points, dt, |points.order|, metrics)
    ensures metrics == FrameMetrics(pos0, vel0, points, dt)
  {
    assert points.order[..|points.order|] == points.order;
  }

  /** Once every joint of the frame is handled, the loop state is the specified one. */
  lemma TrackDone(pos0: map<string, Point3>, vel0: map<string, Point3>, points: Points, dt: real,
                  metrics: Dict<JointMetrics>, pos: map<string, Point3>, vel: map<string, Point3>, log: seq<MathOperation>)
    requires points.Valid()
    requires MetricsProgress(pos0, vel0, points, dt, |points.order|, metrics)
    requires PositionProgress(pos0, points, |points.order|, pos)
    requires VelocityProgress(pos0, vel0, points, dt, |points.order|, vel)
    requires log == VelocityLog(pos0, dt, points.order[..|points.order|])
    ensures metrics == FrameMetrics(pos0, vel0, points, dt)
    ensures log == VelocityLog(pos0, dt, points.order)
    ensures pos == NextPositions(pos0, points)
    ensures vel == NextVelocities(pos0, vel0, points, dt)
  {
    PositionDone(pos0, points, pos);
    VelocityDone(pos0, vel0, points, dt, vel);
    MetricsDone(pos0, vel0, points, dt, metrics);
    assert points.order[..|points.order|] == points.order;
  }

  /** The segment loop of one call: lengths of the bones whose two joints are present, with their log lines. */
  method MeasureSegments(num: Numerics, points3d: Points) returns (segmentLengths: Dict<real>, log: seq<MathOperation>)
    ensures Pass(segmentLengths, log) == SegmentPass(num, points3d, Segments)
  {
    segmentLengths := Empty<real>();
    log := [];
    for i := 0 to |Segments|
      invariant Pass(segmentLengths, log) == SegmentPass(num, points3d, Segments[..i])
    {
      var s := Segments[i];
      if s.a in points3d.entries && s.b in points3d.entries {
        var vector := Sub(points3d.entries[s.b], points3d.entries[s.a]);
        var length := Norm(num, vector);
        segmentLengths := segmentLengths.Put(s.name, length);
        log := log + [SegmentOp(s.name)];
      }
      assert Segments[..i + 1][..i] == Segments[..i];
    }
    assert Segments[..|Segments|] == Segments;
  }

  /** The angle loop of one call: angles at the vertices whose three joints are present, with their log lines. */
  method MeasureAngles(num: Numerics, points3d: Points) returns (anglesDeg: Dict<real>, log: seq<MathOperation>)
    ensures Pass(anglesDeg, log) == AnglePass(num, points3d, AngleTriples)
  {
    anglesDeg := Empty<real>();
    log := [];
    for i := 0 to |AngleTriples|
      invariant Pass(anglesDeg, log) == AnglePass(num, points3d, AngleTriples[..i])
    {
      var t := AngleTriples[i];
      if t.a in points3d.entries && t.vertex in points3d.entries && t.c in points3d.entries {
        var v1 := Sub(points3d.entries[t.a], points3d.entries[t.vertex]);
        var v2 := Sub(points3d.entries[t.c], points3d.entries[t.vertex]);
        var angle := AngleBetween(num, v1, v2);
        anglesDeg := anglesDeg.Put(t.name, angle);
        log := log + [AngleOp(t.name)];
      }
      assert AngleTriples[..i + 1][..i] == AngleTriples[..i];
    }
    assert AngleTriples[..|AngleTriples|] == AngleTriples;
  }

  class MotionAnalyzer {
    var previousPositions: map<string, Point3>
    var previousVelocities: map<string, Point3>

    /** A new analyzer has seen no joint yet. */
    constructor()
      ensures previousPositions == map[] && previousVelocities == map[]
    {
      previousPositions := map[];
      previousVelocities := map[];
    }

    /**
     * Velocity and acceleration of joint `name` now at `position`, by finite
     * differences against the kept state; zero when there is nothing to
     * compare with or time did not advance.
     */
    method Differentiate(name: string, position: Point3, deltaT: real) returns (velocity: Point3, acceleration: Point3)
      ensures JointMetrics(position, velocity, acceleration) == Kinematics(previousPositions, previousVelocities, name, position, deltaT)
    {
      velocity := Zero(3);
      acceleration := Zero(3);
      if name in previousPositions && deltaT > 0.0 {
        velocity := Div(Sub(position, previousPositions[name]), deltaT);
        if name in previousVelocities {
          acceleration := Div(Sub(velocity, previousVelocities[name]), deltaT);
        }
      }
    }

    /**
     * The velocity loop of one call: metrics for every joint of the frame, one
     * log line per joint seen before (when time advanced), and the kept state
     * moved on to this frame.
     */
    method TrackJoints(points3d: Points, deltaT: real) returns (jointMetrics: Dict<JointMetrics>, log: seq<MathOperation>)
      requires points3d.Valid()
      modifies this
      ensures jointMetrics == FrameMetrics(old(previousPositions), old(previousVelocities), points3d, deltaT)
      ensures log == VelocityLog(old(previousPositions), deltaT, points3d.order)
      ensures previousPositions == NextPositions(old(previousPositions), points3d)
      ensures previousVelocities == NextVelocities(old(previousPositions), old(previousVelocities), points3d, deltaT)
    {
      ghost var pos0, vel0 := previousPositions, previousVelocities;
      jointMetrics := Empty<JointMetrics>();
      log := [];
      ProgressStart(previousPositions, previousVelocities, points3d, deltaT);
      for i := 0 to |points3d.order|
        invariant MetricsProgress(pos0, vel0, points3d, deltaT, i, jointMetrics)
        invariant PositionProgress(pos0, points3d, i, previousPositions)
        invariant VelocityProgress(pos0, vel0, points3d, deltaT, i, previousVelocities)
        invariant log == VelocityLog(pos0, deltaT, points3d.order[..i])
      {
        var name := points3d.order[i];
        var position := points3d.entries[name];
        TrackStep(pos0, vel0, points3d, deltaT, i, jointMetrics, previousPositions, previousVelocities, log, name);
        var velocity, acceleration := Differentiate(name, position, deltaT);
        if name in previousPositions && deltaT > 0.0 {
          log := log + [VelocityOp(name)];
        }
        jointMetrics := jointMetrics.Put(name, JointMetrics(position, velocity, acceleration));
        previousPositions := previousPositions[name := position];
        previousVelocities := previousVelocities[name := velocity];
      }
      TrackDone(pos0, vel0, points3d, deltaT, jointMetrics, previousPositions, previousVelocities, log);
    }

    /**
     * Analyzes one frame taken `deltaT` after the previous one: the report is
     * the specified one, and the kept state moves on to this frame.
     */
    method Analyze(num: Numerics, points3d: Points, deltaT: real) returns (report: MotionReport)
      requires points3d.Valid()
      modifies this
      ensures report == Report(num, old(previousPositions), old(previousVelocities), points3d, deltaT)
      ensures previousPositions == NextPositions(old(previousPositions), points3d)
      ensures previousVelocities == NextVelocities(old(previousPositions), old(previousVelocities), points3d, deltaT)
    {
      var segmentLengths, segmentLog := MeasureSegments(num, points3d);
      var anglesDeg, angleLog := MeasureAngles(num, points3d);
      var jointMetrics, velocityLog := TrackJoints(points3d, deltaT);
      report := MotionReport(anglesDeg, segmentLengths, jointMetrics, segmentLog + angleLog + velocityLog);
    }
  }

  /**
   * The caller's loop: a fresh analyzer is given the frames one by one. The
   * reports depend on the frames alone, so two fresh analyzers fed the same
   * frames report the same.
   */
  method AnalyzeFrames(num: Numerics, frames: seq<Frame>) returns (reports: seq<MotionReport>)
    requires ValidFrames(frames)
    ensures reports == Replay(num, frames).reports
  {
    var analyzer := new MotionAnalyzer();
    reports := [];
    for i := 0 to |frames|
      invariant Run(reports, analyzer.previousPositions, analyzer.previousVelocities) == Replay(num, frames[..i])
    {
      assert frames[..i + 1][..i] == frames[..i];
      var report := analyzer.Analyze(num, frames[i].points3d, frames[i].deltaT);
      reports := reports + [report];
    }
    assert frames[..|frames|] == frames;
  }
}
