/**
 * The numeric helpers of utils/math_utils.py: the trailing moving average used
 * by the smoothing stage and the cosine-rule angle used by the analyzer, plus
 * the vector arithmetic numpy performs for them. Vectors are numpy arrays of
 * floats, modelled as sequences of reals.
 */
module MathUtils {

  type Vec = seq<real>

  /** A joint position: a 3-component vector. */
  type Point3 = p: Vec | |p| == 3 witness [0.0, 0.0, 0.0]

  /** The value of numpy's `pi`. */
  const Pi: real := 3.141592653589793

  /**
   * The two transcendental routines numpy provides (`sqrt` inside
   * `linalg.norm`, and `arccos`). They are not computed here: every operation
   * that needs them takes them as a parameter, and `Sound` lists what the model
   * assumes about them.
   */
  datatype Numerics = Numerics(sqrt: real -> real, arccos: real -> real)

  function Square(x: real): real
  {
    x * x
  }

  /**
   * `sqrt` is the non-negative square root (non-negative, and undoing the
   * square of every non-negative number); `arccos` maps [-1, 1] into [0, Pi]
   * and 0 to a right angle.
   */
  ghost predicate Sound(num: Numerics)
  {
    && (forall x :: 0.0 <= x ==> 0.0 <= num.sqrt(x))
    && (forall r :: 0.0 <= r ==> num.sqrt(Square(r)) == r)
    && (forall c :: -1.0 <= c <= 1.0 ==> 0.0 <= num.arccos(c) <= Pi)
    && num.arccos(0.0) == Pi / 2.0
  }

  // ---------------------------------------------------------------------------
  // Vector arithmetic

  function Zero(n: nat): (z: Vec)
    ensures |z| == n && forall i :: 0 <= i < n ==> z[i] == 0.0
  {
    seq(n, i => 0.0)
  }

  function Sub(u: Vec, v: Vec): (w: Vec)
    requires |u| == |v|
    ensures |w| == |u| && forall i :: 0 <= i < |w| ==> w[i] == u[i] - v[i]
  {
    seq(|u|, i requires 0 <= i < |u| => u[i] - v[i])
  }

  /** numpy's `v / d` for a scalar `d`. */
  function Div(v: Vec, d: real): (w: Vec)
    requires d != 0.0
    ensures |w| == |v| && forall i :: 0 <= i < |w| ==> w[i] == v[i] / d
  {
    seq(|v|, i requires 0 <= i < |v| => v[i] / d)
  }

  /** numpy's `dot`. */
  function Dot(u: Vec, v: Vec): real
    requires |u| == |v|
    decreases |u|
  {
    if u == [] then 0.0 else u[0] * v[0] + Dot(u[1..], v[1..])
  }

  /** numpy's `linalg.norm`: the square root of the sum of squares. */
  function Norm(num: Numerics, v: Vec): real
  {
    num.sqrt(Dot(v, v))
  }

  /** numpy's `clip`. */
  function Clip(x: real, lo: real, hi: real): (r: real)
    requires lo <= hi
    ensures lo <= r <= hi
    ensures lo <= x <= hi ==> r == x
  {
    if x < lo then lo else if hi < x then hi else x
  }

  /** numpy's `degrees`. */
  function Degrees(radians: real): real
  {
    radians * 180.0 / Pi
  }

  // ---------------------------------------------------------------------------
  // Vector2D

  /** A plain 2D vector. */
  datatype Vector2D = Vector2D(x: real, y: real)
  {
    function AsArray(): (v: Vec)
      ensures |v| == 2 && v[0] == x && v[1] == y
    {
      [x, y]
    }

    /** The vector's Euclidean length. */
    function Length(num: Numerics): (r: real)
      ensures Sound(num) ==> r >= 0.0
    {
      NormNonNegativeIfSound(num, AsArray());
      Norm(num, AsArray())
    }
  }

  /** The length of a vector is never negative, and along an axis it is the coordinate's magnitude. */
  lemma Vector2DLength(num: Numerics, v: Vector2D)
    requires Sound(num)
    ensures v.Length(num) >= 0.0
    ensures v.y == 0.0 ==> v.Length(num) == if v.x < 0.0 then -v.x else v.x
    ensures v.x == 0.0 ==> v.Length(num) == if v.y < 0.0 then -v.y else v.y
  {
    NormNonNegative(num, v.AsArray());
    var a := v.AsArray();
    assert Dot(a[1..][1..], a[1..][1..]) == 0.0;
    assert Dot(a[1..], a[1..]) == v.y * v.y;
    assert Dot(a, a) == v.x * v.x + v.y * v.y;
    if v.y == 0.0 {
      assert Dot(a, a) == Square(if v.x < 0.0 then -v.x else v.x);
    }
    if v.x == 0.0 {
      assert Dot(a, a) == Square(if v.y < 0.0 then -v.y else v.y);
    }
  }

  // ---------------------------------------------------------------------------
  // angle_between_vectors

  /**
   * The angle between `v1` and `v2` in degrees, by the cosine rule; 0.0 when
   * the product of the norms is zero. Never fails.
   */
  function AngleBetween(num: Numerics, v1: Vec, v2: Vec): (deg: real)
    requires |v1| == |v2|
    ensures Norm(num, v1) * Norm(num, v2) == 0.0 ==> deg == 0.0
    ensures Sound(num) ==> 0.0 <= deg <= 180.0
  {
    var denom := Norm(num, v1) * Norm(num, v2);
    if denom == 0.0 then 0.0
    else Degrees(num.arccos(Clip(Dot(v1, v2) / denom, -1.0, 1.0)))
  }

  lemma {:induction false} DotSymmetric(u: Vec, v: Vec)
    requires |u| == |v|
    ensures Dot(u, v) == Dot(v, u)
    decreases |u|
  {
    if u != [] {
      DotSymmetric(u[1..], v[1..]);
    }
  }

  lemma {:induction false} DotZero(v: Vec)
    ensures Dot(Zero(|v|), Zero(|v|)) == 0.0
    decreases |v|
  {
    if v != [] {
      assert Zero(|v|)[1..] == Zero(|v[1..]|);
      DotZero(v[1..]);
    }
  }

  lemma {:induction false} DotSelfNonNegative(v: Vec)
    ensures Dot(v, v) >= 0.0
    decreases |v|
  {
    if v != [] {
      DotSelfNonNegative(v[1..]);
      assert v[0] * v[0] >= 0.0;
    }
  }

  lemma NormNonNegativeIfSound(num: Numerics, v: Vec)
    ensures Sound(num) ==> Norm(num, v) >= 0.0
  {
    if Sound(num) {
      NormNonNegative(num, v);
    }
  }

  /** A norm is never negative. */
  lemma NormNonNegative(num: Numerics, v: Vec)
    requires Sound(num)
    ensures Norm(num, v) >= 0.0
  {
    DotSelfNonNegative(v);
  }

  /** Swapping the two vectors does not change the angle. */
  lemma AngleSymmetric(num: Numerics, v1: Vec, v2: Vec)
    requires |v1| == |v2|
    ensures AngleBetween(num, v1, v2) == AngleBetween(num, v2, v1)
  {
    DotSymmetric(v1, v2);
    assert Norm(num, v1) * Norm(num, v2) == Norm(num, v2) * Norm(num, v1);
  }

  /** A zero-length vector on either side gives the defined fallback of 0 degrees. */
  lemma AngleWithZeroVector(num: Numerics, v: Vec)
    requires Sound(num)
    ensures AngleBetween(num, Zero(|v|), v) == 0.0
    ensures AngleBetween(num, v, Zero(|v|)) == 0.0
  {
    DotZero(v);
    assert Square(0.0) == 0.0;
  }

  /** The unit x and y axes are at 90 degrees. */
  lemma RightAngleExample(num: Numerics)
    requires Sound(num)
    ensures AngleBetween(num, [1.0, 0.0, 0.0], [0.0, 1.0, 0.0]) == 90.0
  {
    var x: Vec, y: Vec := [1.0, 0.0, 0.0], [0.0, 1.0, 0.0];
    assert Dot(x, x) == 1.0 && Dot(y, y) == 1.0 && Dot(x, y) == 0.0;
    assert Square(1.0) == 1.0;
  }

  // ---------------------------------------------------------------------------
  // moving_average

  /** All vectors have the same number of components (what `numpy.stack` demands). */
  ghost predicate SameDim(vs: seq<Vec>)
  {
    forall i :: 0 <= i < |vs| ==> |vs[i]| == |vs[0]|
  }

  /** Sum of component `c` over all vectors. */
  function ColumnSum(vs: seq<Vec>, c: nat): real
    requires forall k :: 0 <= k < |vs| ==> c < |vs[k]|
    decreases |vs|
  {
    if vs == [] then 0.0 else vs[0][c] + ColumnSum(vs[1..], c)
  }

  /** numpy's `mean(stack(vs), axis=0)`: the component-wise arithmetic mean. */
  function Mean(vs: seq<Vec>): (m: Vec)
    requires vs != [] && SameDim(vs)
    ensures |m| == |vs[0]|
    ensures forall c :: 0 <= c < |m| ==> m[c] * (|vs| as real) == ColumnSum(vs, c)
  {
    seq(|vs[0]|, c requires 0 <= c < |vs[0]| => ColumnSum(vs, c) / (|vs| as real))
  }

  /** How many trailing values the average reads: min(max(1, window), n). */
  function TrailingCount(n: nat, window: int): (k: nat)
    ensures k <= n && (n > 0 ==> 1 <= k)
    ensures k < n ==> k == window || (window < 1 && k == 1)
  {
    var w := if window < 1 then 1 else window;
    if n < w then n else w
  }

  /**
   * The mean of the last `max(1, window)` vectors, or of all of them when there
   * are fewer; the empty vector for no input.
   */
  function MovingAverage(values: seq<Vec>, window: int): (r: Vec)
    requires SameDim(values)
    ensures values == [] ==> r == []
    ensures values != [] ==> |r| == |values[0]|
  {
    if values == [] then []
    else
      var w := if window < 1 then 1 else window;
      if |values| < w then Mean(values)
      else
        var tail := values[|values| - w..];
        assert |tail[0]| == |values[0]|;
        Mean(tail)
  }

  /** The average reads exactly the last min(max(1, window), |values|) values. */
  lemma MovingAverageIsTrailingMean(values: seq<Vec>, window: int)
    requires values != [] && SameDim(values)
    ensures var k := TrailingCount(|values|, window);
            && SameDim(values[|values| - k..])
            && MovingAverage(values, window) == Mean(values[|values| - k..])
  {
    var k := TrailingCount(|values|, window);
    assert |values[|values| - k..][0]| == |values[0]|;
    if k == |values| {
      assert values[|values| - k..] == values;
    }
  }

  lemma {:induction false} ColumnSumOfCopies(vs: seq<Vec>, p: Vec, c: nat)
    requires c < |p|
    requires forall k :: 0 <= k < |vs| ==> vs[k] == p
    ensures ColumnSum(vs, c) == (|vs| as real) * p[c]
    decreases |vs|
  {
    if vs != [] {
      ColumnSumOfCopies(vs[1..], p, c);
    }
  }

  /** The mean of copies of one vector is that vector. */
  lemma MeanOfCopies(vs: seq<Vec>, p: Vec)
    requires vs != []
    requires forall k :: 0 <= k < |vs| ==> vs[k] == p
    ensures SameDim(vs) && Mean(vs) == p
  {
    var m := Mean(vs);
    forall c | 0 <= c < |p|
      ensures m[c] == p[c]
    {
      ColumnSumOfCopies(vs, p, c);
      assert m[c] * (|vs| as real) == (|vs| as real) * p[c];
    }
  }

  /** Averaging any number of identical vectors, with any window, gives that vector back. */
  lemma MovingAverageOfCopies(values: seq<Vec>, p: Vec, window: int)
    requires values != []
    requires forall k :: 0 <= k < |values| ==> values[k] == p
    ensures SameDim(values) && MovingAverage(values, window) == p
  {
    MovingAverageIsTrailingMean(values, window);
    var k := TrailingCount(|values|, window);
    MeanOfCopies(values[|values| - k..], p);
  }

  /** A window of at most one returns the last value unchanged. */
  lemma MovingAverageSmallWindow(values: seq<Vec>, window: int)
    requires values != [] && SameDim(values) && window <= 1
    ensures MovingAverage(values, window) == values[|values| - 1]
  {
    MovingAverageIsTrailingMean(values, window);
    MeanOfCopies(values[|values| - 1..], values[|values| - 1]);
  }

  /** Fewer values than the window: the average of all of them. */
  lemma MovingAverageShortHistory(values: seq<Vec>, window: int)
    requires values != [] && SameDim(values) && |values| <= window
    ensures MovingAverage(values, window) == Mean(values)
  {
    MovingAverageIsTrailingMean(values, window);
    assert values[0..] == values;
  }

  lemma {:induction false} ColumnSumRemove(vs: seq<Vec>, j: nat, c: nat)
    requires j < |vs| && forall k :: 0 <= k < |vs| ==> c < |vs[k]|
    ensures ColumnSum(vs, c) == ColumnSum(vs[..j] + vs[j + 1..], c) + vs[j][c]
    decreases |vs|
  {
    if j > 0 {
      ColumnSumRemove(vs[1..], j - 1, c);
      assert vs[1..][..j - 1] + vs[1..][j..] == (vs[..j] + vs[j + 1..])[1..];
    } else {
      assert vs[..j] + vs[j + 1..] == vs[1..];
    }
  }

  /** Column sums do not depend on the order of the vectors. */
  lemma {:induction false} ColumnSumPermutation(vs: seq<Vec>, ws: seq<Vec>, c: nat)
    requires multiset(vs) == multiset(ws)
    requires forall k :: 0 <= k < |vs| ==> c < |vs[k]|
    requires forall k :: 0 <= k < |ws| ==> c < |ws[k]|
    ensures ColumnSum(vs, c) == ColumnSum(ws, c)
    decreases |vs|
  {
    if vs != [] {
      assert vs[0] in multiset(ws);
      var j :| 0 <= j < |ws| && ws[j] == vs[0];
      var rest := ws[..j] + ws[j + 1..];
      RemoveOne(vs, ws, j);
      assert forall k :: 0 <= k < |rest| ==> rest[k] in multiset(ws);
      ColumnSumPermutation(vs[1..], rest, c);
      ColumnSumRemove(ws, j, c);
    }
  }

  /** Taking the same element out of two permutations of each other leaves permutations. */
  lemma RemoveOne<T>(vs: seq<T>, ws: seq<T>, j: nat)
    requires vs != [] && j < |ws| && ws[j] == vs[0] && multiset(vs) == multiset(ws)
    ensures multiset(vs[1..]) == multiset(ws[..j] + ws[j + 1..])
  {
    var rest := ws[..j] + ws[j + 1..];
    MultisetRemove(ws, j);
    assert vs == [vs[0]] + vs[1..];
    assert multiset(vs) == multiset{vs[0]} + multiset(vs[1..]);
    forall x ensures multiset(vs[1..])[x] == multiset(rest)[x] {
      assert multiset(vs)[x] == multiset(ws)[x];
    }
  }

  lemma MultisetRemove<T>(s: seq<T>, j: nat)
    requires j < |s|
    ensures multiset(s) == multiset(s[..j] + s[j + 1..]) + multiset{s[j]}
  {
    assert s == s[..j] + [s[j]] + s[j + 1..];
  }

  /** The order of the vectors inside the window does not affect their mean. */
  lemma MeanPermutation(vs: seq<Vec>, ws: seq<Vec>)
    requires vs != [] && SameDim(vs) && multiset(vs) == multiset(ws)
    ensures ws != [] && SameDim(ws) && Mean(vs) == Mean(ws)
  {
    assert |ws| == |multiset(ws)| == |multiset(vs)| == |vs|;
    forall k | 0 <= k < |ws| ensures |ws[k]| == |vs[0]| {
      assert ws[k] in multiset(vs);
    }
    forall c | 0 <= c < |vs[0]| ensures Mean(vs)[c] == Mean(ws)[c] {
      assert forall k :: 0 <= k < |ws| ==> c < |ws[k]|;
      ColumnSumPermutation(vs, ws, c);
    }
  }
}
