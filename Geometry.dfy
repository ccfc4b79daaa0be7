/** The shared point arithmetic of the pattern generators: angle conversion,
    polar placement, interpolation, centroid, regular-polygon vertices, range
    mapping and clamping, list flattening and chunking, scaling, 2D rotation
    and the Fibonacci list.

    Points are exact real triples. The cosine and sine of the host's math
    library are not computed: every operation that needs them takes a `Trig`
    value holding two arbitrary functions, so whatever is proved here holds
    for any choice of them. */
module Geometry {
  import opened Common

  datatype Point = Point(x: real, y: real, z: real)

  /** A line segment, as the host's Line.ByStartPointEndPoint would build it. */
  datatype Line = Line(startPoint: Point, endPoint: Point)

  /** Stand-ins for `math.cos` and `math.sin`. */
  datatype Trig = Trig(cos: real -> real, sin: real -> real)

  /** Python's `math.pi`, written out as the decimal literal of that double. */
  const Pi: real := 3.141592653589793

  function DegreesToRadians(degrees: real): real {
    degrees * Pi / 180.0
  }

  function RadiansToDegrees(radians: real): real {
    radians * 180.0 / Pi
  }

  lemma DegreesRoundTrip(d: real)
    ensures RadiansToDegrees(DegreesToRadians(d)) == d
  {
    calc {
      RadiansToDegrees(DegreesToRadians(d));
      (d * Pi / 180.0) * 180.0 / Pi;
      { assert (d * Pi / 180.0) * 180.0 == d * Pi; }
      d * Pi / Pi;
    }
  }

  lemma RadiansRoundTrip(r: real)
    ensures DegreesToRadians(RadiansToDegrees(r)) == r
  {
    calc {
      DegreesToRadians(RadiansToDegrees(r));
      (r * 180.0 / Pi) * Pi / 180.0;
      { assert (r * 180.0 / Pi) * Pi == r * 180.0; }
      r * 180.0 / 180.0;
    }
  }

  /** The point at `distance` from `center` in direction `angle` (radians),
      in the plane of the centre. */
  function PointAtAngle(center: Point, angle: real, distance: real, trig: Trig): (p: Point)
    ensures p.z == center.z
  {
    Point(center.x + distance * trig.cos(angle), center.y + distance * trig.sin(angle), center.z)
  }

  /** Whatever the trigonometry, a point at distance zero is the centre. */
  lemma PointAtZeroDistance(center: Point, angle: real, trig: Trig)
    ensures PointAtAngle(center, angle, 0.0, trig) == center
  {
  }

  /** Linear interpolation; `t` is not clamped, so it extrapolates outside [0, 1]. */
  function Lerp(p1: Point, p2: Point, t: real): Point {
    Point(p1.x + (p2.x - p1.x) * t, p1.y + (p2.y - p1.y) * t, p1.z + (p2.z - p1.z) * t)
  }

  lemma LerpEndpoints(p1: Point, p2: Point)
    ensures Lerp(p1, p2, 0.0) == p1
    ensures Lerp(p1, p2, 1.0) == p2
  {
  }

  /** Interpolating from both ends: `Lerp(p1, p2, t) == Lerp(p2, p1, 1 - t)`,
      for every `t`, inside [0, 1] or not. */
  lemma LerpReversed(p1: Point, p2: Point, t: real)
    ensures Lerp(p1, p2, t) == Lerp(p2, p1, 1.0 - t)
  {
  }

  function Midpoint(p1: Point, p2: Point): Point {
    Lerp(p1, p2, 0.5)
  }

  /** The midpoint does not depend on the order of its arguments and lies
      as far from one end as from the other. */
  lemma MidpointSymmetric(p1: Point, p2: Point)
    ensures Midpoint(p1, p2) == Midpoint(p2, p1)
    ensures var m := Midpoint(p1, p2);
      m.x - p1.x == p2.x - m.x && m.y - p1.y == p2.y - m.y && m.z - p1.z == p2.z - m.z
  {
    LerpReversed(p1, p2, 0.5);
  }

  /** The coordinate-wise sum of a list of points, added left to right. */
  function SumPoints(points: seq<Point>): Point
  {
    if points == [] then Point(0.0, 0.0, 0.0)
    else
      var s := SumPoints(points[..|points| - 1]);
      var p := points[|points| - 1];
      Point(s.x + p.x, s.y + p.y, s.z + p.z)
  }

  /** The arithmetic mean of the points; an empty list raises `ValueError`. */
  function Centroid(points: seq<Point>): (r: Result<Point>)
    ensures r.ValueError? <==> points == []
  {
    if points == [] then ValueError("Cannot calculate centroid of empty list")
    else
      var s := SumPoints(points);
      var n := |points| as real;
      Ok(Point(s.x / n, s.y / n, s.z / n))
  }

  lemma {:induction false} SumOfCopies(points: seq<Point>, p: Point)
    requires forall i :: 0 <= i < |points| ==> points[i] == p
    ensures var n := |points| as real;
      SumPoints(points) == Point(n * p.x, n * p.y, n * p.z)
  {
    if points != [] {
      SumOfCopies(points[..|points| - 1], p);
    }
  }

  /** The centroid of a non-empty list of copies of one point is that point. */
  lemma CentroidOfCopies(points: seq<Point>, p: Point)
    requires |points| >= 1
    requires forall i :: 0 <= i < |points| ==> points[i] == p
    ensures Centroid(points) == Ok(p)
  {
    SumOfCopies(points, p);
    var k := |points| as real;
    var sum := SumPoints(points);
    assert k != 0.0;
    assert sum.x / k == p.x by { assert sum.x == k * p.x; }
    assert sum.y / k == p.y by { assert sum.y == k * p.y; }
    assert sum.z / k == p.z by { assert sum.z == k * p.z; }
  }

  lemma CentroidOfOne(p: Point)
    ensures Centroid([p]) == Ok(p)
  {
    CentroidOfCopies([p], p);
  }

  /** The angle of vertex `i` of a regular polygon with `sides` sides: vertices
      are spread evenly over a full turn, the first one pointing up (-pi/2)
      and then turned by `rotation`. */
  function PolygonAngle(i: nat, sides: int, rotation: real): real
    requires sides > 0
  {
    2.0 * Pi * (i as real) / (sides as real) + rotation - Pi / 2.0
  }

  /** The vertex angles start at `rotation - pi/2` and step by `2 pi / sides`. */
  lemma PolygonAnglesEvenlySpaced(i: nat, sides: int, rotation: real)
    requires sides > 0
    ensures PolygonAngle(0, sides, rotation) == rotation - Pi / 2.0
    ensures PolygonAngle(i + 1, sides, rotation) - PolygonAngle(i, sides, rotation) == 2.0 * Pi / (sides as real)
  {
    var n := sides as real;
    assert 2.0 * Pi * ((i + 1) as real) / n == 2.0 * Pi * (i as real) / n + 2.0 * Pi / n;
  }

  /** `regular_polygon_points`: one vertex per side, none when `sides <= 0`. */
  method RegularPolygonPoints(center: Point, radius: real, sides: int, rotation: real, trig: Trig)
    returns (points: seq<Point>)
    ensures |points| == Max(sides, 0)
    ensures forall i :: 0 <= i < |points| ==>
      points[i] == PointAtAngle(center, PolygonAngle(i, sides, rotation), radius, trig)
    ensures forall i :: 0 <= i < |points| ==> points[i].z == center.z
  {
    points := [];
    var i := 0;
    while i < sides
      invariant 0 <= i <= Max(sides, 0)
      invariant |points| == i
      invariant forall j :: 0 <= j < i ==>
        points[j] == PointAtAngle(center, PolygonAngle(j, sides, rotation), radius, trig)
    {
      var angle := (2.0 * Pi * (i as real) / (sides as real)) + rotation - Pi / 2.0;
      points := points + [PointAtAngle(center, angle, radius, trig)];
      i := i + 1;
    }
  }

  /** `map_value`: the affine map sending [inMin, inMax] onto [outMin, outMax].
      `map_value` divides by `inMax - inMin`, so equal bounds are not allowed. */
  function MapValue(value: real, inMin: real, inMax: real, outMin: real, outMax: real): real
    requires inMax != inMin
  {
    outMin + (value - inMin) * (outMax - outMin) / (inMax - inMin)
  }

  lemma MapValueEndpoints(inMin: real, inMax: real, outMin: real, outMax: real)
    requires inMax != inMin
    ensures MapValue(inMin, inMin, inMax, outMin, outMax) == outMin
    ensures MapValue(inMax, inMin, inMax, outMin, outMax) == outMax
  {
    var d := inMax - inMin;
    assert (inMax - inMin) * (outMax - outMin) / d == outMax - outMin;
  }

  /** `clamp(value, lo, hi) = max(lo, min(hi, value))`. With `lo <= hi` the
      result lies in [lo, hi] and a value already there is kept; with the
      bounds the wrong way round the result is always `lo`. */
  function Clamp(value: real, lo: real, hi: real): (r: real)
    ensures lo <= hi ==> lo <= r <= hi
    ensures lo <= value <= hi ==> r == value
    ensures lo > hi ==> r == lo
    ensures r == lo || r == hi || r == value
  {
    var m := if hi < value then hi else value;
    if lo < m then m else lo
  }

  lemma ClampIdempotent(value: real, lo: real, hi: real)
    ensures Clamp(Clamp(value, lo, hi), lo, hi) == Clamp(value, lo, hi)
  {
  }

  /** `flatten_2d`: the sub-lists concatenated in order. */
  function Flatten2D<T>(nested: seq<seq<T>>): seq<T>
  {
    if nested == [] then [] else nested[0] + Flatten2D(nested[1..])
  }

  /** The total length of the sub-lists. */
  function TotalLength<T>(nested: seq<seq<T>>): nat
  {
    if nested == [] then 0 else |nested[0]| + TotalLength(nested[1..])
  }

  lemma {:induction false} FlattenLength<T>(nested: seq<seq<T>>)
    ensures |Flatten2D(nested)| == TotalLength(nested)
  {
    if nested != [] { FlattenLength(nested[1..]); }
  }

  /** Flattening distributes over concatenation of the outer list. */
  lemma {:induction false} FlattenAppend<T>(a: seq<seq<T>>, b: seq<seq<T>>)
    ensures Flatten2D(a + b) == Flatten2D(a) + Flatten2D(b)
  {
    if a == [] {
      assert a + b == b;
    } else {
      assert (a + b)[0] == a[0] && (a + b)[1..] == a[1..] + b;
      FlattenAppend(a[1..], b);
    }
  }

  /** `chunks(lst, n)`: the slices `lst[i:i+n]` for `i` in `range(0, len(lst), n)`.
      A negative `n` gives an empty range and so no chunks; `n == 0` makes
      `range` raise and is excluded. */
  function Chunks<T>(lst: seq<T>, n: int): seq<seq<T>>
    requires n != 0
    decreases |lst|
  {
    if n < 0 || lst == [] then []
    else if |lst| <= n then [lst]
    else [lst[..n]] + Chunks(lst[n..], n)
  }

  /** For `n > 0` the chunks put back together give the list, every chunk
      but the last has exactly `n` elements, and the last one has between
      1 and `n`. */
  lemma {:induction false} ChunksProperties<T>(lst: seq<T>, n: int)
    requires n > 0
    ensures var cs := Chunks(lst, n);
      && Flatten2D(cs) == lst
      && (forall i :: 0 <= i < |cs| - 1 ==> |cs[i]| == n)
      && (cs != [] ==> 0 < |cs[|cs| - 1]| <= n)
      && (cs == [] <==> lst == [])
  {
    if lst != [] && |lst| > n {
      ChunksProperties(lst[n..], n);
      var rest := Chunks(lst[n..], n);
      assert Chunks(lst, n) == [lst[..n]] + rest;
      assert ([lst[..n]] + rest)[1..] == rest;
      assert lst == lst[..n] + lst[n..];
    }
  }

  /** For a negative chunk size no chunks are produced. */
  lemma ChunksNegative<T>(lst: seq<T>, n: int)
    requires n < 0
    ensures Chunks(lst, n) == []
  {
  }

  /** One coordinate of `scale_point`: `p` moved away from `c` by `scale`. */
  function ScaleCoordinate(p: real, c: real, scale: real): real {
    c + (p - c) * scale
  }

  /** `scale_point`: the point moved away from (or towards) `center` by `scale`. */
  function ScalePoint(point: Point, center: Point, scale: real): Point {
    Point(ScaleCoordinate(point.x, center.x, scale),
          ScaleCoordinate(point.y, center.y, scale),
          ScaleCoordinate(point.z, center.z, scale))
  }

  lemma ScalePointFixed(point: Point, center: Point)
    ensures ScalePoint(point, center, 1.0) == point
    ensures ScalePoint(point, center, 0.0) == center
    ensures forall s: real :: ScalePoint(center, center, s) == center
  {
  }

  /** One coordinate of `ScalePointCompose`. */
  lemma ScaleCoordinateCompose(p: real, c: real, s1: real, s2: real)
    ensures ScaleCoordinate(ScaleCoordinate(p, c, s1), c, s2) == ScaleCoordinate(p, c, s1 * s2)
  {
    var d := p - c;
    assert ScaleCoordinate(p, c, s1) - c == d * s1;
    assert (d * s1) * s2 == d * (s1 * s2);
  }

  /** Scaling twice about one centre is scaling once by the product. */
  lemma ScalePointCompose(point: Point, center: Point, s1: real, s2: real)
    ensures ScalePoint(ScalePoint(point, center, s1), center, s2) == ScalePoint(point, center, s1 * s2)
  {
    ScaleCoordinateCompose(point.x, center.x, s1, s2);
    ScaleCoordinateCompose(point.y, center.y, s1, s2);
    ScaleCoordinateCompose(point.z, center.z, s1, s2);
  }

  /** `rotate_point_2d`: rotation about `center` in the XY plane; Z is kept. */
  function RotatePoint2D(point: Point, center: Point, angle: real, trig: Trig): (r: Point)
    ensures r.z == point.z
  {
    var c := trig.cos(angle);
    var s := trig.sin(angle);
    var dx := point.x - center.x;
    var dy := point.y - center.y;
    Point(center.x + dx * c - dy * s, center.y + dx * s + dy * c, point.z)
  }

  /** Whatever the trigonometry, the centre's own column does not move, and
      an angle whose cosine is 1 and sine is 0 leaves every point in place. */
  lemma RotatePoint2DFixed(point: Point, center: Point, angle: real, trig: Trig)
    ensures RotatePoint2D(Point(center.x, center.y, point.z), center, angle, trig) == Point(center.x, center.y, point.z)
    ensures trig.cos(angle) == 1.0 && trig.sin(angle) == 0.0 ==> RotatePoint2D(point, center, angle, trig) == point
  {
  }

  /** The reference Fibonacci numbers, starting 0, 1. */
  function Fib(i: nat): nat {
    if i < 2 then i else Fib(i - 1) + Fib(i - 2)
  }

  /** `fibonacci_sequence(n)`: the first `n` Fibonacci numbers (none for `n <= 0`). */
  method FibonacciSequence(n: int) returns (fibs: seq<int>)
    ensures |fibs| == Max(n, 0)
    ensures forall i :: 0 <= i < |fibs| ==> fibs[i] == Fib(i)
    ensures |fibs| >= 1 ==> fibs[0] == 0
    ensures |fibs| >= 2 ==> fibs[1] == 1
    ensures forall i :: 2 <= i < |fibs| ==> fibs[i] == fibs[i - 1] + fibs[i - 2]
  {
    if n <= 0 { return []; }
    if n == 1 { return [0]; }
    if n == 2 { return [0, 1]; }
    fibs := [0, 1];
    var i := 2;
    while i < n
      invariant 2 <= i <= n
      invariant |fibs| == i
      invariant forall j :: 0 <= j < i ==> fibs[j] == Fib(j)
    {
      fibs := fibs + [fibs[|fibs| - 1] + fibs[|fibs| - 2]];
      i := i + 1;
    }
  }
}
