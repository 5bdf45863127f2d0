/**
 * Geometry helpers of the virtual mouse: the distance between two pixel
 * points and the linear map from one numeric range onto another.
 */
module Geometry {

  /** A pixel position (x, y) in the camera frame. */
  type Point = (int, int)

  /**
   * Squared Euclidean distance between two pixel points. The program's
   * `calculate_distance` returns the square root of this value; the model
   * keeps the square (see README).
   */
  function SquaredDistance(p: Point, q: Point): (d: int)
    ensures d >= 0
  {
    var dx := q.0 - p.0;
    var dy := q.1 - p.1;
    dx * dx + dy * dy
  }

  lemma SquaredDistanceSymmetric(p: Point, q: Point)
    ensures SquaredDistance(p, q) == SquaredDistance(q, p)
  {
    var dx, dy := q.0 - p.0, q.1 - p.1;
    assert (p.0 - q.0) * (p.0 - q.0) == dx * dx;
    assert (p.1 - q.1) * (p.1 - q.1) == dy * dy;
  }

  /** The distance vanishes exactly when the two points coincide. */
  lemma SquaredDistanceZeroIff(p: Point, q: Point)
    ensures SquaredDistance(p, q) == 0 <==> p == q
  {
    var dx, dy := q.0 - p.0, q.1 - p.1;
    if dx != 0 {
      assert dx * dx > 0;
      assert dy * dy >= 0;
    } else if dy != 0 {
      assert dy * dy > 0;
    }
  }

  /**
   * Affine map of `value` from [inMin, inMax] onto [outMin, outMax]; nothing
   * is clamped. The ends of the input range go to the ends of the output range.
   */
  function MapRange(value: real, inMin: real, inMax: real, outMin: real, outMax: real): (r: real)
    requires inMax != inMin
    ensures value == inMin ==> r == outMin
    ensures value == inMax ==> r == outMax
  {
    assert (inMax - inMin) * (outMax - outMin) / (inMax - inMin) == outMax - outMin;
    (value - inMin) * (outMax - outMin) / (inMax - inMin) + outMin
  }

  /**
   * The map is affine over every input: the change of the output is the
   * change of the input times the fixed slope, inside the range or not.
   */
  lemma MapRangeAffine(u: real, v: real, inMin: real, inMax: real, outMin: real, outMax: real)
    requires inMax != inMin
    ensures MapRange(v, inMin, inMax, outMin, outMax) - MapRange(u, inMin, inMax, outMin, outMax)
            == (v - u) * ((outMax - outMin) / (inMax - inMin))
  {
    var w, s := inMax - inMin, outMax - outMin;
    assert (v - inMin) * s / w == (v - inMin) * (s / w);
    assert (u - inMin) * s / w == (u - inMin) * (s / w);
    assert (v - inMin) * (s / w) - (u - inMin) * (s / w) == (v - u) * (s / w);
  }

  /** With both ranges increasing the map never reverses the order of two inputs. */
  lemma MapRangeMonotone(u: real, v: real, inMin: real, inMax: real, outMin: real, outMax: real)
    requires inMin < inMax && outMin <= outMax
    requires u <= v
    ensures MapRange(u, inMin, inMax, outMin, outMax) <= MapRange(v, inMin, inMax, outMin, outMax)
  {
    MapRangeAffine(u, v, inMin, inMax, outMin, outMax);
    var slope := (outMax - outMin) / (inMax - inMin);
    assert slope >= 0.0;
    assert (v - u) * slope >= 0.0;
  }

  /**
   * No clamping: an input beyond the upper end of an increasing input range is
   * sent beyond the upper end of an increasing output range.
   */
  lemma MapRangeExtrapolates(v: real, inMin: real, inMax: real, outMin: real, outMax: real)
    requires inMin < inMax && outMin < outMax
    requires v > inMax
    ensures MapRange(v, inMin, inMax, outMin, outMax) > outMax
  {
    MapRangeAffine(inMax, v, inMin, inMax, outMin, outMax);
    var top := MapRange(inMax, inMin, inMax, outMin, outMax);
    var slope := (outMax - outMin) / (inMax - inMin);
    var rise := (v - inMax) * slope;
    assert top == outMax;
    assert slope > 0.0;
    assert rise > 0.0;
  }

  /** Mapping back with the two ranges swapped returns the original value. */
  lemma MapRangeRoundTrip(v: real, inMin: real, inMax: real, outMin: real, outMax: real)
    requires inMax != inMin && outMax != outMin
    ensures MapRange(MapRange(v, inMin, inMax, outMin, outMax), outMin, outMax, inMin, inMax) == v
  {
    var w, s := inMax - inMin, outMax - outMin;
    var m := MapRange(v, inMin, inMax, outMin, outMax);
    assert m - outMin == (v - inMin) * s / w;
    assert (m - outMin) * w == (v - inMin) * s;
    assert (m - outMin) * w / s == v - inMin;
    assert MapRange(m, outMin, outMax, inMin, inMax) == (m - outMin) * w / s + inMin;
  }
}
