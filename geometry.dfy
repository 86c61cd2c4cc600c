/** Coordinates, labelled points, the validity test of `is_valid_point`, and
    the squared Euclidean distance used by both proximity filters. */
module Geometry {

  /** A float64 coordinate: a finite value, NaN, or an infinity.
      IEEE 754 rounding is not modelled; finite values are reals. */
  datatype Float64 = Finite(value: real) | NaN | Infinity(negative: bool)

  /** The `label` field: an unsigned 32-bit integer on the wire. */
  type Label = l: int | 0 <= l < 0x1_0000_0000

  datatype Vec = Vec(x: Float64, y: Float64, z: Float64)

  /** A point of a batch or of the accumulated map: x, y, z and its `label`
      field (`label` is a Dafny keyword, hence `labelId`). */
  datatype LabeledPoint = LabeledPoint(pos: Vec, labelId: Label)

  /** Proximity threshold of the batch reducer. */
  const LocalThreshold: real := 0.002
  /** Proximity threshold of the merge into the accumulated map. */
  const MergeThreshold: real := 0.01

  /** Squared thresholds: `sqrt(d2) < t` is decided as `d2 < t * t`. */
  const LocalSq: real := LocalThreshold * LocalThreshold
  const MergeSq: real := MergeThreshold * MergeThreshold

  function Coords(v: Vec): seq<Float64> {
    [v.x, v.y, v.z]
  }

  /** No coordinate is NaN or infinite. */
  function IsValidPoint(v: Vec): (valid: bool)
    ensures valid <==> !exists c :: c in Coords(v) && (c.NaN? || c.Infinity?)
  {
    v.x.Finite? && v.y.Finite? && v.z.Finite?
  }

  function Sq(r: real): real {
    r * r
  }

  /** Squared Euclidean distance between two valid points. */
  function DistSq(a: Vec, b: Vec): (d: real)
    requires IsValidPoint(a) && IsValidPoint(b)
    ensures d >= 0.0
    ensures a == b ==> d == 0.0
  {
    var dx, dy, dz := a.x.value - b.x.value, a.y.value - b.y.value, a.z.value - b.z.value;
    assert Sq(dx) >= 0.0 && Sq(dy) >= 0.0 && Sq(dz) >= 0.0;
    Sq(dx) + Sq(dy) + Sq(dz)
  }

  lemma DistSqSymmetric(a: Vec, b: Vec)
    requires IsValidPoint(a) && IsValidPoint(b)
    ensures DistSq(a, b) == DistSq(b, a)
  {
    var dx, dy, dz := a.x.value - b.x.value, a.y.value - b.y.value, a.z.value - b.z.value;
    assert Sq(dx) == Sq(-dx) && Sq(dy) == Sq(-dy) && Sq(dz) == Sq(-dz);
  }

  /** Comparing squares decides the comparison of the non-negative roots,
      which is why `sqrt` is not needed in the model. */
  lemma SquaredComparison(d: real, t: real)
    requires d >= 0.0 && t > 0.0
    ensures d < t <==> d * d < t * t
  {
    assert d * t == t * d;
    if d < t {
      assert d * (t - d) >= 0.0 && d * (t - d) == d * t - d * d;
      assert t * (t - d) > 0.0 && t * (t - d) == t * t - t * d;
    } else {
      assert t * (d - t) >= 0.0 && t * (d - t) == t * d - t * t;
      assert d * (d - t) >= 0.0 && d * (d - t) == d * d - d * t;
    }
  }

  /** Some valid point of `pts` lies strictly within `sqrt(limitSq)` of `v`. */
  predicate NearAny(v: Vec, pts: seq<LabeledPoint>, limitSq: real)
    requires IsValidPoint(v)
  {
    exists k :: 0 <= k < |pts| && IsValidPoint(pts[k].pos) && DistSq(v, pts[k].pos) < limitSq
  }

  predicate AllValid(pts: seq<LabeledPoint>) {
    forall k :: 0 <= k < |pts| ==> IsValidPoint(pts[k].pos)
  }

  /** Every pair of points is at squared distance `limitSq` or more. */
  predicate Separated(pts: seq<LabeledPoint>, limitSq: real)
    requires AllValid(pts)
  {
    forall i, j :: 0 <= i < j < |pts| ==> DistSq(pts[i].pos, pts[j].pos) >= limitSq
  }

  /** Appending a valid point that is near no point of a separated list keeps
      the list valid and separated: the step both proximity filters rely on. */
  lemma AppendFarKeepsSeparated(pts: seq<LabeledPoint>, q: LabeledPoint, limitSq: real)
    requires AllValid(pts) && Separated(pts, limitSq)
    requires IsValidPoint(q.pos) && !NearAny(q.pos, pts, limitSq)
    ensures AllValid(pts + [q]) && Separated(pts + [q], limitSq)
  {
    var r := pts + [q];
    forall i, j | 0 <= i < j < |r|
      ensures DistSq(r[i].pos, r[j].pos) >= limitSq
    {
      if j == |pts| {
        assert DistSq(q.pos, pts[i].pos) >= limitSq;
        DistSqSymmetric(q.pos, pts[i].pos);
      }
    }
  }

  /** A valid point already in the list is near it, at distance zero. */
  lemma MemberIsNear(pts: seq<LabeledPoint>, k: int, v: Vec, limitSq: real)
    requires 0 <= k < |pts| && IsValidPoint(pts[k].pos) && v == pts[k].pos
    requires limitSq > 0.0
    ensures NearAny(v, pts, limitSq)
  {
    assert DistSq(v, pts[k].pos) == 0.0;
  }

  /** Nearness is kept when the list grows at its end. */
  lemma NearAnyExtends(v: Vec, pts: seq<LabeledPoint>, more: seq<LabeledPoint>, limitSq: real)
    requires IsValidPoint(v) && pts <= more
    requires NearAny(v, pts, limitSq)
    ensures NearAny(v, more, limitSq)
  {
    var k :| 0 <= k < |pts| && IsValidPoint(pts[k].pos) && DistSq(v, pts[k].pos) < limitSq;
    assert more[k] == pts[k];
  }
}
