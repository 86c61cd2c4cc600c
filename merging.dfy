/** The merge of a reduced batch into the accumulated map: each transformed
    point is checked by `is_point_too_close` against the list as it stands at
    that moment, including points appended earlier in the same batch. */
module Merging {
  import opened Wrappers
  import opened Geometry
  import opened Transforming

  /** `is_point_too_close`: an invalid candidate is always too close; a valid
      one is too close iff some valid stored point is strictly within 0.01. */
  predicate TooClose(v: Vec, stored: seq<LabeledPoint>) {
    !IsValidPoint(v) || NearAny(v, stored, MergeSq)
  }

  /** The transformed point carrying the label of the batch point it came from. */
  function Transformed(p: LabeledPoint, t: Transform, apply: RigidMap): (c: Option<LabeledPoint>)
    ensures c.Some? ==> c.value.labelId == p.labelId
                        && TransformPoint(p.pos, Some(t), apply) == Some(c.value.pos)
    ensures c.None? <==> TransformPoint(p.pos, Some(t), apply).None?
  {
    match TransformPoint(p.pos, Some(t), apply)
    case None => None
    case Some(v) => Some(LabeledPoint(v, p.labelId))
  }

  /** One iteration of the merge loop. */
  function MergeOne(stored: seq<LabeledPoint>, candidate: Option<LabeledPoint>): seq<LabeledPoint> {
    match candidate
    case None => stored
    case Some(q) => if TooClose(q.pos, stored) then stored else stored + [q]
  }

  /** The accumulated list after merging the reduced points `ps` in order. */
  function MergeBatch(stored: seq<LabeledPoint>, ps: seq<LabeledPoint>, t: Transform, apply: RigidMap): seq<LabeledPoint>
  {
    if ps == [] then stored
    else MergeOne(MergeBatch(stored, ps[..|ps| - 1], t, apply), Transformed(ps[|ps| - 1], t, apply))
  }

  /** The merge only appends: the old list is a prefix of the new one, at most
      one entry is added per reduced point, and every added entry is the
      transformed position of some reduced point with that point's label. */
  lemma {:induction false} MergeAppendOnly(stored: seq<LabeledPoint>, ps: seq<LabeledPoint>, t: Transform, apply: RigidMap)
    ensures var r := MergeBatch(stored, ps, t, apply);
      && stored <= r
      && |r| <= |stored| + |ps|
      && forall k :: |stored| <= k < |r| ==>
           exists i :: 0 <= i < |ps| && Transformed(ps[i], t, apply) == Some(r[k])
  {
    if ps != [] {
      var init := ps[..|ps| - 1];
      MergeAppendOnly(stored, init, t, apply);
      var before := MergeBatch(stored, init, t, apply);
      var r := MergeBatch(stored, ps, t, apply);
      forall k | |stored| <= k < |r|
        ensures exists i :: 0 <= i < |ps| && Transformed(ps[i], t, apply) == Some(r[k])
      {
        if k < |before| {
          var i :| 0 <= i < |init| && Transformed(init[i], t, apply) == Some(before[k]);
          assert ps[i] == init[i];
        } else {
          assert Transformed(ps[|ps| - 1], t, apply) == Some(r[k]);
        }
      }
    }
  }

  /** Merging keeps the accumulated list valid and pairwise at least 0.01
      apart, same-batch appends included. */
  lemma {:induction false} MergePreservesSeparation(stored: seq<LabeledPoint>, ps: seq<LabeledPoint>, t: Transform, apply: RigidMap)
    requires AllValid(stored) && Separated(stored, MergeSq)
    ensures var r := MergeBatch(stored, ps, t, apply); AllValid(r) && Separated(r, MergeSq)
  {
    if ps != [] {
      var init := ps[..|ps| - 1];
      MergePreservesSeparation(stored, init, t, apply);
      var before := MergeBatch(stored, init, t, apply);
      var c := Transformed(ps[|ps| - 1], t, apply);
      if c.Some? && !TooClose(c.value.pos, before) {
        AppendFarKeepsSeparated(before, c.value, MergeSq);
      }
    }
  }

  /** Re-feeding the coordinates of a stored point, with any label, adds nothing. */
  lemma MergeRejectsStored(stored: seq<LabeledPoint>, k: int, labelId: Label)
    requires 0 <= k < |stored| && IsValidPoint(stored[k].pos)
    ensures MergeOne(stored, Some(LabeledPoint(stored[k].pos, labelId))) == stored
  {
    MemberIsNear(stored, k, stored[k].pos, MergeSq);
  }

  /** A transform with a NaN or infinite component adds nothing to the map. */
  lemma {:induction false} CorruptTransformAddsNothing(stored: seq<LabeledPoint>, ps: seq<LabeledPoint>, t: Transform, apply: RigidMap)
    requires !IsFiniteTransform(t)
    ensures MergeBatch(stored, ps, t, apply) == stored
  {
    if ps != [] {
      CorruptTransformAddsNothing(stored, ps[..|ps| - 1], t, apply);
    }
  }

  /** Merging a prefix of the batch gives a prefix of the merged list. */
  lemma {:induction false} MergePrefix(stored: seq<LabeledPoint>, ps: seq<LabeledPoint>, j: int, t: Transform, apply: RigidMap)
    requires 0 <= j <= |ps|
    ensures MergeBatch(stored, ps[..j], t, apply) <= MergeBatch(stored, ps, t, apply)
    decreases |ps|
  {
    if j < |ps| {
      var init := ps[..|ps| - 1];
      assert init[..j] == ps[..j];
      MergePrefix(stored, init, j, t, apply);
    } else {
      assert ps[..j] == ps;
    }
  }

  /** After the merge, each candidate of the batch is absent or too close to
      the merged list: appended ones are at distance zero from themselves. */
  lemma CandidateAbsorbed(stored: seq<LabeledPoint>, ps: seq<LabeledPoint>, i: int, t: Transform, apply: RigidMap)
    requires 0 <= i < |ps|
    ensures var c := Transformed(ps[i], t, apply);
      c.None? || TooClose(c.value.pos, MergeBatch(stored, ps, t, apply))
  {
    var c := Transformed(ps[i], t, apply);
    var before := MergeBatch(stored, ps[..i], t, apply);
    var after := MergeBatch(stored, ps[..i + 1], t, apply);
    assert ps[..i + 1][..i] == ps[..i];
    MergePrefix(stored, ps, i + 1, t, apply);
    if c.Some? && IsValidPoint(c.value.pos) {
      if NearAny(c.value.pos, before, MergeSq) {
        assert after == before;
      } else {
        assert after == before + [c.value];
        MemberIsNear(after, |before|, c.value.pos, MergeSq);
      }
      NearAnyExtends(c.value.pos, after, MergeBatch(stored, ps, t, apply), MergeSq);
    }
  }

  /** A list that already absorbs every candidate is left unchanged. */
  lemma {:induction false} MergeAbsorbed(stored: seq<LabeledPoint>, ps: seq<LabeledPoint>, t: Transform, apply: RigidMap)
    requires forall i :: 0 <= i < |ps| ==>
      var c := Transformed(ps[i], t, apply); c.None? || TooClose(c.value.pos, stored)
    ensures MergeBatch(stored, ps, t, apply) == stored
  {
    if ps != [] {
      var init := ps[..|ps| - 1];
      assert forall i :: 0 <= i < |init| ==> init[i] == ps[i];
      MergeAbsorbed(stored, init, t, apply);
    }
  }

  /** Merging the same batch twice adds nothing the second time. */
  lemma MergeIdempotent(stored: seq<LabeledPoint>, ps: seq<LabeledPoint>, t: Transform, apply: RigidMap)
    ensures var r := MergeBatch(stored, ps, t, apply); MergeBatch(r, ps, t, apply) == r
  {
    var r := MergeBatch(stored, ps, t, apply);
    forall i | 0 <= i < |ps|
      ensures var c := Transformed(ps[i], t, apply); c.None? || TooClose(c.value.pos, r)
    {
      CandidateAbsorbed(stored, ps, i, t, apply);
    }
    MergeAbsorbed(r, ps, t, apply);
  }
}
