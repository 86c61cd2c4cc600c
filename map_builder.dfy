/** The `MapBuilder` node: the accumulated list `transformed_points` and the
    per-batch pipeline gate -> reduce -> transform -> merge -> publish. */
module MapBuilding {
  import opened Wrappers
  import opened Geometry
  import opened Reduction
  import opened Transforming
  import opened Admission
  import opened Merging
  import opened Serialization

  /** One incoming PointCloud2 message, after point extraction; `stamp` is in
      nanoseconds. */
  datatype Batch = Batch(frameId: string, stamp: int, points: seq<LabeledPoint>)

  /** The accumulated list after one callback on `batch`, given what the
      transform lookup answered. */
  function ProcessBatch(stored: seq<LabeledPoint>, batch: Batch, lookup: Result<Transform, LookupFailure>,
                        apply: RigidMap): seq<LabeledPoint>
  {
    match Admit(lookup, batch.stamp)
    case None => stored
    case Some(t) => MergeBatch(stored, Reduce(batch.points), t, apply)
  }

  /** The accumulated list after one callback with the gate as written: a
      raised error leaves the callback before anything is merged. */
  function ProcessBatchAsWritten(stored: seq<LabeledPoint>, batch: Batch,
                                 lookup: Result<Transform, LookupFailure>, apply: RigidMap): seq<LabeledPoint>
  {
    match GateAsWritten(lookup, batch.stamp)
    case Admitted(t) => MergeBatch(stored, Reduce(batch.points), t, apply)
    case _ => stored
  }

  /** As written, no batch ever reaches the accumulated list, while the
      corrected gate merges a batch whose transform has no skew. */
  lemma AsWrittenNeverMerges(stored: seq<LabeledPoint>, batch: Batch,
                             lookup: Result<Transform, LookupFailure>, apply: RigidMap)
    ensures ProcessBatchAsWritten(stored, batch, lookup, apply) == stored
    ensures lookup.Success? && lookup.value.stamp == batch.stamp ==>
      ProcessBatch(stored, batch, lookup, apply) == MergeBatch(stored, Reduce(batch.points), lookup.value, apply)
  {
  }

  /** A callback keeps the accumulated list valid and pairwise at least 0.01
      apart, whatever the batch. */
  lemma ProcessBatchKeepsSeparation(stored: seq<LabeledPoint>, batch: Batch,
                                    lookup: Result<Transform, LookupFailure>, apply: RigidMap)
    requires AllValid(stored) && Separated(stored, MergeSq)
    ensures var r := ProcessBatch(stored, batch, lookup, apply); AllValid(r) && Separated(r, MergeSq)
  {
    if Admit(lookup, batch.stamp).Some? {
      MergePreservesSeparation(stored, Reduce(batch.points), Admit(lookup, batch.stamp).value, apply);
    }
  }

  /** A callback only appends, and each new entry is the transformed position
      of a point of the batch, carrying that point's label. */
  lemma ProcessBatchAppendOnly(stored: seq<LabeledPoint>, batch: Batch,
                               lookup: Result<Transform, LookupFailure>, apply: RigidMap)
    ensures var r := ProcessBatch(stored, batch, lookup, apply);
      && stored <= r
      && |r| <= |stored| + |batch.points|
      && forall k :: |stored| <= k < |r| ==>
           exists i :: 0 <= i < |batch.points|
             && r[k].labelId == batch.points[i].labelId
             && TransformPoint(batch.points[i].pos, Admit(lookup, batch.stamp), apply) == Some(r[k].pos)
  {
    var r := ProcessBatch(stored, batch, lookup, apply);
    if Admit(lookup, batch.stamp).Some? {
      var t := lookup.value;
      var reduced := Reduce(batch.points);
      MergeAppendOnly(stored, reduced, t, apply);
      ReduceShorter(batch.points);
      ReduceSubsequence(batch.points);
      var idx :| Embeds(idx, reduced, batch.points);
      forall k | |stored| <= k < |r|
        ensures exists i :: 0 <= i < |batch.points|
                            && r[k].labelId == batch.points[i].labelId
                            && TransformPoint(batch.points[i].pos, Some(t), apply) == Some(r[k].pos)
      {
        var i :| 0 <= i < |reduced| && Transformed(reduced[i], t, apply) == Some(r[k]);
        var j := idx[i];
        assert reduced[i] == batch.points[j];
        assert r[k].labelId == batch.points[j].labelId;
        assert TransformPoint(batch.points[j].pos, Some(t), apply) == Some(r[k].pos);
      }
      assert Admit(lookup, batch.stamp) == Some(t);
    }
  }

  /** Re-delivering the same batch with the same transform adds nothing. */
  lemma ProcessBatchRedelivery(stored: seq<LabeledPoint>, batch: Batch,
                               lookup: Result<Transform, LookupFailure>, apply: RigidMap)
    ensures var r := ProcessBatch(stored, batch, lookup, apply);
      ProcessBatch(r, batch, lookup, apply) == r
  {
    if Admit(lookup, batch.stamp).Some? {
      MergeIdempotent(stored, Reduce(batch.points), lookup.value, apply);
    }
  }

  /** A dropped batch or a transform with a NaN or infinite component leaves
      the accumulated list as it was. */
  lemma ProcessBatchUnchanged(stored: seq<LabeledPoint>, batch: Batch,
                              lookup: Result<Transform, LookupFailure>, apply: RigidMap)
    requires lookup.Failure? || lookup.value.stamp - batch.stamp > 100_000_000
             || !IsFiniteTransform(lookup.value)
    ensures ProcessBatch(stored, batch, lookup, apply) == stored
  {
    if Admit(lookup, batch.stamp).Some? {
      CorruptTransformAddsNothing(stored, Reduce(batch.points), lookup.value, apply);
    }
  }

  class MapBuilder {
    /** `self.transformed_points`: the accumulated, append-only map. */
    var transformedPoints: seq<LabeledPoint>

    /** Every stored point is valid and every pair is at least 0.01 apart. */
    ghost predicate Valid()
      reads this
    {
      AllValid(transformedPoints) && Separated(transformedPoints, MergeSq)
    }

    constructor ()
      ensures Valid() && transformedPoints == []
    {
      transformedPoints := [];
    }

    /** `reduce_points`. */
    method ReducePoints(points: seq<LabeledPoint>) returns (filtered: seq<LabeledPoint>)
      ensures filtered == Reduce(points)
      ensures AllValid(filtered) && Separated(filtered, LocalSq)
      ensures IsSubsequence(filtered, points)
    {
      filtered := [];
      for i := 0 to |points|
        invariant filtered == Reduce(points[..i])
      {
        assert points[..i + 1][..i] == points[..i];
        var point := points[i];
        if !IsValidPoint(point.pos) {
          continue;
        }
        var tooClose := false;
        for j := 0 to |filtered|
          invariant forall k :: 0 <= k < j && IsValidPoint(filtered[k].pos)
                                ==> DistSq(point.pos, filtered[k].pos) >= LocalSq
        {
          var fPoint := filtered[j];
          if !IsValidPoint(fPoint.pos) {
            continue;
          }
          if DistSq(point.pos, fPoint.pos) < LocalSq {
            tooClose := true;
            break;
          }
        }
        if !tooClose {
          filtered := filtered + [point];
        }
      }
      assert points[..|points|] == points;
      ReduceValidSeparated(points);
      ReduceSubsequence(points);
    }

    /** `is_point_too_close`. */
    method IsPointTooClose(point: Vec) returns (tooClose: bool)
      ensures tooClose == TooClose(point, transformedPoints)
      ensures !IsValidPoint(point) ==> tooClose
      ensures IsValidPoint(point) ==>
        (tooClose <==> exists k :: 0 <= k < |transformedPoints|
                                   && IsValidPoint(transformedPoints[k].pos)
                                   && DistSq(point, transformedPoints[k].pos) < MergeSq)
    {
      if !IsValidPoint(point) {
        return true;
      }
      for k := 0 to |transformedPoints|
        invariant forall l :: 0 <= l < k && IsValidPoint(transformedPoints[l].pos)
                              ==> DistSq(point, transformedPoints[l].pos) >= MergeSq
      {
        var fPoint := transformedPoints[k];
        if !IsValidPoint(fPoint.pos) {
          continue;
        }
        if DistSq(point, fPoint.pos) < MergeSq {
          return true;
        }
      }
      return false;
    }

    /** `publish_point_cloud`: the message published at clock time `now`, or
        `None` when nothing is published. */
    method PublishPointCloud(now: int, f32: Float32Encoder) returns (msg: Option<CloudMsg>)
      ensures msg == PointCloudMessage(transformedPoints, now, f32)
      ensures msg.None? <==> transformedPoints == []
      ensures msg.Some? ==> var rs := DecodeRecords(msg.value.data);
        |rs| == |transformedPoints|
        && forall k :: 0 <= k < |transformedPoints| ==> rs[k] == WireOf(transformedPoints[k], f32)
    {
      if transformedPoints == [] {
        return None;
      }
      var cloudData: seq<seq<Byte>> := [];
      for i := 0 to |transformedPoints|
        invariant cloudData == Records(transformedPoints[..i], f32)
      {
        assert transformedPoints[..i + 1][..i] == transformedPoints[..i];
        cloudData := cloudData + [PackRecord(transformedPoints[i], f32)];
      }
      assert transformedPoints[..|transformedPoints|] == transformedPoints;
      PayloadRoundTrip(transformedPoints, f32);
      msg := Some(CloudMsg(now, "map", 1, |transformedPoints|, CloudFields, false, PointStep,
                           PointStep * |transformedPoints|, true, Join(cloudData)));
    }

    /** `pointcloud_callback`: `lookup` is what the transform lookup for
        `batch` answered, `apply` is `do_transform_point`, `now` the clock. */
    method PointcloudCallback(batch: Batch, lookup: Result<Transform, LookupFailure>, apply: RigidMap,
                              f32: Float32Encoder, now: int) returns (published: Option<CloudMsg>)
      requires Valid()
      modifies this
      ensures Valid()
      ensures transformedPoints == ProcessBatch(old(transformedPoints), batch, lookup, apply)
      ensures Admit(lookup, batch.stamp).None? ==> transformedPoints == old(transformedPoints) && published.None?
      ensures Admit(lookup, batch.stamp).Some? ==> published == PointCloudMessage(transformedPoints, now, f32)
    {
      if lookup.Failure? {
        return None;
      }
      var transform := lookup.value;
      var timeDiff := (transform.stamp - batch.stamp) as real / 1_000_000_000.0;
      if timeDiff > 0.1 {
        return None;
      }
      var points := ReducePoints(batch.points);
      for i := 0 to |points|
        invariant transformedPoints == MergeBatch(old(transformedPoints), points[..i], transform, apply)
        invariant Valid()
      {
        assert points[..i + 1][..i] == points[..i];
        var point := points[i];
        var transformedPoint := TransformPoint(point.pos, Some(transform), apply);
        if transformedPoint.Some? {
          var tooClose := IsPointTooClose(transformedPoint.value);
          if tooClose {
            continue;
          }
          var stored := LabeledPoint(transformedPoint.value, point.labelId);
          AppendFarKeepsSeparated(transformedPoints, stored, MergeSq);
          transformedPoints := transformedPoints + [stored];
        }
      }
      assert points[..|points|] == points;
      published := PublishPointCloud(now, f32);
    }
  }
}
