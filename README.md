# MapBuilder point accumulation, modelled in Dafny

This project models the point-accumulation engine of the `MapBuilder` ROS 2 node
(`rob7_760_2024/object_det_cloud.py`). The node receives batches of labelled 3D
points. For each batch it does five things:

1. **Admission gate.** It looks up a transform into the `map` frame and drops the batch if the lookup fails or if the transform's stamp is more than 0.1 s after the batch's stamp.
2. **Reduction.** It thins the batch greedily in arrival order at 0.002. An invalid point (a NaN or infinite coordinate) is dropped, and so is a point strictly closer than 0.002 to a point already kept.
3. **Transform.** It moves each kept point into the `map` frame. It skips this step when the transform has a NaN or infinite component.
4. **Merge.** It appends each transformed point, with its original label, to the accumulated list `transformed_points`. A point is rejected if a stored point lies strictly within 0.01 of it.
5. **Publish.** It serialises the whole list as a PointCloud2 message of 16-byte records (x, y, z as float32 and label as uint32, little-endian). Nothing is published while the list is empty.

Modules, one per stage:

- `Geometry`: float64 values (`Finite(real) | NaN | Infinity`), points, `is_valid_point`, squared distance, the thresholds.
- `Reduction`: the specification of `reduce_points` and its properties.
- `Transforming`: the guards of `transform_point`.
- `Admission`: the gate.
- `Merging`: `is_point_too_close` and the merge loop as functions, with their properties.
- `Serialization`: record packing, the payload layout, read-back, and the message fields.
- `MapBuilding`: the class `MapBuilder`. Its field `transformedPoints` is the accumulated list. Its methods follow the node's methods loop for loop, and each is proved against the functions above. The class invariant `Valid()` says that every stored point is valid and that every pair of stored points is at least 0.01 apart.

Distances are compared squared over the reals: `sqrt(d2) < t` is decided as `d2 < t * t` (see `Geometry.SquaredComparison`).

Three collaborators become parameters:

- `do_transform_point` becomes `apply: (Transform, Vec) -> Option<Vec>`. `None` stands for an exception that `transform_point` catches.
- `struct.pack('f', ...)` becomes `f32: Float64 -> Word`, which returns four bytes.
- The transform lookup becomes its answer, a `Result<Transform, LookupFailure>`. The clock becomes `now`.

Behaviour as written, which the model follows:

- **Same-batch points are cross-checked.** `is_point_too_close` scans the live `self.transformed_points` (lines 213 and 80). So a candidate is checked against points appended earlier in the same batch. The 0.01 separation therefore holds for the whole list, across and within batches. `Merging.MergePreservesSeparation` proves this.
- **The skew test is one-sided.** Line 54 rejects only `transform stamp - batch stamp > 0.1 s`, so a transform older than the batch always passes. `Admission.AdmitScenario` shows both cases.
- **Line 50 raises.** Both header stamps are `builtin_interfaces` Time messages, which have no subtraction and no `nanoseconds`. Line 45 converts a stamp with `Time.from_msg`; line 50 does not. So every successful lookup raises a TypeError that the handler at line 60 does not catch: nothing is merged and nothing is published. The rest of the model uses the evidently intended gate, the nanosecond difference of the two stamps; see "## Findings".
- **Transformed outputs are not checked in `transform_point`.** `transform_point` does not check its output for finiteness. A non-finite transformed point is rejected later, because `is_point_too_close` returns true for an invalid candidate.

## Model

| member | source | states |
|---|---|---|
| `Geometry.IsValidPoint` | rob7_760_2024/object_det_cloud.py:95-99 | A point is valid iff none of x, y, z is NaN or infinite |
| `Geometry.DistSq` | rob7_760_2024/object_det_cloud.py:190-194 | The squared distance is non-negative and is zero from a point to itself |
| `Geometry.SquaredComparison` | rob7_760_2024/object_det_cloud.py:218-223 | For a non-negative distance and a positive threshold, `d < t` iff `d*d < t*t`, so comparing squared distances decides the `sqrt` comparison |
| `Reduction.Reduce` | rob7_760_2024/object_det_cloud.py:173-201 | Definition of `reduce_points`' result, point by point; its properties are in the `Reduction.Reduce*` rows below |
| `Reduction.ReduceValidSeparated` | rob7_760_2024/object_det_cloud.py:173-201 | Every point `reduce_points` returns is valid, and every pair of returned points is at least 0.002 apart |
| `Reduction.ReduceSubsequence` | rob7_760_2024/object_det_cloud.py:179-201 | The result is an order-preserving subsequence of the input |
| `Reduction.ReduceKeepsIff` | rob7_760_2024/object_det_cloud.py:186-199 | The i-th input is appended iff it is valid and no point kept from earlier inputs is strictly within 0.002; this first part is `Reduce`'s own greedy rule read at index i. The added fact is that what was kept up to i stays a prefix of the final result, so later points never displace it. `ReduceCovers` carries the rest of "first seen wins" |
| `Reduction.ReduceCovers` | rob7_760_2024/object_det_cloud.py:181-199 | Every valid input point is kept or lies strictly within 0.002 of a kept point |
| `Reduction.ReduceAllInvalid` | rob7_760_2024/object_det_cloud.py:181-184 | A batch of only invalid points, and in particular an empty batch, reduces to the empty list |
| `Reduction.ReduceScenario` | rob7_760_2024/object_det_cloud.py:178-199 | `[(0,0,0,1), (0,0,0.001,1), (5,5,5,2)]` reduces to `[(0,0,0,1), (5,5,5,2)]` |
| `Transforming.IsFiniteTransform` | rob7_760_2024/object_det_cloud.py:111-118 | A transform passes the guards iff no translation or rotation component is NaN or infinite |
| `Transforming.TransformPoint` | rob7_760_2024/object_det_cloud.py:101-134 | No transform, or a transform with a non-finite component, gives `None`; otherwise the result is whatever `do_transform_point` gives, where a raised exception is `None` |
| `Admission.SkewSeconds` | rob7_760_2024/object_det_cloud.py:50-51 | Definition: the nanosecond stamp difference divided by 1e9; its use is stated by `Admission.Admit` |
| `Admission.Admit` | rob7_760_2024/object_det_cloud.py:40-62 | A batch is admitted iff the lookup succeeded and `transform stamp - batch stamp` is at most 100 000 000 ns; an admitted batch uses the looked-up transform |
| `Admission.GateAsWritten` | rob7_760_2024/object_det_cloud.py:40-62 | As written, the gate never admits a batch: a failed lookup drops it, and a successful one raises at line 50 |
| `Admission.StampSubtractionRaises` | rob7_760_2024/object_det_cloud.py:50 | A transform stamped at the batch's own time is admitted by `Admit` but raises in the gate as written |
| `Admission.AdmitScenario` | rob7_760_2024/object_det_cloud.py:49-56 | A transform 0.05 s after the batch is used, one 0.2 s after is not, and one 1 s before is used |
| `Merging.TooClose` | rob7_760_2024/object_det_cloud.py:203-226 | Definition of `is_point_too_close`'s answer; the method `MapBuilding.MapBuilder.IsPointTooClose` is proved against it, and the merge lemmas below use it |
| `Merging.MergeOne` | rob7_760_2024/object_det_cloud.py:72-80 | Definition of one merge-loop iteration; its properties are in the `Merging.Merge*` rows below |
| `Merging.MergeBatch` | rob7_760_2024/object_det_cloud.py:71-80 | Definition of the merge loop over the reduced batch; its properties are in the `Merging.Merge*` and `Merging.Candidate*` rows below |
| `Merging.Transformed` | rob7_760_2024/object_det_cloud.py:72-79 | A merge candidate carries the label of the batch point it came from and the position `transform_point` returned for it |
| `Merging.MergeAppendOnly` | rob7_760_2024/object_det_cloud.py:71-80 | Merging only appends: the old list is a prefix of the new one, at most one entry is added per reduced point, and each new entry is the transform of some reduced point with that point's label |
| `Merging.MergePreservesSeparation` | rob7_760_2024/object_det_cloud.py:71-80 | If the stored list is valid and pairwise at least 0.01 apart, it stays so after merging a whole batch, same-batch appends included |
| `Merging.MergeRejectsStored` | rob7_760_2024/object_det_cloud.py:218-224 | Re-feeding the coordinates of a stored valid point, with any label, leaves the list unchanged |
| `Merging.CorruptTransformAddsNothing` | rob7_760_2024/object_det_cloud.py:113-118 | With a non-finite transform, merging leaves the list unchanged |
| `Merging.CandidateAbsorbed` | rob7_760_2024/object_det_cloud.py:207-224 | After a merge, every candidate of the batch is either absent or too close to the merged list |
| `Merging.MergeAbsorbed` | rob7_760_2024/object_det_cloud.py:71-80 | A list to which every candidate is too close is left unchanged by the merge |
| `Merging.MergeIdempotent` | rob7_760_2024/object_det_cloud.py:71-80 | Merging the same candidates a second time adds nothing |
| `Serialization.EncodeU32` | rob7_760_2024/object_det_cloud.py:166 | The little-endian uint32 bytes of a label decode back to that label |
| `Serialization.PackRecord` | rob7_760_2024/object_det_cloud.py:166 | A record is 16 bytes: float32 x, y, z at offsets 0, 4, 8 and the uint32 label at offset 12 |
| `Serialization.Records` | rob7_760_2024/object_det_cloud.py:164-166 | Definition of `cloud_data`, one packed record per point; its properties are in the `Serialization.Payload*` rows |
| `Serialization.Join` | rob7_760_2024/object_det_cloud.py:167 | Definition of `b''.join`; its properties are in the `Serialization.Payload*` rows |
| `Serialization.PayloadLayout` | rob7_760_2024/object_det_cloud.py:164-167 | The payload is 16 bytes per point, and its k-th 16-byte slice is the k-th point's record, in list order |
| `Serialization.PayloadRoundTrip` | rob7_760_2024/object_det_cloud.py:149-167 | Reading the payload back by the declared field offsets gives, point by point, the float32 bytes of x, y, z and the exact label |
| `Serialization.PointCloudMessage` | rob7_760_2024/object_det_cloud.py:141-167 | Nothing is published iff the list is empty; otherwise frame `map`, height 1, width = count, point_step 16, row_step = 16 × width = payload length, not big-endian, and the four declared fields |
| `MapBuilding.ProcessBatch` | rob7_760_2024/object_det_cloud.py:50-80 | Definition of the callback's effect on the list with the intended gate; its properties are in the `MapBuilding.ProcessBatch*` rows |
| `MapBuilding.ProcessBatchAsWritten` | rob7_760_2024/object_det_cloud.py:40-80 | Definition of the callback's effect on the list with the gate as written |
| `MapBuilding.AsWrittenNeverMerges` | rob7_760_2024/object_det_cloud.py:40-80 | As written, no callback changes the list; with the intended gate, a batch with zero skew is merged |
| `MapBuilding.ProcessBatchKeepsSeparation` | rob7_760_2024/object_det_cloud.py:64-80 | One callback keeps the accumulated list valid and pairwise at least 0.01 apart |
| `MapBuilding.ProcessBatchAppendOnly` | rob7_760_2024/object_det_cloud.py:64-80 | One callback only appends; each new entry is the transformed position of a batch point and carries that point's label |
| `MapBuilding.ProcessBatchRedelivery` | rob7_760_2024/object_det_cloud.py:64-80 | Delivering the same batch again, with the same lookup answer, leaves the list unchanged |
| `MapBuilding.ProcessBatchUnchanged` | rob7_760_2024/object_det_cloud.py:50-62 | A failed lookup, a skew over 0.1 s or a non-finite transform leaves the list unchanged |
| `MapBuilding.MapBuilder.constructor` | rob7_760_2024/object_det_cloud.py:27-28 | The accumulated list starts empty, which satisfies the invariant |
| `MapBuilding.MapBuilder.ReducePoints` | rob7_760_2024/object_det_cloud.py:173-201 | The nested loops compute `Reduce`: a valid, pairwise 0.002-separated, order-preserving subsequence of the input |
| `MapBuilding.MapBuilder.IsPointTooClose` | rob7_760_2024/object_det_cloud.py:203-226 | The result is `TooClose` of the live list: true for any invalid candidate; for a valid one, true iff some valid stored point lies strictly within 0.01 |
| `MapBuilding.MapBuilder.PublishPointCloud` | rob7_760_2024/object_det_cloud.py:136-171 | Returns nothing iff the list is empty; otherwise the message whose payload reads back as the stored points' records, in order |
| `MapBuilding.MapBuilder.PointcloudCallback` | rob7_760_2024/object_det_cloud.py:30-83 | A dropped batch leaves the list unchanged and publishes nothing; otherwise the list becomes the merge of the reduced batch, and the message for the new list is published. The invariant `Valid()` is kept |

## Left out

- Admission.Admit: line 50 raises as written (see "## Findings"); `Admit`, and everything downstream of it, models the evidently intended nanosecond difference of the two stamps.
- ROS plumbing: node construction, subscription, publisher, the `tf2_ros.Buffer` and the `TransformListener` created on each callback, logging, `main` and `rclpy.spin`. These are I/O and middleware.
- The lookup request itself: target `map`, the batch's frame and stamp, and the 0.01 s timeout. It is a call into the transform service. The model takes the service's answer as a parameter.
- `extract_points_from_pointcloud2`. It wraps `read_points(..., skip_nans=True)` from a library that is not part of this model. A `Batch` holds the points it returns.
- The quaternion arithmetic of `do_transform_point`. It is a foreign call over floating point, so the model takes it as the parameter `apply`.
- IEEE 754 arithmetic. Finite coordinates are reals, so the model ignores rounding near a threshold and rounding in `time_diff / 1e9`.
- The OverflowError of `** 2` on Python floats. At lines 190-194 and 218-222, a coordinate difference above about 1.3e154 makes the squaring raise. Nothing catches it, so the callback would stop after its partial appends and publish nothing. The model squares over the reals and does not model this error.
- `struct.pack`'s float32 rounding. It is represented by the parameter `f32`. The `OverflowError` that `struct.pack('f', ...)` raises for finite values beyond float32 range is not modelled.
- Native byte order. `struct.pack` without a prefix uses the host's order; the message declares little-endian, and the model encodes labels little-endian.
- Labels outside the uint32 range. `int(label)` could give one, and packing it would raise. In the model a label is a uint32 by its type.
- setup.py. It is packaging metadata.

## Findings

| source | as written | input that shows it | evidently intended | confidence | as-written member | corrected member |
|---|---|---|---|---|---|---|
| rob7_760_2024/object_det_cloud.py:50 | `transform.header.stamp - timestamp` subtracts two Time messages, which raises a TypeError that line 60 does not catch | any batch whose lookup succeeds, e.g. a transform stamped at the batch's own time | the skew in nanoseconds, from stamps converted with `Time.from_msg` as on line 45 | high; not executed | `MapBuilding.AsWrittenNeverMerges` | `Admission.Admit` |
