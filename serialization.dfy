/** The record building of `publish_point_cloud`: the accumulated list packed
    as 16-byte records (x, y, z as float32, label as uint32, little-endian)
    and the PointCloud2 message around them. */
module Serialization {
  import opened Wrappers
  import opened Geometry

  type Byte = b: int | 0 <= b < 256

  /** Four bytes: one float32 or one uint32 on the wire. */
  type Word = s: seq<Byte> | |s| == 4 witness [0, 0, 0, 0]

  /** `struct.pack('f', v)`: the float32 bytes of a float64. Its rounding is
      not modelled, so it is a parameter. */
  type Float32Encoder = Float64 -> Word

  /** Bytes per record (`point_step`). */
  const PointStep: nat := 16

  /** `struct.pack('I', v)` on a little-endian host. */
  function EncodeU32(v: Label): (w: Word)
    ensures DecodeU32(w) == v
  {
    var q1 := v / 256;
    var q2 := q1 / 256;
    var q3 := q2 / 256;
    assert v == v % 256 + 256 * q1 && q1 == q1 % 256 + 256 * q2 && q2 == q2 % 256 + 256 * q3;
    assert q3 < 256;
    [v % 256, q1 % 256, q2 % 256, q3]
  }

  /** Reads a little-endian uint32. */
  function DecodeU32(w: Word): (v: int)
    ensures 0 <= v < 0x1_0000_0000
  {
    w[0] as int + 256 * (w[1] as int + 256 * (w[2] as int + 256 * (w[3] as int)))
  }

  /** `struct.pack('fffI', x, y, z, label)`. */
  function PackRecord(p: LabeledPoint, f32: Float32Encoder): (r: seq<Byte>)
    ensures |r| == PointStep as int
    ensures r[0..4] == f32(p.pos.x) && r[4..8] == f32(p.pos.y) && r[8..12] == f32(p.pos.z)
    ensures DecodeU32(r[12..16]) == p.labelId
  {
    var r := f32(p.pos.x) + f32(p.pos.y) + f32(p.pos.z) + EncodeU32(p.labelId);
    assert r[12..16] == EncodeU32(p.labelId);
    r
  }

  /** `cloud_data`: one packed record per point, in list order. */
  function Records(pts: seq<LabeledPoint>, f32: Float32Encoder): seq<seq<Byte>> {
    if pts == [] then [] else Records(pts[..|pts| - 1], f32) + [PackRecord(pts[|pts| - 1], f32)]
  }

  /** `b''.join(chunks)`. */
  function Join(chunks: seq<seq<Byte>>): seq<Byte> {
    if chunks == [] then [] else Join(chunks[..|chunks| - 1]) + chunks[|chunks| - 1]
  }

  /** The payload is 16 bytes per point, and the k-th 16-byte slice is the
      k-th point's record. */
  lemma {:induction false} PayloadLayout(pts: seq<LabeledPoint>, f32: Float32Encoder)
    ensures var data := Join(Records(pts, f32));
      && |data| == PointStep * |pts|
      && forall k :: 0 <= k < |pts| ==> data[16 * k..16 * k + 16] == PackRecord(pts[k], f32)
  {
    if pts != [] {
      var init := pts[..|pts| - 1];
      PayloadLayout(init, f32);
      var front := Join(Records(init, f32));
      var data := Join(Records(pts, f32));
      assert Records(pts, f32)[..|Records(pts, f32)| - 1] == Records(init, f32);
      assert data == front + PackRecord(pts[|pts| - 1], f32);
      forall k | 0 <= k < |pts|
        ensures data[16 * k..16 * k + 16] == PackRecord(pts[k], f32)
      {
        if k < |pts| - 1 {
          assert data[16 * k..16 * k + 16] == front[16 * k..16 * k + 16];
          assert pts[k] == init[k];
        } else {
          assert data[16 * k..16 * k + 16] == data[|front|..];
        }
      }
    }
  }

  /** One record as read back from the wire. */
  datatype WireRecord = WireRecord(x: Word, y: Word, z: Word, labelId: Label)

  /** What the documented layout promises a reader of one point's record. */
  function WireOf(p: LabeledPoint, f32: Float32Encoder): WireRecord {
    WireRecord(f32(p.pos.x), f32(p.pos.y), f32(p.pos.z), p.labelId)
  }

  /** Reads one 16-byte record by the field offsets 0, 4, 8 and 12. */
  function DecodeRecord(r: seq<Byte>): (w: WireRecord)
    requires |r| == PointStep as int
  {
    WireRecord(r[0..4], r[4..8], r[8..12], DecodeU32(r[12..16]))
  }

  /** Reads the consecutive 16-byte records of a payload. */
  function DecodeRecords(data: seq<Byte>): (rs: seq<WireRecord>)
    ensures |rs| == |data| / 16
  {
    seq(|data| / 16, k requires 0 <= k < |data| / 16 => DecodeRecord(data[16 * k..16 * k + 16]))
  }

  /** Reading the payload back gives, point by point and in order, the
      float32 encodings of x, y, z and the exact label. */
  lemma PayloadRoundTrip(pts: seq<LabeledPoint>, f32: Float32Encoder)
    ensures var rs := DecodeRecords(Join(Records(pts, f32)));
      |rs| == |pts| && forall k :: 0 <= k < |pts| ==> rs[k] == WireOf(pts[k], f32)
  {
    PayloadLayout(pts, f32);
    var data := Join(Records(pts, f32));
    var rs := DecodeRecords(data);
    forall k | 0 <= k < |pts|
      ensures rs[k] == WireOf(pts[k], f32)
    {
      assert rs[k] == DecodeRecord(PackRecord(pts[k], f32));
    }
  }

  /** PointField datatypes used here (sensor_msgs FLOAT32 and UINT32). */
  datatype FieldType = Float32 | UInt32

  datatype PointField = PointField(name: string, offset: nat, fieldType: FieldType, count: nat)

  /** The PointCloud2 message handed to the publisher. */
  datatype CloudMsg = CloudMsg(
    stamp: int,
    frameId: string,
    height: nat,
    width: nat,
    fields: seq<PointField>,
    isBigendian: bool,
    pointStep: nat,
    rowStep: nat,
    isDense: bool,
    data: seq<Byte>)

  const CloudFields: seq<PointField> := [
    PointField("x", 0, Float32, 1),
    PointField("y", 4, Float32, 1),
    PointField("z", 8, Float32, 1),
    PointField("label", 12, UInt32, 1)
  ]

  /** The message published for the accumulated list `pts` at clock time
      `now`, or `None` when the list is empty and nothing is published. */
  function PointCloudMessage(pts: seq<LabeledPoint>, now: int, f32: Float32Encoder): (msg: Option<CloudMsg>)
    ensures msg.None? <==> pts == []
    ensures msg.Some? ==>
      && msg.value.frameId == "map"
      && msg.value.height == 1
      && msg.value.width == |pts|
      && msg.value.pointStep == PointStep
      && msg.value.rowStep == PointStep * msg.value.width
      && |msg.value.data| == msg.value.rowStep
      && !msg.value.isBigendian
      && msg.value.fields == CloudFields
  {
    if pts == [] then None
    else
      PayloadLayout(pts, f32);
      Some(CloudMsg(now, "map", 1, |pts|, CloudFields, false, PointStep, PointStep * |pts|, true,
                    Join(Records(pts, f32))))
  }
}
