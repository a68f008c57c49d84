/**
 * SynchronizationUtilities: the fixed float layouts of vectors (3 floats), poses (7 floats:
 * position then rotation x, y, z, w) and full transforms (10 floats: pose then scale).
 */
module Codec {
  import opened Wire
  import opened Scene

  function PoseFloats(p: Pose): seq<Float32>
  {
    Vec3Floats(p.position) + QuatFloats(p.rotation)
  }

  function FullFloats(p: FullPose): seq<Float32>
  {
    Vec3Floats(p.position) + QuatFloats(p.rotation) + Vec3Floats(p.scale)
  }

  /** The values a pose occupies in a buffer: position x, y, z, then rotation x, y, z, w. */
  function EncodePose(p: Pose): seq<Value>
  {
    [F32(p.position.x), F32(p.position.y), F32(p.position.z),
     F32(p.rotation.x), F32(p.rotation.y), F32(p.rotation.z), F32(p.rotation.w)]
  }

  /** The values of a full transform: its pose, then scale x, y, z. */
  function EncodeFull(p: FullPose): seq<Value>
  {
    EncodePose(Pose(p.position, p.rotation)) + [F32(p.scale.x), F32(p.scale.y), F32(p.scale.z)]
  }

  function EncodeVec3(v: Vec3): seq<Value>
  {
    [F32(v.x), F32(v.y), F32(v.z)]
  }

  /** The encodings are the float layouts, one value per float: 12, 28 and 40 bytes. */
  lemma EncodeVec3IsFloats(v: Vec3)
    ensures EncodeVec3(v) == Floats(Vec3Floats(v)) && FloatBytes(|EncodeVec3(v)|) == 12
  {
    var fs := Vec3Floats(v);
    assert Floats(fs)[0] == F32(fs[0]);
  }

  lemma EncodePoseIsFloats(p: Pose)
    ensures EncodePose(p) == Floats(PoseFloats(p)) && FloatBytes(|EncodePose(p)|) == 28
  {
    var fs := PoseFloats(p);
    assert forall i :: 0 <= i < 7 ==> Floats(fs)[i] == EncodePose(p)[i];
  }

  lemma EncodeFullIsFloats(f: FullPose)
    ensures EncodeFull(f) == Floats(FullFloats(f)) && FloatBytes(|EncodeFull(f)|) == 40
  {
    var pose := Pose(f.position, f.rotation);
    assert FullFloats(f) == PoseFloats(pose) + Vec3Floats(f.scale);
    FloatsConcat(PoseFloats(pose), Vec3Floats(f.scale));
    EncodePoseIsFloats(pose);
    EncodeVec3IsFloats(f.scale);
  }

  /** Floats maps a concatenation to the concatenation of the values. */
  lemma {:induction false} FloatsConcat(a: seq<Float32>, b: seq<Float32>)
    ensures Floats(a + b) == Floats(a) + Floats(b)
    decreases |a|
  {
    if a != [] {
      assert (a + b)[1..] == a[1..] + b;
      FloatsConcat(a[1..], b);
    }
  }

  function DecodeVec3(data: seq<Value>, k: nat): Vec3
    requires FloatsAt(data, k, 3)
  {
    Vec3Of(ReadFloats(data, k, 3))
  }

  function DecodePose(data: seq<Value>, k: nat): Pose
    requires FloatsAt(data, k, 7)
  {
    var fs := ReadFloats(data, k, 7);
    Pose(Vec3Of(fs[..3]), QuatOf(fs[3..]))
  }

  function DecodeFull(data: seq<Value>, k: nat): FullPose
    requires FloatsAt(data, k, 10)
  {
    var fs := ReadFloats(data, k, 10);
    FullPose(Vec3Of(fs[..3]), QuatOf(fs[3..7]), Vec3Of(fs[7..]))
  }

  /** A vector written anywhere in a buffer reads back unchanged, x then y then z. */
  lemma DecodeEncodeVec3(prefix: seq<Value>, v: Vec3, suffix: seq<Value>)
    ensures FloatsAt(prefix + EncodeVec3(v) + suffix, |prefix|, 3)
    ensures DecodeVec3(prefix + EncodeVec3(v) + suffix, |prefix|) == v
  {
    EncodeVec3IsFloats(v);
    ReadFloatsOfFloats(prefix, Vec3Floats(v), suffix);
  }

  /** A pose written anywhere in a buffer reads back bit for bit. */
  lemma DecodeEncodePose(prefix: seq<Value>, p: Pose, suffix: seq<Value>)
    ensures FloatsAt(prefix + EncodePose(p) + suffix, |prefix|, 7)
    ensures DecodePose(prefix + EncodePose(p) + suffix, |prefix|) == p
  {
    EncodePoseIsFloats(p);
    ReadFloatsOfFloats(prefix, PoseFloats(p), suffix);
  }

  /** A full transform written anywhere in a buffer reads back bit for bit, scale included. */
  lemma DecodeEncodeFull(prefix: seq<Value>, p: FullPose, suffix: seq<Value>)
    ensures FloatsAt(prefix + EncodeFull(p) + suffix, |prefix|, 10)
    ensures DecodeFull(prefix + EncodeFull(p) + suffix, |prefix|) == p
  {
    EncodeFullIsFloats(p);
    ReadFloatsOfFloats(prefix, FullFloats(p), suffix);
  }

  /** The scale a global full read assigns: component-wise times the parent's lossy scale. */
  function ScaledBy(s: Vec3, parentLossy: Vec3, mul: (Float32, Float32) -> Float32): Vec3
  {
    Vec3(mul(s.x, parentLossy.x), mul(s.y, parentLossy.y), mul(s.z, parentLossy.z))
  }

  method WriteFloats(fs: seq<Float32>, writer: Writer)
    modifies writer
    ensures writer.data == old(writer.data) + Floats(fs)
  {
    for i := 0 to |fs|
      invariant writer.data == old(writer.data) + Floats(fs[..i])
    {
      assert Floats(fs[..i + 1]) == Floats(fs[..i]) + [F32(fs[i])];
      writer.WriteFloat(fs[i]);
    }
    assert fs[..|fs|] == fs;
  }

  method ReadFloatsFrom(reader: Reader, n: nat) returns (fs: seq<Float32>)
    requires FloatsAt(reader.data, reader.pos, n)
    modifies reader
    ensures reader.pos == old(reader.pos) + n
    ensures fs == ReadFloats(reader.data, old(reader.pos), n)
  {
    fs := [];
    for i := 0 to n
      invariant reader.pos == old(reader.pos) + i
      invariant fs == ReadFloats(reader.data, old(reader.pos), i)
    {
      ReadFloatsPrefix(reader.data, old(reader.pos), i);
      var f := reader.ReadFloat();
      fs := fs + [f];
    }
  }

  lemma {:induction false} ReadFloatsPrefix(data: seq<Value>, k: nat, i: nat)
    requires FloatsAt(data, k, i + 1)
    ensures ReadFloats(data, k, i + 1) == ReadFloats(data, k, i) + [data[k + i].f]
    decreases i
  {
    if i > 0 {
      ReadFloatsPrefix(data, k + 1, i - 1);
    }
  }

  /** WriteVector3ToStream: appends x, y, z. */
  method WriteVector3ToStream(val: Vec3, writer: Writer)
    modifies writer
    ensures writer.data == old(writer.data) + EncodeVec3(val)
  {
    writer.WriteFloat(val.x);
    writer.WriteFloat(val.y);
    writer.WriteFloat(val.z);
  }

  /** ReadVector3FromStream: consumes three floats (12 bytes). */
  method ReadVector3FromStream(reader: Reader) returns (v: Vec3)
    requires FloatsAt(reader.data, reader.pos, 3)
    modifies reader
    ensures reader.pos == old(reader.pos) + 3
    ensures v == DecodeVec3(reader.data, old(reader.pos))
  {
    var fs := ReadFloatsFrom(reader, 3);
    v := Vec3(fs[0], fs[1], fs[2]);
  }

  /** WriteTransformPoseToStream: appends the local (or global) position and rotation. */
  method WriteTransformPoseToStream(t: Transform, writer: Writer, local: bool)
    modifies writer
    ensures writer.data == old(writer.data) + EncodePose(if local then t.LocalPose() else t.GlobalPose())
  {
    if local {
      EncodePoseIsFloats(t.LocalPose());
      WriteFloats(PoseFloats(t.LocalPose()), writer);
    } else {
      EncodePoseIsFloats(t.GlobalPose());
      WriteFloats(PoseFloats(t.GlobalPose()), writer);
    }
  }

  /** ReadTransformPoseFromStream: consumes seven floats (28 bytes) and assigns them to one frame of `t`. */
  method ReadTransformPoseFromStream(t: Transform, reader: Reader, local: bool)
    requires FloatsAt(reader.data, reader.pos, 7)
    modifies t, reader
    ensures reader.pos == old(reader.pos) + 7
    ensures local ==> t.LocalPose() == DecodePose(reader.data, old(reader.pos))
    ensures !local ==> t.GlobalPose() == DecodePose(reader.data, old(reader.pos))
    ensures t.localScale == old(t.localScale)
  {
    var fs := ReadFloatsFrom(reader, 7);
    var p := Vec3(fs[0], fs[1], fs[2]);
    var r := Quat(fs[3], fs[4], fs[5], fs[6]);
    if local {
      t.SetLocalPose(p, r);
    } else {
      t.SetPositionAndRotation(p, r);
    }
  }

  /** WriteFullTransformToStream: appends position, rotation and the local (or lossy) scale. */
  method WriteFullTransformToStream(t: Transform, writer: Writer, local: bool)
    modifies writer
    ensures writer.data == old(writer.data) + EncodeFull(if local then t.LocalFull() else t.GlobalFull())
  {
    if local {
      EncodeFullIsFloats(t.LocalFull());
      WriteFloats(FullFloats(t.LocalFull()), writer);
    } else {
      EncodeFullIsFloats(t.GlobalFull());
      WriteFloats(FullFloats(t.GlobalFull()), writer);
    }
  }

  /**
   * ReadFullTransformFromStream: consumes ten floats (40 bytes). A global read cannot write the
   * lossy scale, so it sets the local scale to the read scale times the parent's lossy scale.
   */
  method ReadFullTransformFromStream(t: Transform, reader: Reader, local: bool, mul: (Float32, Float32) -> Float32)
    requires FloatsAt(reader.data, reader.pos, 10)
    modifies t, reader
    ensures reader.pos == old(reader.pos) + 10
    ensures local ==> t.LocalFull() == DecodeFull(reader.data, old(reader.pos))
    ensures !local ==> t.GlobalPose() == Pose(DecodeFull(reader.data, old(reader.pos)).position,
                                              DecodeFull(reader.data, old(reader.pos)).rotation)
    ensures !local && t.parent == null ==> t.localScale == DecodeFull(reader.data, old(reader.pos)).scale
    ensures !local && t.parent != null && t.parent != t ==>
      t.localScale == ScaledBy(DecodeFull(reader.data, old(reader.pos)).scale, old(t.parent.lossyScale), mul)
  {
    var fs := ReadFloatsFrom(reader, 10);
    var p := Vec3(fs[0], fs[1], fs[2]);
    var r := Quat(fs[3], fs[4], fs[5], fs[6]);
    var s := Vec3(fs[7], fs[8], fs[9]);
    if local {
      t.SetLocalPose(p, r);
      t.SetLocalScale(s);
    } else {
      t.SetPositionAndRotation(p, r);
      if t.parent != null {
        var ps := t.parent.lossyScale;
        t.SetLocalScale(Vec3(mul(s.x, ps.x), mul(s.y, ps.y), mul(s.z, ps.z)));
      } else {
        t.SetLocalScale(s);
      }
    }
  }

  /**
   * A local pose write followed by a local pose read of that buffer copies the source
   * transform's local position and rotation bit for bit onto the target.
   */
  method PoseRoundTrip(source: Transform, target: Transform) returns (reader: Reader)
    modifies target
    ensures fresh(reader) && reader.pos == 7
    ensures target.LocalPose() == old(source.LocalPose())
  {
    var writer := new Writer();
    WriteTransformPoseToStream(source, writer, true);
    reader := new Reader(writer.data);
    DecodeEncodePose([], source.LocalPose(), []);
    assert [] + EncodePose(source.LocalPose()) + [] == writer.data;
    ReadTransformPoseFromStream(target, reader, true);
  }

  /** The full-transform counterpart of PoseRoundTrip: position, rotation and scale. */
  method FullRoundTrip(source: Transform, target: Transform, mul: (Float32, Float32) -> Float32) returns (reader: Reader)
    modifies target
    ensures fresh(reader) && reader.pos == 10
    ensures target.LocalFull() == old(source.LocalFull())
  {
    var writer := new Writer();
    WriteFullTransformToStream(source, writer, true);
    reader := new Reader(writer.data);
    DecodeEncodeFull([], source.LocalFull(), []);
    assert [] + EncodeFull(source.LocalFull()) + [] == writer.data;
    ReadFullTransformFromStream(target, reader, true, mul);
  }
}
