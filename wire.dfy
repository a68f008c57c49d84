/**
 * The message buffer shared by all named messages: a flat sequence of fixed-kind values
 * written by a writer and consumed in order by a reader with a cursor.
 */
module Wire {
  /** A 32-bit float kept as its bit pattern; the model never does arithmetic on it. */
  type Float32 = bv32

  datatype Vec3 = Vec3(x: Float32, y: Float32, z: Float32)
  datatype Quat = Quat(x: Float32, y: Float32, z: Float32, w: Float32)

  /** One value of a message buffer: a float (4 bytes), an int (4 bytes), a ulong (8 bytes) or a string. */
  datatype Value = F32(f: Float32) | I32(i: int) | U64(u: nat) | Str(s: string)

  /** Bytes occupied by `n` consecutive floats. */
  function FloatBytes(n: nat): nat { 4 * n }

  /** The values that hold the floats `fs`, in order. */
  function Floats(fs: seq<Float32>): (vs: seq<Value>)
    ensures |vs| == |fs|
    ensures forall i :: 0 <= i < |fs| ==> vs[i] == F32(fs[i])
  {
    if fs == [] then [] else [F32(fs[0])] + Floats(fs[1..])
  }

  /** `n` floats start at index `k` of `data`. */
  predicate FloatsAt(data: seq<Value>, k: nat, n: nat)
  {
    k + n <= |data| && forall i :: k <= i < k + n ==> data[i].F32?
  }

  /** The `n` floats that start at index `k`. */
  function ReadFloats(data: seq<Value>, k: nat, n: nat): (fs: seq<Float32>)
    requires FloatsAt(data, k, n)
    ensures |fs| == n
    decreases n
  {
    if n == 0 then [] else [data[k].f] + ReadFloats(data, k + 1, n - 1)
  }

  /** Floats written between any prefix and suffix read back as the same floats. */
  lemma {:induction false} ReadFloatsOfFloats(prefix: seq<Value>, fs: seq<Float32>, suffix: seq<Value>)
    ensures FloatsAt(prefix + Floats(fs) + suffix, |prefix|, |fs|)
    ensures ReadFloats(prefix + Floats(fs) + suffix, |prefix|, |fs|) == fs
    decreases |fs|
  {
    var data := prefix + Floats(fs) + suffix;
    assert forall i :: |prefix| <= i < |prefix| + |fs| ==> data[i] == F32(fs[i - |prefix|]);
    if fs != [] {
      assert data == (prefix + [F32(fs[0])]) + Floats(fs[1..]) + suffix;
      ReadFloatsOfFloats(prefix + [F32(fs[0])], fs[1..], suffix);
    }
  }

  function Vec3Floats(v: Vec3): seq<Float32> { [v.x, v.y, v.z] }
  function QuatFloats(q: Quat): seq<Float32> { [q.x, q.y, q.z, q.w] }

  function Vec3Of(fs: seq<Float32>): Vec3
    requires |fs| == 3
  {
    Vec3(fs[0], fs[1], fs[2])
  }

  function QuatOf(fs: seq<Float32>): Quat
    requires |fs| == 4
  {
    Quat(fs[0], fs[1], fs[2], fs[3])
  }

  /** The growing buffer of one outgoing message (FastBufferWriter). */
  class Writer {
    var data: seq<Value>

    constructor ()
      ensures data == []
    {
      data := [];
    }

    method WriteFloat(f: Float32)
      modifies this
      ensures data == old(data) + [F32(f)]
    {
      data := data + [F32(f)];
    }

    method WriteInt(i: int)
      modifies this
      ensures data == old(data) + [I32(i)]
    {
      data := data + [I32(i)];
    }

    method WriteULong(u: nat)
      modifies this
      ensures data == old(data) + [U64(u)]
    {
      data := data + [U64(u)];
    }

    method WriteString(s: string)
      modifies this
      ensures data == old(data) + [Str(s)]
    {
      data := data + [Str(s)];
    }
  }

  /** A received message with a read cursor (FastBufferReader). */
  class Reader {
    const data: seq<Value>
    var pos: nat

    constructor (payload: seq<Value>)
      ensures data == payload && pos == 0
    {
      data := payload;
      pos := 0;
    }

    method ReadFloat() returns (f: Float32)
      requires FloatsAt(data, pos, 1)
      modifies this
      ensures f == data[old(pos)].f && pos == old(pos) + 1
    {
      f := data[pos].f;
      pos := pos + 1;
    }

    method ReadInt() returns (i: int)
      requires pos < |data| && data[pos].I32?
      modifies this
      ensures i == data[old(pos)].i && pos == old(pos) + 1
    {
      i := data[pos].i;
      pos := pos + 1;
    }

    method ReadULong() returns (u: nat)
      requires pos < |data| && data[pos].U64?
      modifies this
      ensures u == data[old(pos)].u && pos == old(pos) + 1
    {
      u := data[pos].u;
      pos := pos + 1;
    }

    method ReadString() returns (s: string)
      requires pos < |data| && data[pos].Str?
      modifies this
      ensures s == data[old(pos)].s && pos == old(pos) + 1
    {
      s := data[pos].s;
      pos := pos + 1;
    }
  }
}
