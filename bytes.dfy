/**
 * The Node `Buffer` operations the decoder uses, as functions over byte
 * sequences: `subarray` and the little-endian reads `readUInt32LE`,
 * `readUInt16LE` and `readInt16LE` (two's complement), which throw a
 * RangeError when they would run outside the buffer.
 */
module Bytes {
  import opened Failures

  type byte = b: int | 0 <= b < 256

  const Sentinel32: nat := 0xFFFF_FFFF

  /** A `subarray` index: negative counts from the end; the result lies in `0..len`. */
  function Clamp(i: int, len: nat): (r: nat)
    ensures r <= len
    ensures 0 <= i <= len ==> r == i
    ensures i > len ==> r == len
    ensures i < 0 ==> r == if len + i < 0 then 0 else len + i
  {
    if i < 0 then (if len + i < 0 then 0 else len + i)
    else if i > len then len
    else i
  }

  /** `buf.subarray(start, end)`: clamped, empty when the end comes before the start. */
  function Subarray(buf: seq<byte>, start: int, end: int): (w: seq<byte>)
    ensures 0 <= start <= end <= |buf| ==> w == buf[start..end]
    ensures 0 <= start <= |buf| < end ==> w == buf[start..]
  {
    var b := Clamp(start, |buf|);
    var e := Clamp(end, |buf|);
    if e <= b then [] else buf[b..e]
  }

  /** `buf.readUInt16LE(offset)`. */
  function ReadUInt16LE(buf: seq<byte>, offset: int): (r: Result<nat>)
    ensures r.Success? <==> 0 <= offset && offset + 2 <= |buf|
    ensures r.Failure? ==> r.error == OutOfRange(offset)
    ensures r.Success? ==> r.value < 0x1_0000
  {
    if 0 <= offset && offset + 2 <= |buf| then Success(buf[offset] as int + 0x100 * buf[offset + 1] as int)
    else Failure(OutOfRange(offset))
  }

  /** `buf.readInt16LE(offset)`: the same two bytes read as a two's-complement integer. */
  function ReadInt16LE(buf: seq<byte>, offset: int): (r: Result<int>)
    ensures r.Success? <==> 0 <= offset && offset + 2 <= |buf|
    ensures r.Failure? ==> r.error == OutOfRange(offset)
    ensures r.Success? ==> -0x8000 <= r.value < 0x8000
    ensures r.Success? ==> (r.value + 0x1_0000) % 0x1_0000 == ReadUInt16LE(buf, offset).value
  {
    var u :- ReadUInt16LE(buf, offset);
    Success(if u >= 0x8000 then u - 0x1_0000 else u)
  }

  /** `buf.readUInt32LE(offset)`. */
  function ReadUInt32LE(buf: seq<byte>, offset: int): (r: Result<nat>)
    ensures r.Success? <==> 0 <= offset && offset + 4 <= |buf|
    ensures r.Failure? ==> r.error == OutOfRange(offset)
    ensures r.Success? ==> r.value <= Sentinel32
  {
    if 0 <= offset && offset + 4 <= |buf| then
      Success(buf[offset] as int + 0x100 * buf[offset + 1] as int
              + 0x1_0000 * buf[offset + 2] as int + 0x100_0000 * buf[offset + 3] as int)
    else Failure(OutOfRange(offset))
  }

  /** The two little-endian bytes of an unsigned 16-bit value. */
  function EncodeUInt16LE(v: nat): (bs: seq<byte>)
    requires v < 0x1_0000
    ensures |bs| == 2
  {
    [v % 0x100, v / 0x100]
  }

  /** The two little-endian bytes of a signed 16-bit value in two's complement. */
  function EncodeInt16LE(x: int): (bs: seq<byte>)
    requires -0x8000 <= x < 0x8000
    ensures |bs| == 2
  {
    EncodeUInt16LE(if x < 0 then x + 0x1_0000 else x)
  }

  /** The four little-endian bytes of an unsigned 32-bit value. */
  function EncodeUInt32LE(v: nat): (bs: seq<byte>)
    requires v <= Sentinel32
    ensures |bs| == 4
  {
    var q1 := v / 0x100;
    var q2 := q1 / 0x100;
    [v % 0x100, q1 % 0x100, q2 % 0x100, q2 / 0x100]
  }

  /** Reading back an encoded 16-bit value, wherever it sits, gives the value. */
  lemma ReadEncodedUInt16(pre: seq<byte>, v: nat, post: seq<byte>)
    requires v < 0x1_0000
    ensures ReadUInt16LE(pre + EncodeUInt16LE(v) + post, |pre|) == Success(v)
  {
    var buf := pre + EncodeUInt16LE(v) + post;
    assert buf[|pre|] == v % 0x100 && buf[|pre| + 1] == v / 0x100;
  }

  /** Reading back an encoded signed 16-bit value gives the value. */
  lemma ReadEncodedInt16(pre: seq<byte>, x: int, post: seq<byte>)
    requires -0x8000 <= x < 0x8000
    ensures ReadInt16LE(pre + EncodeInt16LE(x) + post, |pre|) == Success(x)
  {
    ReadEncodedUInt16(pre, if x < 0 then x + 0x1_0000 else x, post);
  }

  /** Reading back an encoded 32-bit value, wherever it sits, gives the value. */
  lemma ReadEncodedUInt32(pre: seq<byte>, v: nat, post: seq<byte>)
    requires v <= Sentinel32
    ensures ReadUInt32LE(pre + EncodeUInt32LE(v) + post, |pre|) == Success(v)
  {
    var buf := pre + EncodeUInt32LE(v) + post;
    var o := |pre|;
    var q1 := v / 0x100;
    var q2 := q1 / 0x100;
    assert v == v % 0x100 + 0x100 * q1;
    assert q1 == q1 % 0x100 + 0x100 * q2;
    assert q2 == q2 % 0x100 + 0x100 * (q2 / 0x100);
    assert buf[o] == v % 0x100 && buf[o + 1] == q1 % 0x100;
    assert buf[o + 2] == q2 % 0x100 && buf[o + 3] == q2 / 0x100;
  }

  /** Every two bytes are the encoding of the value read from them. */
  lemma EncodeReadUInt16(bs: seq<byte>)
    requires |bs| == 2
    ensures EncodeUInt16LE(ReadUInt16LE(bs, 0).value) == bs
  {
  }

  /** Every four bytes are the encoding of the value read from them. */
  lemma EncodeReadUInt32(bs: seq<byte>)
    requires |bs| == 4
    ensures EncodeUInt32LE(ReadUInt32LE(bs, 0).value) == bs
  {
    var v := ReadUInt32LE(bs, 0).value;
    var high2 := bs[2] as int + 0x100 * bs[3] as int;
    var high1 := bs[1] as int + 0x100 * high2;
    assert v == bs[0] as int + 0x100 * high1;
    DivMod(bs[0] as int, high1);
    DivMod(bs[1] as int, high2);
    DivMod(bs[2] as int, bs[3] as int);
  }

  /** Dividing `low + 0x100 * high` by `0x100` gives `high`, remainder `low`, when `low` is a byte. */
  lemma DivMod(low: int, high: int)
    requires 0 <= low < 0x100
    ensures (low + 0x100 * high) / 0x100 == high
    ensures (low + 0x100 * high) % 0x100 == low
  {
  }
}
