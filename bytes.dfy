/**
 * Byte-level building blocks of the request codec in vcc_py/sock.py: the struct
 * conversion '<i' (a signed 32-bit integer, little-endian) and socket.htonl /
 * socket.ntohl, which on a little-endian host reverse the four bytes of an
 * unsigned 32-bit value and raise OverflowError outside [0, 2^32).
 */
module Bytes {
  import opened Wrappers

  newtype byte = x: int | 0 <= x < 256

  const TWO_31: int := 0x8000_0000
  const TWO_32: int := 0x1_0000_0000

  /** Fits a C `uint32_t` (what htonl/ntohl accept). */
  predicate IsU32(x: int) { 0 <= x < TWO_32 }

  /** Fits a C `int32_t` (what struct's 'i' accepts). */
  predicate IsI32(x: int) { -TWO_31 <= x < TWO_31 }

  /** The unsigned value of four bytes, least significant first. */
  function FromLE(b: seq<byte>): (u: int)
    requires |b| == 4
    ensures IsU32(u)
  {
    b[0] as int + 256 * (b[1] as int + 256 * (b[2] as int + 256 * b[3] as int))
  }

  /** The four bytes of an unsigned 32-bit value, least significant first. */
  function ToLE(u: int): (b: seq<byte>)
    requires IsU32(u)
    ensures |b| == 4 && FromLE(b) == u
  {
    var q1 := u / 256;
    var q2 := q1 / 256;
    [(u % 256) as byte, (q1 % 256) as byte, (q2 % 256) as byte, (q2 / 256) as byte]
  }

  /** ToLE and FromLE are inverse bijections between [0, 2^32) and four-byte sequences. */
  lemma ToLEFromLE(b: seq<byte>)
    requires |b| == 4
    ensures ToLE(FromLE(b)) == b
  {
    var u := FromLE(b);
    var t := b[1] as int + 256 * (b[2] as int + 256 * b[3] as int);
    assert u == b[0] as int + 256 * t;
    assert u / 256 == t && u % 256 == b[0] as int;
    var t2 := b[2] as int + 256 * b[3] as int;
    assert t == b[1] as int + 256 * t2;
    assert t / 256 == t2 && t % 256 == b[1] as int;
    assert t2 / 256 == b[3] as int && t2 % 256 == b[2] as int;
  }

  function Reverse4(b: seq<byte>): (r: seq<byte>)
    requires |b| == 4
    ensures |r| == 4 && forall k :: 0 <= k < 4 ==> r[k] == b[3 - k]
  {
    [b[3], b[2], b[1], b[0]]
  }

  /** The value whose little-endian bytes are the big-endian bytes of u. */
  function ByteSwap(u: int): (r: int)
    requires IsU32(u)
    ensures IsU32(r)
    ensures ToLE(r) == Reverse4(ToLE(u))
  {
    ToLEFromLE(Reverse4(ToLE(u)));
    FromLE(Reverse4(ToLE(u)))
  }

  /** Swapping twice gives the value back, so ntohl undoes htonl. */
  lemma ByteSwapInvolution(u: int)
    requires IsU32(u)
    ensures ByteSwap(ByteSwap(u)) == u
  {
    var r := ByteSwap(u);
    assert ToLE(ByteSwap(r)) == Reverse4(Reverse4(ToLE(u))) == ToLE(u);
    assert FromLE(ToLE(ByteSwap(r))) == FromLE(ToLE(u));
  }

  /** socket.htonl (and socket.ntohl, the same operation) on a little-endian host; None is OverflowError. */
  function Htonl(x: int): (r: Option<int>)
    ensures r.None? <==> !IsU32(x)
    ensures r.Some? ==> IsU32(r.value) && ToLE(r.value) == Reverse4(ToLE(x))
  {
    if IsU32(x) then Some(ByteSwap(x)) else None
  }

  /** struct.pack('<i', v): four bytes of v in two's complement, little-endian; None is struct.error. */
  function PackI32(v: int): (r: Option<seq<byte>>)
    ensures r.None? <==> !IsI32(v)
    ensures r.Some? ==> |r.value| == 4
    ensures r.Some? && v >= 0 ==> r.value == ToLE(v)
    ensures r.Some? && v < 0 ==> r.value == ToLE(v + TWO_32)
  {
    if !IsI32(v) then None
    else if v >= 0 then Some(ToLE(v))
    else Some(ToLE(v + TWO_32))
  }

  /** struct.unpack('<i', b): the signed value of four little-endian bytes. */
  function UnpackI32(b: seq<byte>): (v: int)
    requires |b| == 4
    ensures IsI32(v)
    ensures v >= 0 <==> b[3] < 128
    ensures v % TWO_32 == FromLE(b)
  {
    var u := FromLE(b);
    if u >= TWO_31 then u - TWO_32 else u
  }

  /** Unpacking what '<i' packed gives back the integer. */
  lemma UnpackPackI32(v: int)
    requires IsI32(v)
    ensures PackI32(v).Some? && UnpackI32(PackI32(v).value) == v
  {
  }

  /** A value packed after htonl appears on the wire most significant byte first (network order). */
  lemma HtonlIsBigEndian(x: int)
    requires IsU32(x) && ByteSwap(x) < TWO_31
    ensures PackI32(Htonl(x).value) == Some(Reverse4(ToLE(x)))
  {
  }
}
