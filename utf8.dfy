/**
 * Python's str.encode() and bytes.decode() with the default strict UTF-8 codec,
 * written out so that the codec's round trip and its treatment of NUL can be
 * proved. Dafny's `char` is a Unicode scalar value, so every string encodes.
 */
module Utf8 {
  import opened Wrappers
  import opened Bytes

  predicate IsCont(b: byte) { 0x80 <= b < 0xC0 }

  /** The UTF-8 encoding of one scalar value: one to four bytes. */
  function EncodeChar(c: char): (r: seq<byte>)
    ensures 1 <= |r| <= 4
    ensures (|r| == 1) <==> (c as int < 0x80)
    ensures r == [0] <==> c == '\0'
  {
    var n := c as int;
    if n < 0x80 then [n as byte]
    else if n < 0x800 then [(0xC0 + n / 64) as byte, (0x80 + n % 64) as byte]
    else if n < 0x10000 then
      [(0xE0 + n / 4096) as byte, (0x80 + (n / 64) % 64) as byte, (0x80 + n % 64) as byte]
    else
      [(0xF0 + n / 262144) as byte, (0x80 + (n / 4096) % 64) as byte,
       (0x80 + (n / 64) % 64) as byte, (0x80 + n % 64) as byte]
  }

  /** str.encode(): the concatenated encodings of the characters. */
  function Encode(s: string): (r: seq<byte>)
    ensures |s| <= |r| <= 4 * |s|
    ensures |r| == |s| <==> forall k :: 0 <= k < |s| ==> s[k] as int < 0x80
  {
    if s == [] then [] else EncodeChar(s[0]) + Encode(s[1..])
  }

  /**
   * Decodes one scalar value at the front of b, with the strict decoder's checks
   * (no overlong forms, no surrogates, nothing above U+10FFFF); it returns the
   * character and how many bytes it used.
   */
  function DecodeChar(b: seq<byte>): (r: Option<(char, nat)>)
    requires |b| > 0
    ensures r.Some? ==> 1 <= r.value.1 <= |b| && r.value.1 <= 4
  {
    var b0 := b[0] as int;
    if b0 < 0x80 then Some((b0 as char, 1))
    else if 0xC2 <= b0 < 0xE0 then
      if |b| >= 2 && IsCont(b[1]) then
        Some((((b0 - 0xC0) * 64 + (b[1] as int - 0x80)) as char, 2))
      else None
    else if 0xE0 <= b0 < 0xF0 then
      if |b| >= 3 && IsCont(b[1]) && IsCont(b[2])
         && (b0 == 0xE0 ==> b[1] >= 0xA0) && (b0 == 0xED ==> b[1] < 0xA0) then
        Some((((b0 - 0xE0) * 4096 + (b[1] as int - 0x80) * 64 + (b[2] as int - 0x80)) as char, 3))
      else None
    else if 0xF0 <= b0 < 0xF5 then
      if |b| >= 4 && IsCont(b[1]) && IsCont(b[2]) && IsCont(b[3])
         && (b0 == 0xF0 ==> b[1] >= 0x90) && (b0 == 0xF4 ==> b[1] < 0x90) then
        Some((((b0 - 0xF0) * 262144 + (b[1] as int - 0x80) * 4096
               + (b[2] as int - 0x80) * 64 + (b[3] as int - 0x80)) as char, 4))
      else None
    else None
  }

  /** bytes.decode(): Some(text) when the whole sequence is valid UTF-8, None where Python raises UnicodeDecodeError. */
  function Decode(b: seq<byte>): (r: Option<string>)
    ensures r.Some? ==> |r.value| <= |b|
    ensures r.Some? && b != [] ==> DecodeChar(b).Some? && r.value != []
    decreases |b|
  {
    if b == [] then Some([])
    else match DecodeChar(b)
      case None => None
      case Some((c, n)) =>
        match Decode(b[n..])
        case None => None
        case Some(rest) => Some([c] + rest)
  }

  predicate IsValid(b: seq<byte>) { Decode(b).Some? }

  /** Decoding the encoding of a character reads exactly that character back. */
  lemma DecodeEncodeChar(c: char, rest: seq<byte>)
    ensures DecodeChar(EncodeChar(c) + rest) == Some((c, |EncodeChar(c)|))
  {
    var n := c as int;
    if n < 0x80 {
    } else if n < 0x800 {
      DecodeEncodeTwo(c, rest);
    } else if n < 0x10000 {
      DecodeEncodeThree(c, rest);
    } else {
      DecodeEncodeFour(c, rest);
    }
  }

  lemma DecodeEncodeTwo(c: char, rest: seq<byte>)
    requires 0x80 <= c as int < 0x800
    ensures DecodeChar(EncodeChar(c) + rest) == Some((c, 2))
  {
    var n := c as int;
    var b := EncodeChar(c) + rest;
    assert b[0] as int == 0xC0 + n / 64 && b[1] as int == 0x80 + n % 64;
    assert (n / 64) * 64 + n % 64 == n;
  }

  lemma DecodeEncodeThree(c: char, rest: seq<byte>)
    requires 0x800 <= c as int < 0x10000
    ensures DecodeChar(EncodeChar(c) + rest) == Some((c, 3))
  {
    var n := c as int;
    var q := n / 64;
    var b := EncodeChar(c) + rest;
    assert n / 4096 == q / 64;
    assert b[0] as int == 0xE0 + q / 64 && b[1] as int == 0x80 + q % 64 && b[2] as int == 0x80 + n % 64;
    assert (q / 64) * 4096 + (q % 64) * 64 + n % 64 == n;
  }

  lemma DecodeEncodeFour(c: char, rest: seq<byte>)
    requires 0x10000 <= c as int
    ensures DecodeChar(EncodeChar(c) + rest) == Some((c, 4))
  {
    var n := c as int;
    var q := n / 64;
    var q2 := q / 64;
    var b := EncodeChar(c) + rest;
    assert n / 4096 == q2 && n / 262144 == q2 / 64;
    assert b[0] as int == 0xF0 + q2 / 64 && b[1] as int == 0x80 + q2 % 64;
    assert b[2] as int == 0x80 + q % 64 && b[3] as int == 0x80 + n % 64;
    assert (q2 / 64) * 262144 + (q2 % 64) * 4096 + (q % 64) * 64 + n % 64 == n;
  }

  /** The bytes a successful DecodeChar consumed are exactly the encoding of the character it returned. */
  lemma EncodeDecodeChar(b: seq<byte>)
    requires |b| > 0 && DecodeChar(b).Some?
    ensures EncodeChar(DecodeChar(b).value.0) == b[..DecodeChar(b).value.1]
  {
    var b0 := b[0] as int;
    var (c, n) := DecodeChar(b).value;
    var v := c as int;
    if b0 < 0x80 {
    } else if b0 < 0xE0 {
      var x1 := b[1] as int - 0x80;
      assert v == (b0 - 0xC0) * 64 + x1;
      assert v / 64 == b0 - 0xC0 && v % 64 == x1;
    } else if b0 < 0xF0 {
      var x1 := b[1] as int - 0x80;
      var x2 := b[2] as int - 0x80;
      var q := (b0 - 0xE0) * 64 + x1;
      assert v == q * 64 + x2;
      assert v / 64 == q && v % 64 == x2;
      assert q / 64 == b0 - 0xE0 && q % 64 == x1;
      assert v / 4096 == q / 64;
      assert 0x800 <= v < 0x10000;
    } else {
      var x1 := b[1] as int - 0x80;
      var x2 := b[2] as int - 0x80;
      var x3 := b[3] as int - 0x80;
      var q2 := (b0 - 0xF0) * 64 + x1;
      var q := q2 * 64 + x2;
      assert v == q * 64 + x3;
      assert v / 64 == q && v % 64 == x3;
      assert q / 64 == q2 && q % 64 == x2;
      assert q2 / 64 == b0 - 0xF0 && q2 % 64 == x1;
      assert v / 4096 == q2 && v / 262144 == q2 / 64;
      assert 0x10000 <= v;
    }
  }

  /** The other round trip: a byte sequence that decodes is the encoding of the text it decodes to, so valid UTF-8 and strings correspond one to one. */
  lemma {:induction false} EncodeDecode(b: seq<byte>, s: string)
    requires Decode(b) == Some(s)
    ensures Encode(s) == b
    decreases |b|
  {
    if b != [] {
      DecodeCons(b);
      var c := DecodeChar(b).value.0;
      var n := DecodeChar(b).value.1;
      var t := Decode(b[n..]).value;
      assert EncodeChar(c) == b[..n] by {
        EncodeDecodeChar(b);
      }
      assert Encode(t) == b[n..] by {
        EncodeDecode(b[n..], t);
      }
      EncodeGlue(b, n, c, t, s);
    }
  }

  /** How one decoding step and the decode of the rest fit back together under Encode. */
  lemma EncodeGlue(b: seq<byte>, n: nat, c: char, t: string, s: string)
    requires n <= |b| && EncodeChar(c) == b[..n] && Encode(t) == b[n..] && s == [c] + t
    ensures Encode(s) == b
  {
    EncodeCons(c, t);
    assert b == b[..n] + b[n..];
  }

  /** A successful decode is the first character followed by the decode of the remaining bytes. */
  lemma DecodeCons(b: seq<byte>)
    requires b != [] && Decode(b).Some?
    ensures DecodeChar(b).Some?
    ensures var n := DecodeChar(b).value.1;
      Decode(b[n..]).Some? && Decode(b).value == [DecodeChar(b).value.0] + Decode(b[n..]).value
  {
  }

  lemma EncodeCons(c: char, t: string)
    ensures Encode([c] + t) == EncodeChar(c) + Encode(t)
  {
    assert ([c] + t)[1..] == t;
  }

  /** Encoding distributes over concatenation. */
  lemma {:induction false} EncodeAppend(s: string, t: string)
    ensures Encode(s + t) == Encode(s) + Encode(t)
  {
    if s == [] {
      assert s + t == t;
    } else {
      assert (s + t)[1..] == s[1..] + t;
      EncodeAppend(s[1..], t);
    }
  }

  /** Round trip: decoding what str.encode() produced gives the string back. */
  lemma {:induction false} DecodeEncode(s: string)
    ensures Decode(Encode(s)) == Some(s)
  {
    if s != [] {
      var e := EncodeChar(s[0]);
      DecodeEncodeChar(s[0], Encode(s[1..]));
      assert (e + Encode(s[1..]))[|e|..] == Encode(s[1..]);
      DecodeEncode(s[1..]);
      assert [s[0]] + s[1..] == s;
    }
  }

  /** Only U+0000 encodes to a NUL byte: every byte of a multi-byte encoding has its top bit set. */
  lemma {:induction false} EncodeNulFree(s: string)
    ensures (0 as byte in Encode(s)) <==> ('\0' in s)
  {
    if s != [] {
      EncodeNulFree(s[1..]);
      var e := EncodeChar(s[0]);
      assert Encode(s) == e + Encode(s[1..]);
      if |e| > 1 {
        assert forall k :: 0 <= k < |e| ==> e[k] != 0;
      }
      assert s == [s[0]] + s[1..];
    }
  }

  /** The string of k NUL characters. */
  function Nuls(k: nat): (r: string)
    ensures |r| == k && forall i :: 0 <= i < k ==> r[i] == '\0'
  {
    if k == 0 then [] else ['\0'] + Nuls(k - 1)
  }

  /** The sequence of k zero bytes. */
  function Zeros(k: nat): (r: seq<byte>)
    ensures |r| == k && forall i :: 0 <= i < k ==> r[i] == 0
  {
    if k == 0 then [] else [0 as byte] + Zeros(k - 1)
  }

  /** NUL characters encode to zero bytes, one each. */
  lemma {:induction false} EncodeNuls(k: nat)
    ensures Encode(Nuls(k)) == Zeros(k)
  {
    if k > 0 {
      assert Nuls(k)[1..] == Nuls(k - 1);
      EncodeNuls(k - 1);
    }
  }

  /** A valid prefix does not rescue an invalid remainder: the whole sequence fails to decode. */
  lemma {:induction false} DecodeInvalidTail(s: string, tail: seq<byte>)
    requires Decode(tail).None?
    ensures Decode(Encode(s) + tail).None?
  {
    if s != [] {
      var e := EncodeChar(s[0]);
      assert Encode(s) + tail == e + (Encode(s[1..]) + tail);
      DecodeEncodeChar(s[0], Encode(s[1..]) + tail);
      assert (e + (Encode(s[1..]) + tail))[|e|..] == Encode(s[1..]) + tail;
      DecodeInvalidTail(s[1..], tail);
    } else {
      assert Encode(s) + tail == tail;
    }
  }
}
