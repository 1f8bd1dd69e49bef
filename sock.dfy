/**
 * The request-frame codec and connection state of vcc_py/sock.py.
 *
 * `send` packs a 512-byte frame with struct format "<iiiii32s460s": magic, type,
 * uid and session go through socket.htonl first (so on a little-endian host they
 * appear big-endian), flags is packed as it is, and the two text fields are
 * `(text + "\0").encode()` padded with NULs or cut to their widths. `recv`
 * unpacks such a frame, decodes both text fields and checks the magic number.
 * The socket itself is "bytes out / bytes in": sent frames are recorded and the
 * bytes a receive returned are a parameter.
 */
module Sock {
  import opened Wrappers
  import opened Bytes
  import Utf8
  import opened Text
  import opened Constants

  /** The logical content of a request frame, the record plugin hooks receive. */
  datatype Request = Request(reqType: int, uid: int, session: int, flags: int, usrname: string, msg: string)

  /**
   * The keyword arguments of AsyncConnection.send. `session` and `usrname` are
   * None when the caller omits them (they then default to the connection's own).
   */
  datatype SendArgs = SendArgs(
    magic: int, reqType: int, uid: int, session: Option<int>, flags: int, usrname: Option<string>, msg: string)

  /** send's defaults: magic VCC_MAGIC, type MSG_SEND, uid 0, flags 0, empty message. */
  const DEFAULT_SEND: SendArgs := SendArgs(VCC_MAGIC, MSG_SEND, 0, None, 0, None, "")

  /** What send raises before writing anything: OverflowError from htonl, or struct.error from pack. */
  datatype SendError = HtonlOverflow | StructError

  /** Why recv raises: struct.error on a buffer that is not 512 bytes, OverflowError from ntohl on a negative magic, or a wrong magic. */
  datatype RecvError = UnpackError | MagicOverflow | BadMagic

  /** The tuple recv returns: decoded integers, the decoded and the raw username, the decoded and the raw message. */
  datatype Received = Received(
    reqType: int, uid: int, session: int, flags: int,
    usrname: string, usrnameRaw: seq<byte>, msg: string, msgRaw: seq<byte>)

  /** The request send describes, once omitted session and username are taken from the connection. */
  function Resolve(args: SendArgs, sess: int, usrname: string): (req: Request)
    ensures req.reqType == args.reqType && req.uid == args.uid && req.flags == args.flags && req.msg == args.msg
    ensures req.session == (if args.session.Some? then args.session.value else sess)
    ensures req.usrname == (if args.usrname.Some? then args.usrname.value else usrname)
  {
    Request(args.reqType, args.uid, args.session.GetOr(sess), args.flags, args.usrname.GetOr(usrname), args.msg)
  }

  // ---------------------------------------------------------------- integers

  /** bad_ntohl: socket.ntohl, but -1 where ntohl would raise OverflowError. */
  function BadNtohl(v: int): (r: int)
    ensures r == -1 <==> !IsU32(v)
    ensures r != -1 ==> IsU32(r) && ByteSwap(r) == v
  {
    if IsU32(v) then ByteSwapInvolution(v); ByteSwap(v) else -1
  }

  /** An integer that htonl accepts and whose swapped value still fits struct's signed 'i'. */
  predicate FitsWire(x: int)
  {
    IsU32(x) && ByteSwap(x) < TWO_31
  }

  /** htonl followed by '<i': the four bytes a network-order field occupies. */
  function PackNetworkInt(x: int): (r: Result<seq<byte>, SendError>)
    ensures r.Ok? <==> FitsWire(x)
    ensures r.Ok? ==> r.value == Reverse4(ToLE(x))
  {
    match Htonl(x)
    case None => Err(HtonlOverflow)
    case Some(n) => if n < TWO_31 then Ok(ToLE(n)) else Err(StructError)
  }

  // ---------------------------------------------------------------- text fields

  /** struct's 'Ns' conversion: the bytes cut to `width`, or padded to it with zero bytes. */
  function FixedField(b: seq<byte>, width: nat): (r: seq<byte>)
    ensures |r| == width
    ensures r[..if |b| < width then |b| else width] == b[..if |b| < width then |b| else width]
    ensures forall k :: |b| <= k < width ==> r[k] == 0
  {
    if |b| >= width then b[..width] else b + Utf8.Zeros(width - |b|)
  }

  /** The bytes a text occupies in a field of the given width: `(text + "\0").encode()` as 'Ns' packs it. */
  function TextField(text: string, width: nat): (r: seq<byte>)
    ensures |r| == width
  {
    FixedField(Utf8.Encode(text + "\0"), width)
  }

  /** The hexadecimal digits Python's repr uses. */
  const HEX: string := "0123456789abcdef"

  /** The quote repr(bytes) chooses: a double quote when the bytes contain a single quote and no double quote. */
  function ReprQuote(b: seq<byte>): (q: byte)
    ensures q == 0x22 || q == 0x27
  {
    if 0x27 in b && 0x22 !in b then 0x22 else 0x27
  }

  predicate IsPrintableAscii(c: char) { 0x20 <= c as int < 0x7F }

  /** How repr(bytes) renders one byte between the chosen quotes. */
  function ReprByte(x: byte, quote: byte): (s: string)
    requires quote == 0x22 || quote == 0x27
    ensures 1 <= |s| <= 4 && forall k :: 0 <= k < |s| ==> IsPrintableAscii(s[k])
  {
    if x == quote || x == 0x5C then ['\\', x as int as char]
    else if x == 0x09 then "\\t"
    else if x == 0x0A then "\\n"
    else if x == 0x0D then "\\r"
    else if x < 0x20 || x >= 0x7F then ['\\', 'x', HEX[x as int / 16], HEX[x as int % 16]]
    else [x as int as char]
  }

  function ReprBody(b: seq<byte>, quote: byte): (s: string)
    requires quote == 0x22 || quote == 0x27
    ensures |s| >= |b|
    ensures forall k :: 0 <= k < |s| ==> IsPrintableAscii(s[k])
  {
    if b == [] then [] else ReprByte(b[0], quote) + ReprBody(b[1..], quote)
  }

  /** bad_bytes: `repr(b)[2:-1]`, the escaped rendering of bytes used when a field is not valid UTF-8. */
  function BadBytes(b: seq<byte>): (s: string)
    ensures forall k :: 0 <= k < |s| ==> IsPrintableAscii(s[k])
  {
    ReprBody(b, ReprQuote(b))
  }

  /** Printable ASCII bytes other than quotes and backslash are rendered as themselves. */
  lemma {:induction false} BadBytesPlain(b: seq<byte>)
    requires forall k :: 0 <= k < |b| ==> 0x20 <= b[k] < 0x7F && b[k] != 0x22 && b[k] != 0x27 && b[k] != 0x5C
    ensures BadBytes(b) == seq(|b|, k requires 0 <= k < |b| => b[k] as int as char)
  {
    PlainBody(b, ReprQuote(b));
  }

  lemma {:induction false} PlainBody(b: seq<byte>, q: byte)
    requires q == 0x22 || q == 0x27
    requires forall k :: 0 <= k < |b| ==> 0x20 <= b[k] < 0x7F && b[k] != 0x22 && b[k] != 0x27 && b[k] != 0x5C
    ensures ReprBody(b, q) == seq(|b|, k requires 0 <= k < |b| => b[k] as int as char)
  {
    if b != [] {
      PlainBody(b[1..], q);
    }
  }

  /**
   * How recv turns a raw text field into a string: decode the whole field as
   * UTF-8 and keep what precedes the first NUL; if any byte of the field (even
   * one after the NUL) is invalid, render the bytes before the first NUL with
   * bad_bytes instead.
   */
  function DecodeText(raw: seq<byte>): (s: string)
    ensures Utf8.Decode(raw).Some? ==>
      var t := Utf8.Decode(raw).value;
      && |s| <= |t| && s == t[..|s|] && '\0' !in s && (|s| == |t| || t[|s|] == '\0')
    ensures Utf8.Decode(raw).None? ==> forall k :: 0 <= k < |s| ==> IsPrintableAscii(s[k])
  {
    match Utf8.Decode(raw)
    case Some(t) => SplitFirst(t, '\0'); Split(t, '\0')[0]
    case None => BadBytes(Split(raw, 0 as byte)[0])
  }

  // ---------------------------------------------------------------- frames

  /** The frame send writes for a request, or the error struct.pack or htonl raises first. */
  function PackRequest(magic: int, req: Request): (r: Result<seq<byte>, SendError>)
    ensures r.Err? <==> !(FitsWire(magic) && FitsWire(req.reqType) && FitsWire(req.uid)
                           && FitsWire(req.session) && IsI32(req.flags))
    ensures r.Err? && !(IsU32(magic) && IsU32(req.reqType) && IsU32(req.uid) && IsU32(req.session))
            ==> r.error == HtonlOverflow
    ensures r.Err? && IsU32(magic) && IsU32(req.reqType) && IsU32(req.uid) && IsU32(req.session)
            ==> r.error == StructError
    ensures r.Ok? ==> |r.value| == REQ_SIZE
    ensures r.Ok? ==> && r.value[0..4] == Reverse4(ToLE(magic))
                      && r.value[4..8] == Reverse4(ToLE(req.reqType))
                      && r.value[8..12] == Reverse4(ToLE(req.uid))
                      && r.value[12..16] == Reverse4(ToLE(req.session))
                      && r.value[16..20] == PackI32(req.flags).value
                      && r.value[20..52] == TextField(req.usrname, USERNAME_SIZE as nat)
                      && r.value[52..] == TextField(req.msg, MSG_SIZE as nat)
  {
    // all four htonl calls are evaluated before struct.pack checks ranges
    if !(IsU32(magic) && IsU32(req.reqType) && IsU32(req.uid) && IsU32(req.session)) then Err(HtonlOverflow)
    else match (PackNetworkInt(magic), PackNetworkInt(req.reqType), PackNetworkInt(req.uid),
                PackNetworkInt(req.session), PackI32(req.flags))
      case (Ok(m), Ok(t), Ok(u), Ok(s), Some(f)) =>
        var frame := m + t + u + s + f
                     + TextField(req.usrname, USERNAME_SIZE as nat) + TextField(req.msg, MSG_SIZE as nat);
        assert frame[0..4] == m && frame[4..8] == t && frame[8..12] == u && frame[12..16] == s;
        assert frame[16..20] == f;
        Ok(frame)
      case _ => Err(StructError)
  }

  /** What AsyncConnection.send writes, given the connection's current session and username. */
  function EncodeSend(args: SendArgs, sess: int, usrname: string): (r: Result<seq<byte>, SendError>)
    ensures var session := if args.session.Some? then args.session.value else sess;
      r.Ok? <==> && FitsWire(args.magic) && FitsWire(args.reqType) && FitsWire(args.uid)
                 && FitsWire(session) && IsI32(args.flags)
    ensures r.Ok? ==> && |r.value| == REQ_SIZE
                      && r.value[12..16] == Reverse4(ToLE(if args.session.Some? then args.session.value else sess))
                      && r.value[20..52] == TextField(if args.usrname.Some? then args.usrname.value else usrname,
                                                      USERNAME_SIZE as nat)
                      && r.value[52..] == TextField(args.msg, MSG_SIZE as nat)
  {
    PackRequest(args.magic, Resolve(args, sess, usrname))
  }

  /** The pure part of recv: unpack, decode the text fields, then check the magic number. */
  function ParseFrame(data: seq<byte>): (r: Result<Received, RecvError>)
    ensures |data| != REQ_SIZE ==> r == Err(UnpackError)
    ensures |data| == REQ_SIZE && data[3] >= 0x80 ==> r == Err(MagicOverflow)
    ensures |data| == REQ_SIZE ==> (r.Ok? <==> data[0..4] == Reverse4(ToLE(VCC_MAGIC)))
    ensures |data| == REQ_SIZE && data[3] < 0x80 && data[0..4] != Reverse4(ToLE(VCC_MAGIC)) ==> r == Err(BadMagic)
    ensures r.Ok? ==> |data| == REQ_SIZE && r.value.usrnameRaw == data[20..52] && r.value.msgRaw == data[52..]
    ensures r.Ok? ==> r.value.flags == UnpackI32(data[16..20])
  {
    if |data| != REQ_SIZE then Err(UnpackError)
    else
      var magic := UnpackI32(data[0..4]);
      MagicField(data[0..4]);
      var usr := data[20..52];
      var msg := data[52..];
      if magic < 0 then Err(MagicOverflow)
      else if ByteSwap(magic) != VCC_MAGIC then Err(BadMagic)
      else Ok(Received(
        BadNtohl(UnpackI32(data[4..8])), BadNtohl(UnpackI32(data[8..12])), BadNtohl(UnpackI32(data[12..16])),
        UnpackI32(data[16..20]), DecodeText(usr), usr, DecodeText(msg), msg))
  }

  /** recv maps an out-of-range integer to -1 and otherwise returns the ntohl of the unpacked value. */
  lemma ParseFrameIntegers(data: seq<byte>)
    requires ParseFrame(data).Ok?
    ensures var f := ParseFrame(data).value;
      && (f.reqType == -1 <==> data[7] >= 128)
      && (f.uid == -1 <==> data[11] >= 128)
      && (f.session == -1 <==> data[15] >= 128)
      && (f.reqType != -1 ==> ToLE(f.reqType) == Reverse4(data[4..8]))
      && (f.uid != -1 ==> ToLE(f.uid) == Reverse4(data[8..12]))
      && (f.session != -1 ==> ToLE(f.session) == Reverse4(data[12..16]))
  {
    NetworkField(data[4..8]);
    NetworkField(data[8..12]);
    NetworkField(data[12..16]);
  }

  /** A network-order field that ntohl accepts holds the bytes of its value in reverse (big-endian) order. */
  lemma NetworkField(t: seq<byte>)
    requires |t| == 4
    ensures BadNtohl(UnpackI32(t)) != -1 ==> ToLE(BadNtohl(UnpackI32(t))) == Reverse4(t)
  {
    var v := BadNtohl(UnpackI32(t));
    if v != -1 {
      ToLEFromLE(t);
      assert ToLE(ByteSwap(v)) == t;
      assert Reverse4(ToLE(v)) == t;
      assert Reverse4(Reverse4(ToLE(v))) == ToLE(v);
    }
  }

  /** recv's magic check passes (no OverflowError from ntohl, and the value matches) exactly when the field holds VCC_MAGIC in network order. */
  lemma MagicField(b: seq<byte>)
    requires |b| == 4
    ensures (UnpackI32(b) >= 0 && ByteSwap(UnpackI32(b)) == VCC_MAGIC) <==> b == Reverse4(ToLE(VCC_MAGIC))
  {
    var m := UnpackI32(b);
    var good := Reverse4(ToLE(VCC_MAGIC));
    assert ToLE(VCC_MAGIC) == [0x22, 0x8e, 0x32, 0x01];
    if m >= 0 {
      assert m == FromLE(b);
      ToLEFromLE(b);
      if ByteSwap(m) == VCC_MAGIC {
        assert ToLE(VCC_MAGIC) == Reverse4(b);
        assert Reverse4(Reverse4(b)) == b;
      }
    }
    if b == good {
      assert FromLE([0x01, 0x32, 0x8e, 0x22]) == 0x228e3201 == ByteSwap(VCC_MAGIC);
      ByteSwapInvolution(VCC_MAGIC);
    }
  }

  /** The field of a NUL-free text that leaves room for the terminator holds exactly text + NULs. */
  lemma TextFieldShort(text: string, width: nat)
    requires |Utf8.Encode(text)| < width
    ensures TextField(text, width) == Utf8.Encode(text + Utf8.Nuls(width - |Utf8.Encode(text)|))
  {
    var e := Utf8.Encode(text);
    var k := width - |e|;
    Utf8.EncodeAppend(text, "\0");
    assert Utf8.Encode("\0") == [0 as byte];
    Utf8.EncodeAppend(text, Utf8.Nuls(k));
    Utf8.EncodeNuls(k);
    assert [0 as byte] + Utf8.Zeros(k - 1) == Utf8.Zeros(k);
  }

  /** A NUL-free text that fits its field (terminator included) is decoded back unchanged. */
  lemma DecodeTextField(text: string, width: nat)
    requires '\0' !in text && |Utf8.Encode(text)| < width
    ensures DecodeText(TextField(text, width)) == text
  {
    var k := width - |Utf8.Encode(text)|;
    var t := text + Utf8.Nuls(k);
    TextFieldShort(text, width);
    Utf8.DecodeEncode(t);
    assert t[..|text|] == text;
    SplitHead(t, '\0', |text|);
  }

  /** A text of USERNAME_SIZE bytes or more fills the username field with no terminator: it is cut, not rejected. */
  lemma LongTextTruncated(text: string, width: nat)
    requires |Utf8.Encode(text)| >= width
    ensures TextField(text, width) == Utf8.Encode(text)[..width]
    ensures '\0' !in text ==> 0 as byte !in TextField(text, width)
  {
    Utf8.EncodeAppend(text, "\0");
    assert Utf8.Encode(text + "\0")[..width] == Utf8.Encode(text)[..width];
    if '\0' !in text {
      Utf8.EncodeNulFree(text);
      var e := Utf8.Encode(text);
      assert forall k :: 0 <= k < width ==> e[..width][k] in e;
    }
  }

  /**
   * The fallback looks at the whole field: text followed by a NUL and then
   * invalid bytes is rendered with bad_bytes, not decoded as text.
   */
  lemma InvalidTailFallsBack(text: string, junk: seq<byte>)
    requires '\0' !in text && Utf8.Decode(junk).None?
    ensures DecodeText(Utf8.Encode(text) + [0 as byte] + junk) == BadBytes(Utf8.Encode(text))
  {
    var e := Utf8.Encode(text);
    var raw := e + [0 as byte] + junk;
    assert raw == Utf8.Encode(text + "\0") + junk by {
      Utf8.EncodeAppend(text, "\0");
      assert Utf8.Encode("\0") == [0 as byte];
    }
    assert Utf8.Decode(raw).None? by {
      Utf8.DecodeInvalidTail(text + "\0", junk);
    }
    assert Split(raw, 0 as byte)[0] == e by {
      Utf8.EncodeNulFree(text);
      assert raw[..|e|] == e;
      SplitHead(raw, 0 as byte, |e|);
    }
  }

  /** Decoding one of send's frames needs the integers back from htonl and unpack. */
  lemma NetworkIntRoundTrip(x: int)
    requires FitsWire(x)
    ensures BadNtohl(UnpackI32(Reverse4(ToLE(x)))) == x
  {
    var n := ByteSwap(x);
    assert ToLE(n) == Reverse4(ToLE(x));
    assert FromLE(ToLE(n)) == n;
    ByteSwapInvolution(x);
  }

  /** The top byte decides the sign of '<i': four bytes are below 2^31 exactly when the last is below 0x80. */
  lemma FromLETop(b: seq<byte>)
    requires |b| == 4
    ensures FromLE(b) < TWO_31 <==> b[3] < 128
  {
  }

  /**
   * An unsigned value survives htonl followed by '<i' exactly when its low byte
   * is below 0x80 (so 128 or 255 cannot be sent as a uid, 256 can).
   */
  lemma FitsWireLowByte(x: int)
    requires IsU32(x)
    ensures FitsWire(x) <==> x % 256 < 128
  {
    var r := Reverse4(ToLE(x));
    assert r[3] as int == x % 256;
    FromLETop(r);
  }

  /** VCC_MAGIC itself goes through htonl and '<i' (its swapped value 0x228e3201 is positive). */
  lemma MagicFitsWire()
    ensures FitsWire(VCC_MAGIC)
  {
    assert ToLE(VCC_MAGIC) == [0x22, 0x8e, 0x32, 0x01];
    assert FromLE([0x01, 0x32, 0x8e, 0x22]) == 0x228e3201 == ByteSwap(VCC_MAGIC);
  }

  /** A send as the command handlers make it: send's magic, a request code, uid 0 and flags 0, so only the session can fail. */
  predicate Standard(args: SendArgs)
  {
    args.magic == VCC_MAGIC && MSG_SEND <= args.reqType <= SYS_SCRINC && args.uid == 0 && args.flags == 0
  }

  /** What send raises over a standard request's effective session: OverflowError outside [0, 2³²), struct.error when the swapped value is negative as `'<i'`. */
  function SessionError(session: int): (e: Option<SendError>)
    ensures e.None? <==> FitsWire(session)
  {
    if !IsU32(session) then Some(HtonlOverflow) else if !FitsWire(session) then Some(StructError) else None
  }

  /** A standard send goes out exactly when its effective session fits the wire, and otherwise raises SessionError's exception. */
  lemma StandardSendError(args: SendArgs, sess: int, usrname: string)
    requires Standard(args)
    ensures var r := EncodeSend(args, sess, usrname);
      var e := SessionError(Resolve(args, sess, usrname).session);
      && (r.Ok? <==> e.None?)
      && (r.Err? ==> e == Some(r.error))
  {
    MagicFitsWire();
    FitsWireLowByte(args.reqType);
    FitsWireLowByte(0);
  }

  /** A well-sized frame whose magic field is VCC_MAGIC in network order decodes field by field. */
  lemma ParseGoodFrame(data: seq<byte>)
    requires |data| == REQ_SIZE && data[0..4] == Reverse4(ToLE(VCC_MAGIC))
    ensures ParseFrame(data) == Ok(Received(
      BadNtohl(UnpackI32(data[4..8])), BadNtohl(UnpackI32(data[8..12])), BadNtohl(UnpackI32(data[12..16])),
      UnpackI32(data[16..20]), DecodeText(data[20..52]), data[20..52], DecodeText(data[52..]), data[52..]))
  {
    MagicFitsWire();
    NetworkIntRoundTrip(VCC_MAGIC);
    var m := UnpackI32(data[0..4]);
    assert BadNtohl(m) == VCC_MAGIC;
  }

  /**
   * Round trip: recv of the frame send writes returns the same type, uid,
   * session, flags, username and message, provided the integers survive htonl
   * and '<i', and both texts are NUL-free and leave room for their terminator.
   */
  lemma RoundTrip(req: Request)
    requires FitsWire(req.reqType) && FitsWire(req.uid) && FitsWire(req.session) && IsI32(req.flags)
    requires '\0' !in req.usrname && |Utf8.Encode(req.usrname)| < USERNAME_SIZE
    requires '\0' !in req.msg && |Utf8.Encode(req.msg)| < MSG_SIZE
    ensures PackRequest(VCC_MAGIC, req).Ok?
    ensures ParseFrame(PackRequest(VCC_MAGIC, req).value)
            == Ok(Received(req.reqType, req.uid, req.session, req.flags,
                           req.usrname, TextField(req.usrname, USERNAME_SIZE as nat),
                           req.msg, TextField(req.msg, MSG_SIZE as nat)))
  {
    MagicFitsWire();
    var frame := PackRequest(VCC_MAGIC, req).value;
    ParseGoodFrame(frame);
    NetworkIntRoundTrip(req.reqType);
    NetworkIntRoundTrip(req.uid);
    NetworkIntRoundTrip(req.session);
    UnpackPackI32(req.flags);
    DecodeTextField(req.usrname, USERNAME_SIZE as nat);
    DecodeTextField(req.msg, MSG_SIZE as nat);
  }

  /**
   * The client side of one connection (AsyncConnection). The socket is not
   * modelled: `sent` holds every frame handed to sock_sendall, in order.
   */
  class Connection {
    var ip: string
    var port: int
    var usrname: string
    var sess: int
    var level: int
    var waitingForRecv: bool
    var sent: seq<seq<byte>>

    /** __init__ only records the parameters; nothing is connected yet. */
    constructor (ip: string := VCC_DEFAULT_IP, port: int := VCC_PORT, usrname: string := "", sess: int := 0)
      ensures this.ip == ip && this.port == port && this.usrname == usrname && this.sess == sess
      ensures level == 0 && !waitingForRecv && sent == []
    {
      this.ip := ip;
      this.port := port;
      this.usrname := usrname;
      this.waitingForRecv := false;
      this.sess := sess;
      this.level := 0;
      this.sent := [];
    }

    /** send: pack the frame (raising before any write if it cannot be packed) and write it whole. */
    method Send(args: SendArgs) returns (r: Result<seq<byte>, SendError>)
      modifies this`sent
      ensures r == EncodeSend(args, sess, usrname)
      ensures r.Ok? ==> |r.value| == REQ_SIZE
      ensures sent == if r.Ok? then old(sent) + [r.value] else old(sent)
    {
      r := EncodeSend(args, sess, usrname);
      if r.Ok? {
        sent := sent + [r.value];
      }
    }

    /**
     * recv on the bytes one sock_recv(512) returned. The pending-reply flag is
     * cleared once the frame is unpacked, before the magic number is checked;
     * a buffer of the wrong size fails in unpack and leaves the flag alone.
     */
    method Recv(data: seq<byte>) returns (r: Result<Received, RecvError>)
      modifies this`waitingForRecv
      ensures r == ParseFrame(data)
      ensures waitingForRecv == (old(waitingForRecv) && |data| != REQ_SIZE)
    {
      if |data| != REQ_SIZE {
        return Err(UnpackError);
      }
      waitingForRecv := false;
      r := ParseFrame(data);
    }

    /** The part of wait_until_recv before its polling loop: it raises the pending-reply flag. */
    method WaitUntilRecv()
      modifies this`waitingForRecv
      ensures waitingForRecv
    {
      waitingForRecv := true;
    }
  }
}
