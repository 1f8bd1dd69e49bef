/**
 * The protocol constants of vcc_py/constants.py: the magic number, the request
 * type codes, and the sizes and struct layout of the fixed 512-byte request frame.
 */
module Constants {

  const VCC_MAGIC: int := 0x01328e22

  const VCC_PORT: int := 46
  const VCC_DEFAULT_IP: string := "124.223.105.230"

  // Request type codes (class REQ).
  const MSG_SEND: int := 1
  const MSG_NEW: int := 2
  const CTL_USRS: int := 3
  const CTL_LOGIN: int := 4
  const CTL_NEWSE: int := 5
  const CTL_SESS: int := 6
  const CTL_JOINS: int := 7
  const CTL_UINFO: int := 8
  const SYS_SCRINC: int := 9

  /** All request type codes, in declaration order. */
  const REQ_CODES: seq<int> :=
    [MSG_SEND, MSG_NEW, CTL_USRS, CTL_LOGIN, CTL_NEWSE, CTL_SESS, CTL_JOINS, CTL_UINFO, SYS_SCRINC]

  const REQ_SIZE: int := 512
  const USERNAME_SIZE: int := 32
  const PASSWD_SIZE: int := 64
  const MSG_SIZE: int := REQ_SIZE - 5 * 4 - USERNAME_SIZE

  /** One conversion of a struct format string: `i` (a signed 32-bit integer) or `<n>s` (n raw bytes). */
  datatype FormatItem = Int32 | Chars(width: nat)

  /** `VCC_REQUEST_FORMAT`, the format "<iiiii32s460s" read item by item (little-endian, no padding). */
  const VCC_REQUEST_FORMAT: seq<FormatItem> :=
    [Int32, Int32, Int32, Int32, Int32, Chars(USERNAME_SIZE as nat), Chars(MSG_SIZE as nat)]

  /** The number of bytes one item occupies in a packed buffer. */
  function ItemSize(item: FormatItem): (n: nat)
    ensures item.Int32? ==> n == 4
    ensures item.Chars? ==> n == item.width
  {
    match item
    case Int32 => 4
    case Chars(w) => w
  }

  /** The size of a packed buffer: the sum of its items' sizes (struct.calcsize for a '<' format). */
  function FormatSize(fmt: seq<FormatItem>): (n: nat)
    ensures fmt == [] ==> n == 0
  {
    if fmt == [] then 0 else ItemSize(fmt[0]) + FormatSize(fmt[1..])
  }

  /** The size of a packed buffer is additive over concatenated formats. */
  lemma {:induction false} FormatSizeAppend(a: seq<FormatItem>, b: seq<FormatItem>)
    ensures FormatSize(a + b) == FormatSize(a) + FormatSize(b)
  {
    if a != [] {
      assert (a + b)[1..] == a[1..] + b;
      FormatSizeAppend(a[1..], b);
    } else {
      assert a + b == b;
    }
  }

  /** The message field is what remains of the frame after five integers and the username. */
  lemma MsgSizeValue()
    ensures MSG_SIZE == 460
  {
  }

  /** The request format packs to exactly REQ_SIZE bytes: five integers, the username field and the message field. */
  lemma RequestFormatSize()
    ensures FormatSize(VCC_REQUEST_FORMAT) == 5 * 4 + USERNAME_SIZE + MSG_SIZE == REQ_SIZE
  {
    var f := VCC_REQUEST_FORMAT;
    assert f == [Int32, Int32, Int32, Int32, Int32] + [Chars(32), Chars(460)];
    FormatSizeAppend([Int32, Int32, Int32, Int32, Int32], [Chars(32), Chars(460)]);
    assert FormatSize([Chars(460)]) == 460 + FormatSize([]);
  }

  /** The request type codes are exactly 1..9, in order, so they are pairwise distinct. */
  lemma ReqCodesDistinct()
    ensures |REQ_CODES| == 9
    ensures forall k :: 0 <= k < |REQ_CODES| ==> REQ_CODES[k] == k + 1
    ensures forall j, k :: 0 <= j < k < |REQ_CODES| ==> REQ_CODES[j] != REQ_CODES[k]
  {
  }
}
