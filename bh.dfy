/**
 * Reply handling of vcc_py/bh.py: a CTL_USRS or CTL_SESS reply carries its
 * entry count in `uid` and the entries in the raw message field, one per
 * USERNAME_SIZE bytes; each entry is printed as the strict UTF-8 decoding of
 * its slice, NUL padding included.
 */
module Bh {
  import opened Wrappers
  import opened Bytes
  import opened Text
  import Utf8
  import opened Constants

  /** Why a reply handler raises: an entry that is not valid UTF-8, or a reply type it does not handle. */
  datatype BhError = UnicodeDecodeError | UnknownResponseType(reqType: int)

  /** What a handler prints, one line per entry, and the error that stopped it, if any. */
  datatype Listing = Listing(printed: seq<string>, error: Option<BhError>)

  /** `range(count)`: no entries for a count of zero or less. */
  function EntryCount(count: int): (n: nat)
    ensures n == if count < 0 then 0 else count
  {
    if count < 0 then 0 else count
  }

  /** The raw bytes of entry i: `msg_raw[i * USERNAME_SIZE : (i + 1) * USERNAME_SIZE]`. */
  function Entry(msgRaw: seq<byte>, i: nat): seq<byte>
  {
    PySlice(msgRaw, i * USERNAME_SIZE, (i + 1) * USERNAME_SIZE)
  }

  /** The slices the loop `for i in range(count)` visits. */
  function Entries(count: int, msgRaw: seq<byte>): (es: seq<seq<byte>>)
    ensures |es| == EntryCount(count)
  {
    seq(EntryCount(count), i requires 0 <= i => Entry(msgRaw, i))
  }

  /** Printing decoded entries in order; the first one that fails to decode raises and ends the listing. */
  function PrintEntries(entries: seq<seq<byte>>): (r: Listing)
    ensures r.error.None? || r.error == Some(UnicodeDecodeError)
    ensures r.error.None? ==> |r.printed| == |entries|
    ensures r.error.Some? ==> |r.printed| < |entries| && Utf8.Decode(entries[|r.printed|]).None?
    ensures forall i :: 0 <= i < |r.printed| ==> Utf8.Decode(entries[i]) == Some(r.printed[i])
  {
    if entries == [] then Listing([], None)
    else match Utf8.Decode(entries[0])
      case None => Listing([], Some(UnicodeDecodeError))
      case Some(line) =>
        var rest := PrintEntries(entries[1..]);
        Listing([line] + rest.printed, rest.error)
  }

  /** do_lsse_bh: list the sessions. */
  function DoLsseBh(uid: int, msgRaw: seq<byte>): (r: Listing)
    ensures r.error.None? ==> |r.printed| == EntryCount(uid)
    ensures r.error.Some? ==> && r.error == Some(UnicodeDecodeError) && |r.printed| < EntryCount(uid)
                              && Utf8.Decode(Entry(msgRaw, |r.printed|)).None?
    ensures forall i :: 0 <= i < |r.printed| ==> Utf8.Decode(Entry(msgRaw, i)) == Some(r.printed[i])
  {
    var entries := seq(EntryCount(uid), i requires 0 <= i => PySlice(msgRaw, i * USERNAME_SIZE, (i + 1) * USERNAME_SIZE));
    assert entries == Entries(uid, msgRaw);
    PrintEntries(entries)
  }

  /** do_ls_bh: list the users. */
  function DoLsBh(uid: int, msgRaw: seq<byte>): (r: Listing)
    ensures r.error.None? ==> |r.printed| == EntryCount(uid)
    ensures r.error.Some? ==> && r.error == Some(UnicodeDecodeError) && |r.printed| < EntryCount(uid)
                              && Utf8.Decode(Entry(msgRaw, |r.printed|)).None?
    ensures forall i :: 0 <= i < |r.printed| ==> Utf8.Decode(Entry(msgRaw, i)) == Some(r.printed[i])
  {
    var entries := seq(EntryCount(uid), i requires 0 <= i => PySlice(msgRaw, i * USERNAME_SIZE, (i + 1) * USERNAME_SIZE));
    assert entries == Entries(uid, msgRaw);
    PrintEntries(entries)
  }

  /** do_bh: route a reply by its type. */
  function DoBh(reqType: int, uid: int, username: string, usernameRaw: seq<byte>, msg: string, msgRaw: seq<byte>): (r: Listing)
    ensures reqType == CTL_USRS ==> r == DoLsBh(uid, msgRaw)
    ensures reqType == CTL_SESS ==> r == DoLsseBh(uid, msgRaw)
    ensures reqType != CTL_USRS && reqType != CTL_SESS ==> r == Listing([], Some(UnknownResponseType(reqType)))
  {
    if reqType == CTL_USRS then DoLsBh(uid, msgRaw)
    else if reqType == CTL_SESS then DoLsseBh(uid, msgRaw)
    else Listing([], Some(UnknownResponseType(reqType)))
  }

  /** The user listing and the session listing slice and decode identically. */
  lemma ListingsAgree(uid: int, msgRaw: seq<byte>)
    ensures DoLsBh(uid, msgRaw) == DoLsseBh(uid, msgRaw) == PrintEntries(Entries(uid, msgRaw))
  {
    assert Entries(uid, msgRaw) == seq(EntryCount(uid), i requires 0 <= i => PySlice(msgRaw, i * USERNAME_SIZE, (i + 1) * USERNAME_SIZE));
  }

  /** Entry i is the 32 bytes at offset 32·i when they exist, the shorter tail when the field ends inside it, and empty past the end. */
  lemma EntryShape(msgRaw: seq<byte>, i: nat)
    ensures (i + 1) * 32 <= |msgRaw| ==> Entry(msgRaw, i) == msgRaw[i * 32..i * 32 + 32] && |Entry(msgRaw, i)| == 32
    ensures i * 32 <= |msgRaw| < (i + 1) * 32 ==> Entry(msgRaw, i) == msgRaw[i * 32..]
    ensures |msgRaw| <= i * 32 ==> Entry(msgRaw, i) == []
  {
    PySliceNonNegative(msgRaw, i * 32, (i + 1) * 32);
  }

  /** The concatenation of a sequence of byte strings. */
  function Concat(parts: seq<seq<byte>>): seq<byte>
  {
    if parts == [] then [] else parts[0] + Concat(parts[1..])
  }

  lemma {:induction false} ConcatSnoc(parts: seq<seq<byte>>, last: seq<byte>)
    ensures Concat(parts + [last]) == Concat(parts) + last
  {
    if parts != [] {
      assert (parts + [last])[1..] == parts[1..] + [last];
      ConcatSnoc(parts[1..], last);
    } else {
      assert parts + [last] == [last];
    }
  }

  /** Read back to back, the entries cover the first min(32·count, |msgRaw|) bytes exactly once. */
  lemma {:induction false} EntriesCover(count: nat, msgRaw: seq<byte>)
    ensures Concat(Entries(count, msgRaw)) == msgRaw[..if 32 * count <= |msgRaw| then 32 * count else |msgRaw|]
  {
    if count > 0 {
      EntriesCover(count - 1, msgRaw);
      assert Entries(count, msgRaw) == Entries(count - 1, msgRaw) + [Entry(msgRaw, count - 1)];
      ConcatSnoc(Entries(count - 1, msgRaw), Entry(msgRaw, count - 1));
      EntryShape(msgRaw, count - 1);
    }
  }
}
