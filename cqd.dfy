/**
 * The `cqd` plugin (vcc_py/plugins/cqd.py): the `-cqd` command sends
 * "-cqd#" + payload + "\n", and its recv hook drops every request whose message
 * carries that prefix, displaying `msg[5:-1]` instead.
 */
module Cqd {
  import opened Wrappers
  import opened Text
  import opened Sock
  import Utf8
  import opened Bytes
  import opened Constants

  const PREFIX: string := "-cqd#"

  /** The payload the command sends: its first argument, or "CQD" without one. */
  function Argument(args: seq<string>): (x: string)
    ensures args != [] ==> x == args[0]
    ensures args == [] ==> x == "CQD"
  {
    if args != [] then args[0] else "CQD"
  }

  /** The message `-cqd` sends. */
  function Message(args: seq<string>): (m: string)
    ensures |m| == |PREFIX| + |Argument(args)| + 1
    ensures m[..|PREFIX|] == PREFIX && m[|m| - 1] == '\n'
    ensures m[|PREFIX|..|m| - 1] == Argument(args)
  {
    PREFIX + Argument(args) + "\n"
  }

  /** `-cqd`'s one send: the message above with every other argument at send's default. */
  function CommandSend(args: seq<string>): (a: SendArgs)
    ensures a == DEFAULT_SEND.(msg := Message(args))
  {
    SendArgs(VCC_MAGIC, MSG_SEND, 0, None, 0, None, Message(args))
  }

  predicate HasPrefix(msg: string) { |msg| >= |PREFIX| && msg[..|PREFIX|] == PREFIX }

  /** The recv hook: drop a "-cqd#" message (after displaying it), pass anything else through unchanged. */
  function Filter(req: Request): (r: Option<Request>)
    ensures r.None? <==> HasPrefix(req.msg)
    ensures r.Some? ==> r.value == req
  {
    if HasPrefix(req.msg) then None else Some(req)
  }

  /** What the hook displays for a dropped message, `msg[5:-1]`: the prefix and the final character, whatever it is, are removed; "-cqd#" alone shows as "". */
  function Payload(msg: string): (p: string)
    requires HasPrefix(msg)
    ensures |msg| <= 6 ==> p == ""
    ensures |msg| > 6 ==> p == msg[5..|msg| - 1]
  {
    PySlice(msg, 5, -1)
  }

  /** Round trip: the hook, applied to what `-cqd` sent, drops it and displays exactly the argument. */
  lemma MessageRoundTrip(args: seq<string>)
    ensures HasPrefix(Message(args))
    ensures Filter(Request(MSG_SEND, 0, 0, 0, "", Message(args))).None?
    ensures Payload(Message(args)) == Argument(args)
  {
    var m := Message(args);
    assert |m| >= 6;
  }

  /**
   * End to end through the codec: when the payload is NUL-free and the message
   * fits the message field, the receiver decodes a message the hook drops and
   * whose displayed payload is the argument.
   */
  lemma WireRoundTrip(args: seq<string>, sess: int, usrname: string)
    requires FitsWire(sess) && '\0' !in usrname && |Utf8.Encode(usrname)| < USERNAME_SIZE
    requires '\0' !in Argument(args) && |Utf8.Encode(Message(args))| < MSG_SIZE
    ensures EncodeSend(CommandSend(args), sess, usrname).Ok?
    ensures var f := ParseFrame(EncodeSend(CommandSend(args), sess, usrname).value);
      f.Ok? && HasPrefix(f.value.msg) && Payload(f.value.msg) == Argument(args)
  {
    var m := Message(args);
    var req := Request(MSG_SEND, 0, sess, 0, usrname, m);
    assert Resolve(CommandSend(args), sess, usrname) == req;
    NulFreeMessage(args);
    FitsWireLowByte(MSG_SEND);
    FitsWireLowByte(0);
    RoundTrip(req);
    MessageRoundTrip(args);
  }

  lemma NulFreeMessage(args: seq<string>)
    requires '\0' !in Argument(args)
    ensures '\0' !in Message(args)
  {
    var m := Message(args);
    forall k | 0 <= k < |m|
      ensures m[k] != '\0'
    {
      if k < |PREFIX| {
        assert m[k] == PREFIX[k];
      } else if k < |m| - 1 {
        assert m[k] == Argument(args)[k - |PREFIX|];
      }
    }
  }
}
