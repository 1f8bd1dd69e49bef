/**
 * The command dispatcher of vcc_py/commands.py. A line typed at the prompt that
 * starts with "-" is split on " " into a command and its arguments; the command
 * is looked up in `do_cmd_map` and its handler runs against the connection's
 * session state, or "Unknown command" is reported.
 *
 * What a handler reads from the terminal with input() comes from `stdin`; what
 * it sends is appended to `events` as request records; the session listings the
 * receive loop caches while a command waits for a reply come from `replies`.
 */
module Commands {
  import opened Wrappers
  import opened Text
  import opened Constants
  import opened Sock
  import Ban
  import Cqd

  /** The handler functions that `do_cmd_map` and the plugins' command tables can hold. */
  datatype Handler =
    | Help | Quit | Ls | Newse | Currs | Swtch | Lsse | Uinfo | Lself | Incr
    | Ml | SendCmd | Rl | Pins | Pls | Sname | Sid | Join | Quits
    | BanCmd | UnbanCmd | CqdCmd

  /** The initial `do_cmd_map`. */
  const DO_CMD_MAP: map<string, Handler> := map[
    "-help" := Help, "-quit" := Quit, "-ls" := Ls, "-newse" := Newse, "-currs" := Currs,
    "-swtch" := Swtch, "-lsse" := Lsse, "-uinfo" := Uinfo, "-lself" := Lself, "-incr" := Incr,
    "-ml" := Ml, "-send" := SendCmd, "-rl" := Rl, "-pins" := Pins, "-pls" := Pls,
    "-sname" := Sname, "-sid" := Sid, "-join" := Join, "-quits" := Quits]

  /** Exceptions a handler lets escape; SendFailed carries what conn.send raised (OverflowError or struct.error). */
  datatype Exc = ValueError | EOFError | AttributeError | NameError | TypeError | SendFailed(error: SendError)

  /** How a dispatched command ends: its handler returned (and the prompt is shown), the command was unknown, or an exception escaped. */
  datatype Outcome = Done | Unknown(command: string) | Raised(exc: Exc) | NotModelled

  /** What the connection did on the command's behalf: a request sent, a relay sent, or a wait for the next reply. */
  datatype Event = Sent(req: Request) | Relayed(msg: string, visible: string) | Waited

  /** A line the handlers print themselves (not the prompt or the pretty-printed messages). */
  datatype Line = Stdout(text: string) | Stderr(text: string)

  /** The send as logged: the request when it went out, nothing when conn.send raised. */
  function SentIf(failure: Option<SendError>, req: Request): seq<Event>
  {
    if failure.None? then [Sent(req)] else []
  }

  /** How a handler whose last step is a send ends: normally, or with the send's exception. */
  function AfterSend(failure: Option<SendError>): Outcome
  {
    if failure.None? then Done else Raised(SendFailed(failure.value))
  }

  function UnknownText(command: string): string
  {
    "Unknown command \"" + command + "\""
  }

  /** `do_cmd`'s split: the command is the text before the first space, the arguments are the other pieces, empty ones included. */
  function CommandOf(line: string): (r: string)
    ensures |r| <= |line| && r == line[..|r|]
    ensures ' ' !in r && (|r| == |line| || line[|r|] == ' ')
  {
    SplitFirst(line, ' ');
    Split(line, ' ')[0]
  }

  /** One argument per space of the line, none of them containing a space. */
  function ArgsOf(line: string): (r: seq<string>)
    ensures |r| == Count(line, ' ')
    ensures forall k :: 0 <= k < |r| ==> ' ' !in r[k]
  {
    SplitLength(line, ' ');
    SplitPiecesFree(line, ' ');
    var p := Split(line, ' ');
    assert forall k :: 0 <= k < |p[1..]| ==> p[1..][k] == p[k + 1];
    p[1..]
  }

  /** The split loses nothing: command and arguments joined by single spaces give the line back. */
  lemma CommandLineSplit(line: string)
    ensures Text.Join([CommandOf(line)] + ArgsOf(line), ' ') == line
  {
    var p := Split(line, ' ');
    JoinSplit(line, ' ');
    assert [p[0]] + p[1..] == p;
  }

  /** The 1-based position of the first occurrence of name in the session list, or -1. */
  function IdIn(sessList: seq<string>, name: string): (id: int)
    ensures id == -1 <==> name !in sessList
    ensures id != -1 ==> 1 <= id <= |sessList| && sessList[id - 1] == name && name !in sessList[..id - 1]
  {
    match IndexOf(sessList, name)
    case Some(i) => i + 1
    case None => -1
  }

  /** The value of `args[0] if args else input()`, None when input() hits end of file. */
  function ArgOrInput(args: seq<string>, stdin: seq<string>): Option<string>
  {
    if args != [] then Some(args[0]) else if stdin != [] then Some(stdin[0]) else None
  }

  /** -incr's username and increment text: its two arguments, or the next two lines of input (None at end of file). */
  function IncrFields(args: seq<string>, stdin: seq<string>): Option<(string, string)>
  {
    if |args| == 2 then Some((args[0], args[1])) else if |stdin| < 2 then None else Some((stdin[0], stdin[1]))
  }

  /** The unread input once -incr has its fields: nothing is read with two arguments, otherwise up to two lines. */
  function StdinAfterIncr(args: seq<string>, stdin: seq<string>): seq<string>
  {
    if |args| == 2 then stdin else if |stdin| < 2 then [] else stdin[2..]
  }

  /** The unread input after `args[0] if args else input()`. */
  function StdinAfter(args: seq<string>, stdin: seq<string>): seq<string>
  {
    if args == [] && stdin != [] then stdin[1..] else stdin
  }

  /** The prefix order on sequences is transitive (events and console lines only grow). */
  lemma PrefixTransitive<T>(a: seq<T>, b: seq<T>, c: seq<T>)
    requires a <= b && b <= c
    ensures a <= c
  {
    assert c[..|b|][..|a|] == c[..|a|];
  }

  /** One refresh of the cached session list: the next listing the receive loop caches, if there is one. */
  predicate RefreshedFrom(sessList: seq<string>, replies: seq<seq<string>>, sessList': seq<string>, replies': seq<seq<string>>)
    ensures RefreshedFrom(sessList, replies, sessList', replies') ==> |replies'| <= |replies|
  {
    if replies == [] then sessList' == sessList && replies' == []
    else sessList' == replies[0] && replies' == replies[1..]
  }

  /** The lines `-ml` collects: input up to "finish" or end of file. */
  function CollectedLines(stdin: seq<string>): (lines: seq<string>)
    ensures |lines| <= |stdin| && lines == stdin[..|lines|]
    ensures "finish" !in lines
  {
    if stdin == [] || stdin[0] == "finish" then []
    else [stdin[0]] + CollectedLines(stdin[1..])
  }

  /** The unread input once `-ml` has collected its lines (the "finish" line is consumed). */
  function StdinAfterCollect(stdin: seq<string>): (rest: seq<string>)
    ensures var n := |CollectedLines(stdin)|;
      rest == if n < |stdin| then stdin[n + 1..] else []
  {
    if stdin == [] then []
    else if stdin[0] == "finish" then stdin[1..]
    else StdinAfterCollect(stdin[1..])
  }

  /** `-ml` runs a collected line as command "-" + its first word with the other words as arguments. */
  function MlCommand(line: string): string
  {
    "-" + Split(line, ' ')[0]
  }

  /** The global command table `do_cmd_map`. */
  class CommandTable {
    var handlers: map<string, Handler>

    constructor ()
      ensures handlers == DO_CMD_MAP
    {
      handlers := DO_CMD_MAP;
    }

    /** new_commands: `do_cmd_map.update(commands)`; an incoming entry replaces an existing one of the same name. */
    method NewCommands(incoming: map<string, Handler>)
      modifies this
      ensures handlers.Keys == old(handlers).Keys + incoming.Keys
      ensures forall name :: name in incoming ==> handlers[name] == incoming[name]
      ensures forall name :: name in old(handlers) && name !in incoming ==> handlers[name] == old(handlers)[name]
    {
      handlers := handlers + incoming;
    }
  }

  /** The session state a handler sees as `conn.data`, with the terminal and the connection as streams. */
  class Client {
    var sess: int
    var usrname: string
    var level: int
    /** `conn.data.type`: set when a lookup asks the receive loop for a fresh session list. */
    var listing: bool
    var sessList: seq<string>
    var stdin: seq<string>
    var replies: seq<seq<string>>
    var events: seq<Event>
    var console: seq<Line>

    /** The fields, as a value. */
    function State(): ClientState
      reads this
    {
      ClientState(sess, usrname, level, listing, sessList, stdin, replies, events, console)
    }

    constructor (usrname: string, sess: int, stdin: seq<string>, replies: seq<seq<string>>)
      ensures this.usrname == usrname && this.sess == sess && level == 0 && !listing && sessList == []
      ensures this.stdin == stdin && this.replies == replies && events == [] && console == []
    {
      this.usrname := usrname;
      this.sess := sess;
      this.level := 0;
      this.listing := false;
      this.sessList := [];
      this.stdin := stdin;
      this.replies := replies;
      this.events := [];
      this.console := [];
    }

    /** input(): the next line, or None at end of file. */
    method Input() returns (line: Option<string>)
      modifies this`stdin
      ensures line == ArgOrInput([], old(stdin)) && stdin == StdinAfter([], old(stdin))
    {
      if stdin == [] {
        return None;
      }
      line := Some(stdin[0]);
      stdin := stdin[1..];
    }

    /** `args[0] if args else input()`. */
    method ArgOrPrompt(args: seq<string>) returns (v: Option<string>)
      modifies this`stdin
      ensures v == ArgOrInput(args, old(stdin)) && stdin == StdinAfter(args, old(stdin))
    {
      if args != [] {
        return Some(args[0]);
      }
      v := Input();
    }

    /**
     * conn.send: the request with omitted session and username taken from the session
     * state. It is logged when the frame goes out; otherwise the exception is returned.
     */
    method Send(args: SendArgs) returns (failure: Option<SendError>)
      modifies this`events
      ensures failure.None? <==> EncodeSend(args, sess, usrname).Ok?
      ensures failure.Some? ==> failure.value == EncodeSend(args, sess, usrname).error
      ensures Standard(args) ==> failure == SessionError(Resolve(args, sess, usrname).session)
      ensures events == old(events) + SentIf(failure, Resolve(args, sess, usrname))
    {
      var frame := EncodeSend(args, sess, usrname);
      if Standard(args) {
        StandardSendError(args, sess, usrname);
      }
      if frame.Err? {
        return Some(frame.error);
      }
      events := events + [Sent(Resolve(args, sess, usrname))];
      failure := None;
    }

    /** Send for the client's own requests, whose only way to fail is a session outside the wire range. */
    method SendStandard(args: SendArgs) returns (failure: Option<SendError>)
      requires Standard(args)
      modifies this`events
      ensures failure == SessionError(Resolve(args, sess, usrname).session)
      ensures events == old(events) + SentIf(failure, Resolve(args, sess, usrname))
    {
      failure := Send(args);
    }

    /** conn.wait_until_recv: the receive loop handles one reply; a session listing it carries becomes the cached list. */
    method Wait()
      modifies this`events, this`sessList, this`replies
      ensures events == old(events) + [Waited]
      ensures RefreshedFrom(old(sessList), old(replies), sessList, replies)
    {
      events := events + [Waited];
      if replies != [] {
        sessList := replies[0];
        replies := replies[1..];
      }
    }

    method Print(text: string)
      modifies this`console
      ensures console == old(console) + [Stdout(text)]
    {
      console := console + [Stdout(text)];
    }

    /**
     * get_id_by_name: a cached name is found without sending; otherwise the list is
     * refreshed once and looked up again. The refresh's send can raise.
     */
    method GetIdByName(name: string) returns (r: Result<int, SendError>)
      modifies this`listing, this`events, this`sessList, this`replies
      ensures name in old(sessList) ==>
        r == Ok(IdIn(old(sessList), name)) && listing == old(listing) && events == old(events)
        && sessList == old(sessList) && replies == old(replies)
      ensures name !in old(sessList) ==>
        var f := SessionError(sess);
        && listing
        && (f.Some? ==> r == Err(f.value) && events == old(events) && sessList == old(sessList) && replies == old(replies))
        && (f.None? ==>
              && events == old(events) + [Sent(Request(CTL_SESS, 0, sess, 0, usrname, "")), Waited]
              && RefreshedFrom(old(sessList), old(replies), sessList, replies)
              && r == Ok(IdIn(sessList, name)))
    {
      if name in sessList {
        return Ok(IdIn(sessList, name));
      }
      listing := true;
      var failure := SendStandard(DEFAULT_SEND.(reqType := CTL_SESS, uid := 0));
      if failure.Some? {
        return Err(failure.value);
      }
      Wait();
      r := Ok(IdIn(sessList, name));
    }

    /** -join: move to the named session and tell the server, or report that there is none. */
    method Join(args: seq<string>) returns (outcome: Outcome)
      modifies this`stdin, this`listing, this`events, this`sessList, this`replies, this`sess, this`console
      ensures JoinEffect(old(State()), State(), args, outcome)
    {
      var name := ArgOrPrompt(args);
      if name.None? {
        return Raised(EOFError);
      }
      outcome := JoinNamed(name.value);
    }

    /** The rest of -join once the session name is known. */
    method JoinNamed(name: string) returns (outcome: Outcome)
      modifies this`listing, this`events, this`sessList, this`replies, this`sess, this`console
      ensures JoinedAs(old(State()), State(), name, outcome)
    {
      var r := GetIdByName(name);
      if r.Err? {
        return Raised(SendFailed(r.error));
      }
      if r.value == -1 {
        Print("No such session");
        outcome := Done;
      } else {
        sess := r.value;
        var failure := SendStandard(DEFAULT_SEND.(reqType := CTL_JOINS, usrname := Some(usrname), session := Some(sess)));
        outcome := AfterSend(failure);
      }
    }

    /** -sid: print the id of the named session, or that there is none. */
    method Sid(args: seq<string>) returns (outcome: Outcome)
      modifies this`stdin, this`listing, this`events, this`sessList, this`replies, this`console
      ensures SidEffect(old(State()), State(), args, outcome)
    {
      var name := ArgOrPrompt(args);
      if name.None? {
        return Raised(EOFError);
      }
      var r := GetIdByName(name.value);
      if r.Err? {
        return Raised(SendFailed(r.error));
      }
      Print(if r.value == -1 then "No such session" else IntToString(r.value));
      outcome := Done;
    }

    /** -swtch: print the old session id, switch to the given one and join it. */
    method Swtch(args: seq<string>) returns (outcome: Outcome)
      modifies this`stdin, this`console, this`sess, this`events
      ensures SwtchEffect(old(State()), State(), args, outcome)
    {
      Print("Old session id: " + IntToString(sess));
      var v := ArgOrPrompt(args);
      if v.None? {
        return Raised(EOFError);
      }
      var n := ParseInt(v.value);
      if n.None? {
        return Raised(ValueError);
      }
      sess := n.value;
      var failure := SendStandard(DEFAULT_SEND.(reqType := CTL_JOINS, usrname := Some(usrname), session := Some(sess)));
      outcome := AfterSend(failure);
    }

    /** -rl: relay the other arguments, joined by spaces, to the visible name ("-" means none); without arguments only a notice. */
    method Rl(args: seq<string>) returns (outcome: Outcome)
      modifies this`events, this`console
      ensures RlEffect(old(State()), State(), args, outcome)
    {
      if args == [] {
        Print("This command required at least an argument");
        return Done;
      }
      var visible := args[0];
      var msg := Text.Join(args[1..], ' ');
      events := events + [Relayed(msg, if visible == "-" then "" else visible)];
      outcome := Done;
    }

    /** The handlers that send one request built from an argument or a prompt: -newse, -uinfo, -send. */
    method SendFromArg(h: Handler, args: seq<string>) returns (outcome: Outcome)
      requires h == Newse || h == Uinfo || h == SendCmd
      modifies this`stdin, this`events, this`sessList, this`replies
      ensures SendFromArgEffect(old(State()), State(), h, args, outcome)
    {
      var v := ArgOrPrompt(args);
      if v.None? {
        return Raised(EOFError);
      }
      var failure;
      if h == Newse {
        failure := SendStandard(DEFAULT_SEND.(reqType := CTL_NEWSE, usrname := Some(v.value)));
      } else if h == SendCmd {
        failure := SendStandard(DEFAULT_SEND.(reqType := MSG_SEND, msg := v.value));
      } else {
        failure := SendStandard(DEFAULT_SEND.(reqType := CTL_UINFO, uid := 0, msg := v.value));
        if failure.None? {
          Wait();
        }
      }
      outcome := AfterSend(failure);
    }

    /** The handlers that send one fixed request and wait for its reply: -ls, -lsse, -lself. */
    method SendAndWait(h: Handler) returns (outcome: Outcome)
      requires h == Ls || h == Lsse || h == Lself
      modifies this`events, this`sessList, this`replies
      ensures SendAndWaitEffect(old(State()), State(), h, outcome)
    {
      var failure;
      if h == Ls {
        failure := SendStandard(DEFAULT_SEND.(reqType := CTL_USRS, uid := 0));
      } else if h == Lsse {
        failure := SendStandard(DEFAULT_SEND.(reqType := CTL_SESS, uid := 0));
      } else {
        failure := SendStandard(DEFAULT_SEND.(reqType := CTL_UINFO, uid := 0, msg := usrname));
      }
      if failure.Some? {
        return Raised(SendFailed(failure.value));
      }
      Wait();
      outcome := Done;
    }

    /** -incr's username and increment text: its two arguments, or the next two lines of input. */
    method IncrInputs(args: seq<string>) returns (r: Option<(string, string)>)
      modifies this`stdin
      ensures r == IncrFields(args, old(stdin)) && stdin == StdinAfterIncr(args, old(stdin))
    {
      if |args| == 2 {
        return Some((args[0], args[1]));
      }
      var u := Input();
      if u.None? {
        return None;
      }
      var i := Input();
      if i.None? {
        return None;
      }
      r := Some((u.value, i.value));
    }

    /** -incr: two arguments, or a username and an increment read from the terminal; the increment travels in `session`. */
    method Incr(args: seq<string>) returns (outcome: Outcome)
      modifies this`stdin, this`events, this`sessList, this`replies
      ensures IncrEffect(old(State()), State(), args, outcome)
    {
      var fields := IncrInputs(args);
      if fields.None? {
        return Raised(EOFError);
      }
      var username := fields.value.0;
      var incr := ParseInt(fields.value.1);
      if incr.None? {
        return Raised(ValueError);
      }
      var failure := SendStandard(DEFAULT_SEND.(reqType := SYS_SCRINC, usrname := Some(username), session := Some(incr.value)));
      if failure.Some? {
        return Raised(SendFailed(failure.value));
      }
      Wait();
      outcome := Done;
    }

    /** -quits: the session id is parsed, then the handler fails on its undefined name `sid`. */
    method Quits(args: seq<string>) returns (outcome: Outcome)
      modifies this`stdin
      ensures QuitsEffect(old(State()), State(), args, outcome)
    {
      var v := ArgOrPrompt(args);
      if v.None? {
        return Raised(EOFError);
      }
      if ParseInt(v.value).None? {
        return Raised(ValueError);
      }
      outcome := Raised(NameError);
    }

    /** A handler from IsClientHandler. */
    method Run(h: Handler, args: seq<string>) returns (outcome: Outcome)
      requires IsClientHandler(h)
      modifies this`stdin, this`listing, this`events, this`sessList, this`replies, this`sess, this`console
      ensures HandlerEffect(old(State()), State(), h, args, outcome)
    {
      if IsSessionHandler(h) {
        outcome := RunSession(h, args);
      } else {
        outcome := RunRequest(h, args);
      }
    }

    /** The handlers that make one request, or only print. */
    method RunRequest(h: Handler, args: seq<string>) returns (outcome: Outcome)
      requires IsClientHandler(h) && !IsSessionHandler(h)
      modifies this`stdin, this`listing, this`events, this`sessList, this`replies, this`sess, this`console
      ensures HandlerEffect(old(State()), State(), h, args, outcome)
    {
      match h {
        case Quit => Print("bye."); outcome := Raised(NameError);
        case Ls => outcome := SendAndWait(h);
        case Lsse => outcome := SendAndWait(h);
        case Lself => outcome := SendAndWait(h);
        case Newse => outcome := SendFromArg(h, args);
        case SendCmd => outcome := SendFromArg(h, args);
        case Uinfo => outcome := SendFromArg(h, args);
        case Currs => Print(IntToString(sess)); outcome := Done;
        case CqdCmd =>
          var failure := SendStandard(Cqd.CommandSend(args));
          outcome := AfterSend(failure);
      }
    }

    /** The handlers that look up, switch or relay sessions, and those that fail at once. */
    method RunSession(h: Handler, args: seq<string>) returns (outcome: Outcome)
      requires IsSessionHandler(h)
      modifies this`stdin, this`listing, this`events, this`sessList, this`replies, this`sess, this`console
      ensures HandlerEffect(old(State()), State(), h, args, outcome)
    {
      match h {
        case Swtch => outcome := Swtch(args);
        case Incr => outcome := Incr(args);
        case Rl => outcome := Rl(args);
        case Pins => outcome := NotModelled;
        case Pls => outcome := NotModelled;
        case Sname => outcome := Raised(AttributeError);
        case Sid => outcome := Sid(args);
        case Join => outcome := Join(args);
        case Quits => outcome := Quits(args);
      }
    }
  }

  /** The client handlers that RunSession covers. */
  predicate IsSessionHandler(h: Handler)
  {
    h.Swtch? || h.Incr? || h.Rl? || h.Pins? || h.Pls? || h.Sname? || h.Sid? || h.Join? || h.Quits?
  }

  /** The handlers that touch nothing but the session state (all but -help, -ml, -ban and -unban). */
  predicate IsClientHandler(h: Handler)
  {
    !(h.Help? || h.Ml? || h.BanCmd? || h.UnbanCmd?)
  }

  /** A client's fields as one value, so that what a handler does is a relation between two of them. */
  datatype ClientState = ClientState(
    sess: int, usrname: string, level: int, listing: bool, sessList: seq<string>,
    stdin: seq<string>, replies: seq<seq<string>>, events: seq<Event>, console: seq<Line>)

  /** The fields of a Client, for saying which ones a handler may change. */
  datatype Field = FSess | FListing | FSessList | FStdin | FReplies | FEvents | FConsole

  /** Every field outside `changed` keeps its value; the username and the level never change. */
  predicate OnlyChanges(s: ClientState, s': ClientState, changed: set<Field>)
  {
    && s'.usrname == s.usrname && s'.level == s.level
    && (FSess !in changed ==> s'.sess == s.sess)
    && (FListing !in changed ==> s'.listing == s.listing)
    && (FSessList !in changed ==> s'.sessList == s.sessList)
    && (FStdin !in changed ==> s'.stdin == s.stdin)
    && (FReplies !in changed ==> s'.replies == s.replies)
    && (FEvents !in changed ==> s'.events == s.events)
    && (FConsole !in changed ==> s'.console == s.console)
  }

  /**
   * What -join does once it has a session name: the lookup of get_id_by_name (whose
   * refresh can raise), then the report, or the switch and the CTL_JOINS send.
   */
  predicate JoinedAs(s: ClientState, s': ClientState, name: string, outcome: Outcome)
  {
    var lookup := if name in s.sessList then None else SessionError(s.sess);
    var id := IdIn(s'.sessList, name);
    && (name in s.sessList ==>
          s'.sessList == s.sessList && s'.replies == s.replies && s'.listing == s.listing)
    && (name !in s.sessList ==> s'.listing)
    && (lookup.Some? ==>
          && outcome == Raised(SendFailed(lookup.value)) && s'.events == s.events && s'.sess == s.sess
          && s'.console == s.console && s'.sessList == s.sessList && s'.replies == s.replies)
    && (lookup.None? ==>
          && (name !in s.sessList ==> RefreshedFrom(s.sessList, s.replies, s'.sessList, s'.replies))
          && s'.events == s.events
             + (if name in s.sessList then [] else [Sent(Request(CTL_SESS, 0, s.sess, 0, s.usrname, "")), Waited])
             + (if id == -1 then [] else SentIf(SessionError(id), Request(CTL_JOINS, 0, id, 0, s.usrname, "")))
          && (id == -1 ==> outcome == Done && s'.sess == s.sess && s'.console == s.console + [Stdout("No such session")])
          && (id != -1 ==> outcome == AfterSend(SessionError(id)) && s'.sess == id && s'.console == s.console))
  }

  /** -join: move to the named session and tell the server, or report that there is none. */
  predicate JoinEffect(s: ClientState, s': ClientState, args: seq<string>, outcome: Outcome)
  {
    && OnlyChanges(s, s', {FStdin, FListing, FEvents, FSessList, FReplies, FSess, FConsole})
    && s'.stdin == StdinAfter(args, s.stdin)
    && (ArgOrInput(args, s.stdin).None? ==>
          && outcome == Raised(EOFError) && s'.sess == s.sess && s'.events == s.events
          && s'.console == s.console && s'.listing == s.listing
          && s'.sessList == s.sessList && s'.replies == s.replies)
    && (ArgOrInput(args, s.stdin).Some? ==> JoinedAs(s, s', ArgOrInput(args, s.stdin).value, outcome))
  }

  /** -sid: print the id of the named session, or that there is none. */
  predicate SidEffect(s: ClientState, s': ClientState, args: seq<string>, outcome: Outcome)
  {
    && OnlyChanges(s, s', {FStdin, FListing, FEvents, FSessList, FReplies, FConsole})
    && s'.stdin == StdinAfter(args, s.stdin)
    && (ArgOrInput(args, s.stdin).None? ==>
          && outcome == Raised(EOFError) && s'.console == s.console && s'.events == s.events
          && s'.listing == s.listing && s'.sessList == s.sessList && s'.replies == s.replies)
    && (ArgOrInput(args, s.stdin).Some? ==>
          var name := ArgOrInput(args, s.stdin).value;
          var lookup := if name in s.sessList then None else SessionError(s.sess);
          var id := IdIn(s'.sessList, name);
          && (name in s.sessList ==>
                && s'.events == s.events && s'.sessList == s.sessList
                && s'.replies == s.replies && s'.listing == s.listing)
          && (name !in s.sessList ==>
                && s'.listing
                && s'.events == s.events
                   + (if lookup.None? then [Sent(Request(CTL_SESS, 0, s.sess, 0, s.usrname, "")), Waited] else []))
          && (lookup.Some? ==>
                && outcome == Raised(SendFailed(lookup.value)) && s'.console == s.console
                && s'.sessList == s.sessList && s'.replies == s.replies)
          && (lookup.None? ==>
                && outcome == Done
                && (name !in s.sessList ==> RefreshedFrom(s.sessList, s.replies, s'.sessList, s'.replies))
                && s'.console == s.console + [Stdout(if id == -1 then "No such session" else IntToString(id))]))
  }

  /** -swtch: print the old session id, switch to the given one and join it; `sess` is already switched when the send raises. */
  predicate SwtchEffect(s: ClientState, s': ClientState, args: seq<string>, outcome: Outcome)
  {
    && OnlyChanges(s, s', {FStdin, FConsole, FSess, FEvents})
    && s'.stdin == StdinAfter(args, s.stdin)
    && s'.console == s.console + [Stdout("Old session id: " + IntToString(s.sess))]
    && var v := ArgOrInput(args, s.stdin);
       && (v.None? ==> outcome == Raised(EOFError))
       && (v.Some? && ParseInt(v.value).None? ==> outcome == Raised(ValueError))
       && (v.None? || ParseInt(v.value).None? ==> s'.sess == s.sess && s'.events == s.events)
       && (v.Some? && ParseInt(v.value).Some? ==>
             var n := ParseInt(v.value).value;
             && s'.sess == n && outcome == AfterSend(SessionError(n))
             && s'.events == s.events + SentIf(SessionError(n), Request(CTL_JOINS, 0, n, 0, s.usrname, "")))
  }

  /** -rl: relay the other arguments, joined by spaces, to the visible name ("-" means none); without arguments only a notice. */
  predicate RlEffect(s: ClientState, s': ClientState, args: seq<string>, outcome: Outcome)
  {
    && OnlyChanges(s, s', {FEvents, FConsole})
    && outcome == Done
    && (args == [] ==>
          && s'.events == s.events
          && s'.console == s.console + [Stdout("This command required at least an argument")])
    && (args != [] ==>
          && s'.console == s.console
          && s'.events == s.events + [Relayed(Text.Join(args[1..], ' '), if args[0] == "-" then "" else args[0])])
  }

  /** -newse, -uinfo and -send: one request built from an argument or a prompt (-uinfo also waits for the reply when the send went out). */
  predicate SendFromArgEffect(s: ClientState, s': ClientState, h: Handler, args: seq<string>, outcome: Outcome)
  {
    var v := ArgOrInput(args, s.stdin);
    var f := SessionError(s.sess);
    && OnlyChanges(s, s', {FStdin, FEvents, FSessList, FReplies})
    && s'.stdin == StdinAfter(args, s.stdin)
    && (v.None? ==>
          && outcome == Raised(EOFError) && s'.events == s.events
          && s'.sessList == s.sessList && s'.replies == s.replies)
    && (v.Some? ==> outcome == AfterSend(f))
    && (v.Some? && h == Newse ==>
          && s'.sessList == s.sessList && s'.replies == s.replies
          && s'.events == s.events + SentIf(f, Request(CTL_NEWSE, 0, s.sess, 0, v.value, "")))
    && (v.Some? && h == SendCmd ==>
          && s'.sessList == s.sessList && s'.replies == s.replies
          && s'.events == s.events + SentIf(f, Request(MSG_SEND, 0, s.sess, 0, s.usrname, v.value)))
    && (v.Some? && h == Uinfo && f.Some? ==>
          s'.events == s.events && s'.sessList == s.sessList && s'.replies == s.replies)
    && (v.Some? && h == Uinfo && f.None? ==>
          && s'.events == s.events + [Sent(Request(CTL_UINFO, 0, s.sess, 0, s.usrname, v.value)), Waited]
          && RefreshedFrom(s.sessList, s.replies, s'.sessList, s'.replies))
  }

  /** -ls, -lsse and -lself: one fixed request, then a wait for its reply unless the send raised. */
  predicate SendAndWaitEffect(s: ClientState, s': ClientState, h: Handler, outcome: Outcome)
  {
    var f := SessionError(s.sess);
    && OnlyChanges(s, s', {FEvents, FSessList, FReplies})
    && outcome == AfterSend(f)
    && (f.Some? ==> s'.events == s.events && s'.sessList == s.sessList && s'.replies == s.replies)
    && (f.None? ==>
          && s'.events == s.events + [Sent(Request(
               if h == Ls then CTL_USRS else if h == Lsse then CTL_SESS else CTL_UINFO,
               0, s.sess, 0, s.usrname, if h == Lself then s.usrname else "")), Waited]
          && RefreshedFrom(s.sessList, s.replies, s'.sessList, s'.replies))
  }

  /** -incr: two arguments, or a username and an increment read from the terminal; the increment travels in `session`, so it must fit the wire. */
  predicate IncrEffect(s: ClientState, s': ClientState, args: seq<string>, outcome: Outcome)
  {
    var f := IncrFields(args, s.stdin);
    && OnlyChanges(s, s', {FStdin, FEvents, FSessList, FReplies})
    && s'.stdin == StdinAfterIncr(args, s.stdin)
    && (f.None? ==> outcome == Raised(EOFError))
    && (f.Some? && ParseInt(f.value.1).None? ==> outcome == Raised(ValueError))
    && (f.None? || ParseInt(f.value.1).None? || !FitsWire(ParseInt(f.value.1).value) ==>
          s'.events == s.events && s'.sessList == s.sessList && s'.replies == s.replies)
    && (f.Some? && ParseInt(f.value.1).Some? ==>
          var n := ParseInt(f.value.1).value;
          && outcome == AfterSend(SessionError(n))
          && (FitsWire(n) ==>
                && s'.events == s.events + [Sent(Request(SYS_SCRINC, 0, n, 0, f.value.0, "")), Waited]
                && RefreshedFrom(s.sessList, s.replies, s'.sessList, s'.replies)))
  }

  /** -quits: the session id is parsed, then the handler fails on its undefined name `sid`. */
  predicate QuitsEffect(s: ClientState, s': ClientState, args: seq<string>, outcome: Outcome)
  {
    && OnlyChanges(s, s', {FStdin})
    && s'.stdin == StdinAfter(args, s.stdin)
    && var v := ArgOrInput(args, s.stdin);
       outcome == if v.None? then Raised(EOFError)
                  else if ParseInt(v.value).None? then Raised(ValueError)
                  else Raised(NameError)
  }

  /** What each handler of IsClientHandler does to the session state, and how it ends. */
  predicate HandlerEffect(s: ClientState, s': ClientState, h: Handler, args: seq<string>, outcome: Outcome)
    requires IsClientHandler(h)
  {
    match h
    case Quit => outcome == Raised(NameError) && s'.console == s.console + [Stdout("bye.")] && OnlyChanges(s, s', {FConsole})
    case Ls => SendAndWaitEffect(s, s', h, outcome)
    case Lsse => SendAndWaitEffect(s, s', h, outcome)
    case Lself => SendAndWaitEffect(s, s', h, outcome)
    case Newse => SendFromArgEffect(s, s', h, args, outcome)
    case SendCmd => SendFromArgEffect(s, s', h, args, outcome)
    case Uinfo => SendFromArgEffect(s, s', h, args, outcome)
    case Currs => outcome == Done && s'.console == s.console + [Stdout(IntToString(s'.sess))] && OnlyChanges(s, s', {FConsole})
    case Swtch => SwtchEffect(s, s', args, outcome)
    case Incr => IncrEffect(s, s', args, outcome)
    case Rl => RlEffect(s, s', args, outcome)
    case Pins => outcome == NotModelled && OnlyChanges(s, s', {})
    case Pls => outcome == NotModelled && OnlyChanges(s, s', {})
    case Sname => outcome == Raised(AttributeError) && OnlyChanges(s, s', {})
    case Sid => SidEffect(s, s', args, outcome)
    case Join => JoinEffect(s, s', args, outcome)
    case Quits => QuitsEffect(s, s', args, outcome)
    case CqdCmd =>
      && outcome == AfterSend(SessionError(s.sess)) && OnlyChanges(s, s', {FEvents})
      && s'.events == s.events + SentIf(SessionError(s.sess), Resolve(Cqd.CommandSend(args), s.sess, s.usrname))
    case _ => false
  }

  /** -ban and -unban: the name comes from the argument or a prompt; it is added to (-ban) or discarded from (-unban) the ban list. */
  predicate BanEffect(
    s: ClientState, s': ClientState, banned: set<string>, banned': set<string>, h: Handler, args: seq<string>, outcome: Outcome)
  {
    var v := ArgOrInput(args, s.stdin);
    && OnlyChanges(s, s', {FStdin}) && s'.stdin == StdinAfter(args, s.stdin)
    && (v.None? ==> outcome == Raised(EOFError) && banned' == banned)
    && (v.Some? ==>
          && outcome == Done
          && banned' == if h == BanCmd then banned + {v.value} else banned - {v.value})
  }

  /**
   * What running a handler from the table does: a client handler as above with the
   * ban list untouched; -help, -ban and -unban as below. -ml is described by DoMl.
   */
  predicate DispatchEffect(
    s: ClientState, s': ClientState, banned: set<string>, banned': set<string>, handlers: map<string, Handler>,
    h: Handler, args: seq<string>, outcome: Outcome)
  {
    if IsClientHandler(h) then
      HandlerEffect(s, s', h, args, outcome) && banned' == banned
    else if h == Help then
      && outcome == Done && banned' == banned && OnlyChanges(s, s', {FConsole})
      && s'.console == s.console
         + (if args != [] && args[0] !in handlers then [Stderr(UnknownText(args[0]))] else [])
    else if h == BanCmd || h == UnbanCmd then
      BanEffect(s, s', banned, banned', h, args, outcome)
    else
      true
  }

  /** Input and cached replies are only consumed, events and console lines only appended. */
  predicate Bounded(s: ClientState, s': ClientState)
  {
    && |s'.stdin| <= |s.stdin| && |s'.replies| <= |s.replies|
    && s.events <= s'.events && s.console <= s'.console
  }

  lemma JoinBounds(s: ClientState, s': ClientState, args: seq<string>, outcome: Outcome)
    requires JoinEffect(s, s', args, outcome)
    ensures Bounded(s, s')
  {
  }

  lemma SidBounds(s: ClientState, s': ClientState, args: seq<string>, outcome: Outcome)
    requires SidEffect(s, s', args, outcome)
    ensures Bounded(s, s')
  {
  }

  lemma SendFromArgBounds(s: ClientState, s': ClientState, h: Handler, args: seq<string>, outcome: Outcome)
    requires h == Newse || h == SendCmd || h == Uinfo
    requires SendFromArgEffect(s, s', h, args, outcome)
    ensures Bounded(s, s')
  {
    if ArgOrInput(args, s.stdin).Some? && h == Uinfo && SessionError(s.sess).None? {
      assert s'.events == s.events + [Sent(Request(CTL_UINFO, 0, s.sess, 0, s.usrname, ArgOrInput(args, s.stdin).value)), Waited];
    }
  }

  lemma SendAndWaitBounds(s: ClientState, s': ClientState, h: Handler, outcome: Outcome)
    requires SendAndWaitEffect(s, s', h, outcome)
    ensures Bounded(s, s')
  {
  }

  lemma SessionBounds(s: ClientState, s': ClientState, args: seq<string>, outcome: Outcome)
    requires SwtchEffect(s, s', args, outcome) || IncrEffect(s, s', args, outcome)
    ensures Bounded(s, s')
  {
  }

  /** What every client handler keeps: input and cached replies are only consumed, events and console lines only appended. */
  lemma HandlerBounds(s: ClientState, s': ClientState, h: Handler, args: seq<string>, outcome: Outcome)
    requires IsClientHandler(h) && HandlerEffect(s, s', h, args, outcome)
    ensures !outcome.Unknown?
    ensures |s'.stdin| <= |s.stdin| && |s'.replies| <= |s.replies|
    ensures s.events <= s'.events && s.console <= s'.console
    ensures !h.Swtch? && !h.Join? ==> s'.sess == s.sess
  {
    if IsSessionHandler(h) {
      SessionHandlerBounds(s, s', h, args, outcome);
    } else {
      RequestHandlerBounds(s, s', h, args, outcome);
    }
  }

  /** HandlerBounds for the handlers RunRequest covers. */
  lemma RequestHandlerBounds(s: ClientState, s': ClientState, h: Handler, args: seq<string>, outcome: Outcome)
    requires IsClientHandler(h) && !IsSessionHandler(h) && HandlerEffect(s, s', h, args, outcome)
    ensures !outcome.Unknown? && Bounded(s, s') && s'.sess == s.sess
  {
    match h
    case Quit =>
    case Ls => SendAndWaitBounds(s, s', h, outcome);
    case Lsse => SendAndWaitBounds(s, s', h, outcome);
    case Lself => SendAndWaitBounds(s, s', h, outcome);
    case Newse => SendFromArgBounds(s, s', h, args, outcome);
    case SendCmd => SendFromArgBounds(s, s', h, args, outcome);
    case Uinfo => SendFromArgBounds(s, s', h, args, outcome);
    case Currs =>
    case CqdCmd =>
  }

  /** HandlerBounds for the handlers RunSession covers. */
  lemma SessionHandlerBounds(s: ClientState, s': ClientState, h: Handler, args: seq<string>, outcome: Outcome)
    requires IsClientHandler(h) && IsSessionHandler(h) && HandlerEffect(s, s', h, args, outcome)
    ensures !outcome.Unknown? && Bounded(s, s')
    ensures !h.Swtch? && !h.Join? ==> s'.sess == s.sess
  {
    if h.Swtch? || h.Incr? || h.Sid? || h.Join? {
      LookupHandlerBounds(s, s', h, args, outcome);
    } else {
      match h
      case Rl =>
      case Pins =>
      case Pls =>
      case Sname =>
      case Quits =>
    }
  }

  /** SessionHandlerBounds for the handlers that parse or look up a session. */
  lemma LookupHandlerBounds(s: ClientState, s': ClientState, h: Handler, args: seq<string>, outcome: Outcome)
    requires (h.Swtch? || h.Incr? || h.Sid? || h.Join?) && HandlerEffect(s, s', h, args, outcome)
    ensures !outcome.Unknown? && Bounded(s, s')
    ensures !h.Swtch? && !h.Join? ==> s'.sess == s.sess
  {
    match h
    case Swtch => SessionBounds(s, s', args, outcome);
    case Incr => SessionBounds(s, s', args, outcome);
    case Sid => SidBounds(s, s', args, outcome);
    case Join => JoinBounds(s, s', args, outcome);
  }

  /** Runs one handler with its arguments. */
  method RunHandler(h: Handler, args: seq<string>, table: CommandTable, client: Client, bans: Ban.BanList)
    returns (outcome: Outcome)
    modifies client, bans
    decreases |client.stdin|, 2
    ensures !outcome.Unknown?
    ensures client.usrname == old(client.usrname) && client.level == old(client.level)
    ensures |client.stdin| <= old(|client.stdin|) && |client.replies| <= old(|client.replies|)
    ensures old(client.events) <= client.events && old(client.console) <= client.console
    ensures h != Swtch && h != Join && h != Ml ==> client.sess == old(client.sess)
    ensures h != BanCmd && h != UnbanCmd && h != Ml ==> bans.names == old(bans.names)
    ensures h == BanCmd && ArgOrInput(args, old(client.stdin)).Some? ==>
      outcome == Done && bans.names == old(bans.names) + {ArgOrInput(args, old(client.stdin)).value}
    ensures h == UnbanCmd && ArgOrInput(args, old(client.stdin)).Some? ==>
      outcome == Done && bans.names == old(bans.names) - {ArgOrInput(args, old(client.stdin)).value}
    ensures DispatchEffect(old(client.State()), client.State(), old(bans.names), bans.names, table.handlers, h, args, outcome)
  {
    if h == Help {
      outcome := DoHelp(args, table, client);
    } else if h == Ml {
      ghost var ran;
      outcome, ran := DoMl(table, client, bans);
    } else if h == BanCmd || h == UnbanCmd {
      outcome := DoBan(h, args, client, bans);
    } else {
      outcome := RunClient(h, args, client);
    }
  }

  /** A client handler, with the bounds every one of them keeps. */
  method RunClient(h: Handler, args: seq<string>, client: Client) returns (outcome: Outcome)
    requires IsClientHandler(h)
    modifies client
    ensures HandlerEffect(old(client.State()), client.State(), h, args, outcome)
    ensures !outcome.Unknown?
    ensures client.usrname == old(client.usrname) && client.level == old(client.level)
    ensures |client.stdin| <= old(|client.stdin|) && |client.replies| <= old(|client.replies|)
    ensures old(client.events) <= client.events && old(client.console) <= client.console
    ensures h != Swtch && h != Join ==> client.sess == old(client.sess)
  {
    outcome := client.Run(h, args);
    HandlerBounds(old(client.State()), client.State(), h, args, outcome);
  }

  /** The ban plugin's -ban and -unban: the name from the argument or a prompt is added to or discarded from the ban list. */
  method DoBan(h: Handler, args: seq<string>, client: Client, bans: Ban.BanList) returns (outcome: Outcome)
    requires h == BanCmd || h == UnbanCmd
    modifies client`stdin, bans
    ensures BanEffect(old(client.State()), client.State(), old(bans.names), bans.names, h, args, outcome)
  {
    var name := client.ArgOrPrompt(args);
    if name.None? {
      outcome := Raised(EOFError);
    } else {
      if h == BanCmd {
        bans.Ban(name.value);
      } else {
        bans.Unban(name.value);
      }
      outcome := Done;
    }
  }

  /** -help: documentation output is not modelled; an unknown command name is reported on stderr. */
  method DoHelp(args: seq<string>, table: CommandTable, client: Client) returns (outcome: Outcome)
    modifies client`console
    ensures outcome == Done
    ensures args != [] && args[0] !in table.handlers ==> client.console == old(client.console) + [Stderr(UnknownText(args[0]))]
    ensures !(args != [] && args[0] !in table.handlers) ==> client.console == old(client.console)
  {
    if args != [] && args[0] !in table.handlers {
      client.console := client.console + [Stderr(UnknownText(args[0]))];
    }
    outcome := Done;
  }

  /** -ml's first phase: read lines until "finish" or end of file. */
  method CollectLines(client: Client) returns (lines: seq<string>)
    modifies client`stdin
    ensures lines == CollectedLines(old(client.stdin)) && client.stdin == StdinAfterCollect(old(client.stdin))
  {
    lines := [];
    while true
      invariant lines + CollectedLines(client.stdin) == CollectedLines(old(client.stdin))
      invariant StdinAfterCollect(client.stdin) == StdinAfterCollect(old(client.stdin))
      decreases |client.stdin|
    {
      ghost var before := client.stdin;
      var line := client.Input();
      if line.None? || line.value == "finish" {
        break;
      }
      assert CollectedLines(before) == [line.value] + CollectedLines(client.stdin);
      assert (lines + [line.value]) + CollectedLines(client.stdin) == lines + CollectedLines(before);
      lines := lines + [line.value];
    }
  }

  /**
   * -ml: collect lines, then run each as a command (see RunLines). `ran`
   * counts the collected lines whose command was found.
   */
  method DoMl(table: CommandTable, client: Client, bans: Ban.BanList) returns (outcome: Outcome, ghost ran: nat)
    modifies client, bans
    decreases |client.stdin|, 1
    ensures ran <= |CollectedLines(old(client.stdin))|
    ensures forall j :: 0 <= j < ran ==> MlCommand(CollectedLines(old(client.stdin))[j]) in table.handlers
    ensures outcome.Raised? || outcome == NotModelled ==> 0 < ran
    ensures outcome == Done && ran < |CollectedLines(old(client.stdin))| ==>
      var command := MlCommand(CollectedLines(old(client.stdin))[ran]);
      && command !in table.handlers
      && client.console != []
      && client.console[|client.console| - 1] == Stderr(UnknownText(command))
    ensures CollectedLines(old(client.stdin)) == [] ==>
      && outcome == Done
      && client.events == old(client.events) && client.sess == old(client.sess) && bans.names == old(bans.names)
    ensures !outcome.Unknown?
    ensures client.usrname == old(client.usrname) && client.level == old(client.level)
    ensures |client.stdin| <= old(|client.stdin|) && |client.replies| <= old(|client.replies|)
    ensures old(client.events) <= client.events
    ensures old(client.console) <= client.console
  {
    client.Print("Type finish to finish it.");
    ghost var console0 := client.console;
    var lines := CollectLines(client);
    assert lines == CollectedLines(old(client.stdin));
    outcome, ran := RunLines(lines, table, client, bans, |old(client.stdin)|);
    PrefixTransitive(old(client.console), console0, client.console);
  }

  /**
   * -ml's second phase: each line runs as command "-" + its first word with the
   * other words as arguments. The first unknown command is reported and ends the
   * run; an exception from a handler ends it too and escapes.
   */
  method RunLines(lines: seq<string>, table: CommandTable, client: Client, bans: Ban.BanList, ghost bound: nat)
    returns (outcome: Outcome, ghost ran: nat)
    requires lines == [] || |client.stdin| < bound
    modifies client, bans
    decreases bound, 0
    ensures ran <= |lines|
    ensures forall j :: 0 <= j < ran ==> MlCommand(lines[j]) in table.handlers
    ensures outcome.Raised? || outcome == NotModelled ==> 0 < ran
    ensures outcome == Done && ran < |lines| ==>
      && MlCommand(lines[ran]) !in table.handlers
      && client.console != []
      && client.console[|client.console| - 1] == Stderr(UnknownText(MlCommand(lines[ran])))
    ensures lines == [] ==>
      && outcome == Done
      && client.events == old(client.events) && client.sess == old(client.sess) && bans.names == old(bans.names)
    ensures !outcome.Unknown?
    ensures client.usrname == old(client.usrname) && client.level == old(client.level)
    ensures |client.stdin| <= old(|client.stdin|) && |client.replies| <= old(|client.replies|)
    ensures old(client.events) <= client.events
    ensures old(client.console) <= client.console
  {
    if lines == [] {
      return Done, 0;
    }
    var i := 0;
    while i < |lines|
      invariant i <= |lines|
      invariant forall j :: 0 <= j < i ==> MlCommand(lines[j]) in table.handlers
      invariant client.usrname == old(client.usrname) && client.level == old(client.level)
      invariant |client.stdin| <= old(|client.stdin|) && |client.replies| <= old(|client.replies|)
      invariant old(client.events) <= client.events
      invariant old(client.console) <= client.console
    {
      var command := MlCommand(lines[i]);
      if command !in table.handlers {
        ghost var console0 := client.console;
        client.console := client.console + [Stderr(UnknownText(command))];
        PrefixTransitive(old(client.console), console0, client.console);
        return Done, i;
      }
      ghost var events0, console0 := client.events, client.console;
      var o := RunMlLine(lines[i], table, client, bans);
      PrefixTransitive(old(client.events), events0, client.events);
      PrefixTransitive(old(client.console), console0, client.console);
      if o != Done {
        return o, i + 1;
      }
      i := i + 1;
    }
    outcome, ran := Done, i;
  }

  /** One -ml line whose command is known: the handler of "-" + its first word runs on its other words. */
  method RunMlLine(line: string, table: CommandTable, client: Client, bans: Ban.BanList) returns (outcome: Outcome)
    requires MlCommand(line) in table.handlers
    modifies client, bans
    decreases |client.stdin|, 3
    ensures !outcome.Unknown?
    ensures client.usrname == old(client.usrname) && client.level == old(client.level)
    ensures |client.stdin| <= old(|client.stdin|) && |client.replies| <= old(|client.replies|)
    ensures old(client.events) <= client.events && old(client.console) <= client.console
  {
    outcome := RunHandler(table.handlers[MlCommand(line)], Split(line, ' ')[1..], table, client, bans);
  }

  /**
   * do_cmd: split the line, look the command up and run its handler. A command
   * missing from the table is reported on stderr and nothing else changes.
   */
  method DoCmd(line: string, table: CommandTable, client: Client, bans: Ban.BanList) returns (outcome: Outcome)
    modifies client, bans
    ensures CommandOf(line) !in table.handlers ==>
      && outcome == Unknown(CommandOf(line))
      && client.console == old(client.console) + [Stderr(UnknownText(CommandOf(line)))]
      && client.sess == old(client.sess) && client.listing == old(client.listing)
      && client.sessList == old(client.sessList) && client.stdin == old(client.stdin)
      && client.replies == old(client.replies) && client.events == old(client.events)
      && bans.names == old(bans.names)
    ensures CommandOf(line) in table.handlers ==> !outcome.Unknown?
    ensures CommandOf(line) in table.handlers ==>
      DispatchEffect(
        old(client.State()), client.State(), old(bans.names), bans.names, table.handlers,
        table.handlers[CommandOf(line)], ArgsOf(line), outcome)
    ensures client.usrname == old(client.usrname) && client.level == old(client.level)
    ensures |client.stdin| <= old(|client.stdin|) && |client.replies| <= old(|client.replies|)
    ensures old(client.events) <= client.events && old(client.console) <= client.console
  {
    var command := CommandOf(line);
    if command !in table.handlers {
      client.console := client.console + [Stderr(UnknownText(command))];
      return Unknown(command);
    }
    outcome := RunHandler(table.handlers[command], ArgsOf(line), table, client, bans);
  }
}
